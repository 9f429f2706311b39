/**
 Backoff on 64-bit durations: `httpclient.ExponentialBackoff`, and the failure backoff of the AbuseIPDB quota refresher,
 whose shift can wrap around.
 */
module Backoff {
  import opened Orders

  const TWO_63 := 0x8000_0000_0000_0000
  const TWO_64 := 0x1_0000_0000_0000_0000

  /** `time.Duration`.  Arithmetic on it is checked not to overflow. */
  newtype Duration = x: int | -0x8000_0000_0000_0000 <= x < 0x8000_0000_0000_0000

  const SECOND: Duration := 1_000_000_000

  function Pow2(n: nat): nat { if n == 0 then 1 else 2 * Pow2(n - 1) }

  lemma {:induction false} Pow2Grows(m: nat, n: nat)
    requires m <= n
    ensures 0 < Pow2(m) <= Pow2(n)
  {
    if m < n { Pow2Grows(m, n - 1); } else if n > 0 { Pow2Grows(m - 1, n - 1); }
  }

  lemma {:induction false} ScaledGrows(base: nat, m: nat, n: nat)
    requires m <= n
    ensures base <= base * Pow2(m) <= base * Pow2(n)
  {
    Pow2Grows(m, n);
    Pow2Grows(0, m);
  }

  // ---------------------------------------------------------------- ExponentialBackoff

  datatype ExponentialBackoff = ExponentialBackoff(base: Duration, max: Duration) {
    ghost predicate Valid() { 0 < base <= max }
  }

  /** Any parameters give a usable backoff, and usable parameters are kept. */
  function NewExponentialBackoff(base: Duration, max: Duration): (b: ExponentialBackoff)
    ensures b.Valid()
    ensures 0 < base <= max ==> b == ExponentialBackoff(base, max)
    ensures b.base == base || (base <= 0 && b.base == 1_000_000_000)
    ensures b.max == max || (max < b.base && b.max == b.base)
  {
    var base' := if base <= 0 then SECOND else base;
    ExponentialBackoff(base', if max < base' then base' else max)
  }

  /** The attempt's doubled base, as an unbounded number. */
  ghost function Doubling(base: int, attempt: int): int
    requires 0 < base
  {
    if attempt <= 1 then base else base * Pow2(attempt - 1)
  }

  /** What is documented: double until the maximum. */
  ghost function Ideal(base: int, max: int, attempt: int): int
    requires 0 < base <= max
  {
    if Doubling(base, attempt) < max then Doubling(base, attempt) else max
  }

  /** What is computed: the maximum is taken one unit early when it is odd. */
  ghost function Delay(base: int, max: int, attempt: int): int
    requires 0 < base <= max
  {
    if attempt <= 1 then base
    else if Doubling(base, attempt) >= max - max % 2 then max
    else Doubling(base, attempt)
  }

  /** `Duration`: no step leaves the 64-bit range. */
  method DurationOf(b: ExponentialBackoff, attempt: Duration) returns (d: Duration)
    requires b.Valid()
    ensures d as int == Delay(b.base as int, b.max as int, attempt as int)
  {
    if attempt <= 1 { return b.base; }
    var delay := b.base;
    var i: Duration := 1;
    while i < attempt
      invariant 1 <= i <= attempt
      invariant delay as int == Doubling(b.base as int, i as int) && delay <= b.max
      invariant i > 1 ==> delay < b.max - b.max % 2
      decreases attempt as int - i as int
    {
      ScaledGrows(b.base as int, i as int, attempt as int - 1);
      if delay >= b.max / 2 { return b.max; }
      delay := delay * 2;
      i := i + 1;
    }
    if delay > b.max { return b.max; }
    return delay;
  }

  lemma {:induction false} DoublingGrows(base: int, m: int, n: int)
    requires 0 < base && m <= n
    ensures base <= Doubling(base, m) <= Doubling(base, n)
  {
    if m > 1 { ScaledGrows(base, m - 1, n - 1); } else if n > 1 { ScaledGrows(base, 0, n - 1); }
  }

  /** Delays stay within bounds and never shrink with the attempt. */
  lemma {:induction false} DelayIsMonotone(base: int, max: int, m: int, n: int)
    requires 0 < base <= max && m <= n
    ensures base <= Delay(base, max, m) <= Delay(base, max, n) <= max
  {
    DoublingGrows(base, m, n);
  }

  /** Attempt by attempt: the base first, then twice the delay before, until half the maximum, rounded down, is
      reached. */
  lemma {:induction false} DelayDoubles(base: int, max: int, attempt: int)
    requires 0 < base <= max
    ensures attempt <= 1 ==> Delay(base, max, attempt) == base
    ensures attempt >= 1 && Delay(base, max, attempt) < max / 2 ==>
              Delay(base, max, attempt + 1) == 2 * Delay(base, max, attempt)
    ensures attempt >= 1 && Delay(base, max, attempt) >= max / 2 ==> Delay(base, max, attempt + 1) == max
  {
    if attempt >= 1 { DoublingStep(base, attempt); }
  }

  lemma {:induction false} DoublingStep(base: int, attempt: int)
    requires 0 < base && attempt >= 1
    ensures Doubling(base, attempt + 1) == 2 * Doubling(base, attempt)
  {
    assert Pow2(attempt) == 2 * Pow2(attempt - 1);
    assert base * (2 * Pow2(attempt - 1)) == 2 * (base * Pow2(attempt - 1));
  }

  /** The delay is the documented one except when the doubled base is exactly one below an odd maximum, where it is one
      unit longer. */
  lemma {:induction false} DelayIsIdeal(base: int, max: int, attempt: int)
    requires 0 < base <= max
    ensures Ideal(base, max, attempt) <= Delay(base, max, attempt) <= Ideal(base, max, attempt) + 1
    ensures Delay(base, max, attempt) == Ideal(base, max, attempt) <==>
            !(attempt > 1 && max % 2 == 1 && Doubling(base, attempt) == max - 1)
  {
  }

  lemma {:induction false} Pow2Of63()
    ensures Pow2(63) == TWO_63
  {
    SmallPowers();
    Pow2Sum(23, 23);
    Pow2Sum(23, 46);
    Pow2Sum(63, 3);
    Pow2Sum(63, 6);
  }

  lemma {:induction false} Pow2Sum(m: nat, n: nat)
    ensures Pow2(m + n) == Pow2(m) * Pow2(n)
  {
    if n > 0 {
      Pow2Sum(m, n - 1);
      assert Pow2(m + n) == 2 * Pow2(m + (n - 1));
      assert Pow2(m) * Pow2(n) == 2 * (Pow2(m) * Pow2(n - 1));
    }
  }

  /** From the 64th attempt on every backoff has reached its maximum. */
  lemma {:induction false} DelayReachesMax(base: Duration, max: Duration, attempt: int)
    requires 0 < base <= max && attempt >= 64
    ensures Delay(base as int, max as int, attempt) == max as int
  {
    Pow2Of63();
    DoublingGrows(base as int, 64, attempt);
  }

  // ---------------------------------------------------------------- the quota refresher's shift

  const MINUTE := 60_000_000_000
  const FAILURE_BASE := 15 * MINUTE
  const FAILURE_MAX := 120 * MINUTE
  const FRESHNESS := 30 * MINUTE

  /** Two's complement on 64 bits. */
  function Wrap(x: int): int { (x + TWO_63) % TWO_64 - TWO_63 }

  /** `FAILURE_BASE << k`: bits shifted out are lost, however large `k`. */
  function Shifted(k: nat): int { Wrap(FAILURE_BASE * Pow2(k)) }

  ghost function FailureDelay(failures: nat): int
    requires failures >= 1
  {
    if Shifted(failures - 1) > FAILURE_MAX then FAILURE_MAX else Shifted(failures - 1)
  }

  ghost function IdealFailureDelay(failures: nat): int
    requires failures >= 1
  {
    var doubled := 900_000_000_000 * Pow2(failures - 1);
    if doubled > 7_200_000_000_000 then 7_200_000_000_000 else doubled
  }

  /** The failure counts whose shift wraps to nothing or below. */
  predicate Vanishes(failures: nat) {
    failures in {25, 26, 28, 32, 33, 37, 38, 43, 45, 46, 47, 51} || failures >= 53
  }

  lemma {:induction false} WrapDouble(x: int)
    ensures Wrap(2 * x) == Wrap(2 * Wrap(x))
  {
    var q := (x + TWO_63) / TWO_64;
    assert x == Wrap(x) + q * TWO_64;
  }

  lemma {:induction false} ShiftStep(k: nat)
    ensures Shifted(k + 1) == Wrap(2 * Shifted(k))
  {
    WrapDouble(FAILURE_BASE * Pow2(k));
  }

  /** The shift done one place at a time. */
  ghost function Word(k: nat): int { if k == 0 then FAILURE_BASE else Wrap(2 * Word(k - 1)) }

  lemma {:induction false} WordIsShifted(k: nat)
    ensures Word(k) == Shifted(k)
  {
    if k == 0 {
      assert Pow2(0) == 1;
    } else {
      WordIsShifted(k - 1);
      ShiftStep(k - 1);
    }
  }

  lemma {:induction false} Words23To28(k: nat)
    requires Word(k) == 7_549_747_200_000_000_000
    ensures Word(k + 1) == -3_347_249_673_709_551_616
    ensures Word(k + 2) == -6_694_499_347_419_103_232
    ensures Word(k + 3) == 5_057_745_378_871_345_152
    ensures Word(k + 4) == -8_331_253_315_966_861_312
    ensures Word(k + 5) == 1_784_237_441_775_828_992
  {
  }

  lemma {:induction false} Words28To33(k: nat)
    requires Word(k) == 1_784_237_441_775_828_992
    ensures Word(k + 1) == 3_568_474_883_551_657_984
    ensures Word(k + 2) == 7_136_949_767_103_315_968
    ensures Word(k + 3) == -4_172_844_539_502_919_680
    ensures Word(k + 4) == -8_345_689_079_005_839_360
    ensures Word(k + 5) == 1_755_365_915_697_872_896
  {
  }

  lemma {:induction false} Words33To38(k: nat)
    requires Word(k) == 1_755_365_915_697_872_896
    ensures Word(k + 1) == 3_510_731_831_395_745_792
    ensures Word(k + 2) == 7_021_463_662_791_491_584
    ensures Word(k + 3) == -4_403_816_748_126_568_448
    ensures Word(k + 4) == -8_807_633_496_253_136_896
    ensures Word(k + 5) == 831_477_081_203_277_824
  {
  }

  lemma {:induction false} Words38To43(k: nat)
    requires Word(k) == 831_477_081_203_277_824
    ensures Word(k + 1) == 1_662_954_162_406_555_648
    ensures Word(k + 2) == 3_325_908_324_813_111_296
    ensures Word(k + 3) == 6_651_816_649_626_222_592
    ensures Word(k + 4) == -5_143_110_774_457_106_432
    ensures Word(k + 5) == 8_160_522_524_795_338_752
  {
  }

  lemma {:induction false} Words43To48(k: nat)
    requires Word(k) == 8_160_522_524_795_338_752
    ensures Word(k + 1) == -2_125_699_024_118_874_112
    ensures Word(k + 2) == -4_251_398_048_237_748_224
    ensures Word(k + 3) == -8_502_796_096_475_496_448
    ensures Word(k + 4) == 1_441_151_880_758_558_720
    ensures Word(k + 5) == 2_882_303_761_517_117_440
  {
  }

  lemma {:induction false} Words48To53(k: nat)
    requires Word(k) == 2_882_303_761_517_117_440
    ensures Word(k + 1) == 5_764_607_523_034_234_880
    ensures Word(k + 2) == -6_917_529_027_641_081_856
    ensures Word(k + 3) == 4_611_686_018_427_387_904
    ensures Word(k + 4) == -9_223_372_036_854_775_808
    ensures Word(k + 5) == 0
  {
  }

  lemma {:induction false} SmallPowers()
    ensures Pow2(3) == 8 && Pow2(23) == 0x80_0000
  {
    assert Pow2(1) == 2 && Pow2(2) == 4 && Pow2(3) == 8 && Pow2(4) == 16;
    Pow2Sum(4, 4);
    Pow2Sum(8, 8);
    Pow2Sum(4, 3);
    Pow2Sum(16, 7);
  }

  lemma {:induction false} LastExactWord(k: nat)
    requires k == 23
    ensures Word(k) == FAILURE_BASE * 0x80_0000
  {
    SmallPowers();
    WordIsShifted(k);
    Unwrapped(FAILURE_BASE * 0x80_0000);
  }

  lemma {:induction false} Unwrapped(x: int)
    requires -TWO_63 <= x < TWO_63
    ensures Wrap(x) == x
  {
  }

  /** The shifted base is not positive exactly at the places that vanish, and over the maximum at the others. */
  ghost predicate RightSign(k: nat) { if Vanishes(k + 1) then Word(k) <= 0 else Word(k) > FAILURE_MAX }

  lemma {:induction false} Signs24To28(k: nat, start: nat)
    requires start == 23 < k <= 28 && Word(start) == 7_549_747_200_000_000_000
    ensures RightSign(k)
  {
    Words23To28(start);
  }

  lemma {:induction false} Signs29To33(k: nat, start: nat)
    requires start == 28 < k <= 33 && Word(start) == 1_784_237_441_775_828_992
    ensures RightSign(k)
  {
    Words28To33(start);
  }

  lemma {:induction false} Signs34To38(k: nat, start: nat)
    requires start == 33 < k <= 38 && Word(start) == 1_755_365_915_697_872_896
    ensures RightSign(k)
  {
    Words33To38(start);
  }

  lemma {:induction false} Signs39To43(k: nat, start: nat)
    requires start == 38 < k <= 43 && Word(start) == 831_477_081_203_277_824
    ensures RightSign(k)
  {
    Words38To43(start);
  }

  lemma {:induction false} Signs44To48(k: nat, start: nat)
    requires start == 43 < k <= 48 && Word(start) == 8_160_522_524_795_338_752
    ensures RightSign(k)
  {
    Words43To48(start);
  }

  lemma {:induction false} Signs49To53(k: nat, start: nat)
    requires start == 48 < k <= 53 && Word(start) == 2_882_303_761_517_117_440
    ensures RightSign(k) && (k == 53 ==> Word(k) == 0)
  {
    Words48To53(start);
  }

  lemma {:induction false} WordSigns(k: nat)
    requires 24 <= k <= 53
    ensures RightSign(k) && (k == 53 ==> Word(k) == 0)
  {
    var start: nat := 23;
    LastExactWord(start);
    Words23To28(start);
    Words28To33(start + 5);
    Words33To38(start + 10);
    Words38To43(start + 15);
    Words43To48(start + 20);
    if k <= 28 {
      Signs24To28(k, start);
    } else if k <= 33 {
      Signs29To33(k, start + 5);
    } else if k <= 38 {
      Signs34To38(k, start + 10);
    } else if k <= 43 {
      Signs39To43(k, start + 15);
    } else if k <= 48 {
      Signs44To48(k, start + 20);
    } else {
      Signs49To53(k, start + 25);
    }
  }

  lemma {:induction false} ShiftedOut(k: nat)
    requires k >= 53
    ensures Word(k) == 0
  {
    if k == 53 { WordSigns(k); } else { ShiftedOut(k - 1); }
  }

  /** Up to 24 failures the shift does not wrap. */
  lemma {:induction false} EarlyFailures(failures: nat)
    requires 1 <= failures <= 24
    ensures FailureDelay(failures) == IdealFailureDelay(failures) > 0
  {
    SmallPowers();
    ScaledGrows(FAILURE_BASE, failures - 1, 23);
  }

  lemma {:induction false} LaterFailures(failures: nat)
    requires failures > 24
    ensures Vanishes(failures) ==> FailureDelay(failures) <= 0
    ensures !Vanishes(failures) ==> FailureDelay(failures) == FAILURE_MAX
    ensures IdealFailureDelay(failures) == FAILURE_MAX
  {
    SmallPowers();
    ScaledGrows(FAILURE_BASE, 3, failures - 1);
    WordIsShifted(failures - 1);
    if failures >= 54 { ShiftedOut(failures - 1); } else { WordSigns(failures - 1); }
  }

  /** The failure backoff is the documented doubling up to two hours exactly for the counts that do not vanish; at a
      count that does, there is no backoff at all. */
  lemma {:induction false} FailureDelayIsIdeal(failures: nat)
    requires failures >= 1
    ensures FailureDelay(failures) == IdealFailureDelay(failures) <==> !Vanishes(failures)
    ensures FailureDelay(failures) <= 0 <==> Vanishes(failures)
  {
    if failures <= 24 { EarlyFailures(failures); } else { LaterFailures(failures); }
  }

  // ---------------------------------------------------------------- the refresher

  /** The newest quota observation: when it was made, and what it says about a reset. */
  datatype Observation = Observation(exhausted: bool, resetKnown: bool, resetAt: int, observedAt: int)

  datatype State = State(failures: nat, nextAttempt: int)

  const RESET := State(0, 0)

  predicate BackoffActive(s: State, now: int) { s.nextAttempt != 0 && now < s.nextAttempt }

  function Cooldown(s: State, until: int): State { if until > s.nextAttempt then s.(nextAttempt := until) else s }

  ghost function Failed(s: State, now: int): State { State(s.failures + 1, now + FailureDelay(s.failures + 1)) }

  /** One due refresh: the clock, the observation, and how the check goes if it is made. */
  datatype Poll = Poll(now: int, seen: Option<Observation>, checkOk: bool)

  predicate Exhausted(p: Poll) { p.seen.Some? && p.seen.value.exhausted }
  predicate ResetKnown(p: Poll) { p.seen.Some? && p.seen.value.resetKnown && p.seen.value.resetAt != 0 }
  predicate Fresh(p: Poll) {
    p.seen.Some? && p.seen.value.observedAt != 0 && p.now - p.seen.value.observedAt <= FRESHNESS
  }

  /** An exhausted quota that is not known to be over. */
  predicate MustWait(p: Poll) { Exhausted(p) && (ResetKnown(p) ==> p.now < p.seen.value.resetAt) }

  /** A check is made. */
  ghost predicate Checks(s: State, p: Poll) { !MustWait(p) && !Fresh(p) && (Exhausted(p) || !BackoffActive(s, p.now)) }

  ghost function After(s: State, p: Poll): State {
    if MustWait(p) then (if ResetKnown(p) then Cooldown(s, p.seen.value.resetAt)
      else Cooldown(RESET, p.now + FRESHNESS))
    else if Fresh(p) then RESET
    else
      var s' := if Exhausted(p) then RESET else s;
      if !Checks(s, p) then s' else if p.checkOk then RESET else Failed(s', p.now)
  }

  /** The quota is known to be used up until a time still to come. */
  ghost predicate UsedUpUntil(p: Poll, until: int) {
    && p.seen.Some? && p.seen.value.exhausted && p.seen.value.resetKnown
    && p.seen.value.resetAt == until != 0 && p.now < until
  }

  /** It is used up for nobody knows how long. */
  ghost predicate UsedUp(p: Poll) {
    p.seen.Some? && p.seen.value.exhausted && (!p.seen.value.resetKnown || p.seen.value.resetAt == 0)
  }

  /** It was used up until a time that is over. */
  ghost predicate WasUsedUp(p: Poll) {
    p.seen.Some? && p.seen.value.exhausted && p.seen.value.resetKnown && p.seen.value.resetAt != 0
    && p.now >= p.seen.value.resetAt
  }

  /** It was observed in the last half hour. */
  ghost predicate JustSeen(p: Poll) {
    p.seen.Some? && p.seen.value.observedAt != 0 && p.now - p.seen.value.observedAt <= 1_800_000_000_000
  }

  /** What a refresh does, case by case: it waits for a known reset, or half an hour for an unknown one; it forgets past
      failures where the observation is fresh or the check succeeds; otherwise it checks unless a backoff is running,
      and a failed check adds to the failures since the last reset. */
  lemma {:induction false} RefreshExactly(s: State, p: Poll)
    ensures forall until :: UsedUpUntil(p, until) ==>
              !Checks(s, p) && After(s, p) == State(s.failures, if until > s.nextAttempt then until else s.nextAttempt)
    ensures UsedUp(p) ==>
              var later := p.now + 1_800_000_000_000;
              !Checks(s, p) && After(s, p) == State(0, if later > 0 then later else 0)
    ensures JustSeen(p) && !UsedUp(p) && !(exists until :: UsedUpUntil(p, until)) ==>
              !Checks(s, p) && After(s, p) == State(0, 0)
    ensures !JustSeen(p) && !UsedUp(p) && !(exists until :: UsedUpUntil(p, until)) ==>
              && (Checks(s, p) <==> WasUsedUp(p) || s.nextAttempt == 0 || p.now >= s.nextAttempt)
              && (!Checks(s, p) ==> After(s, p) == s)
              && (Checks(s, p) && p.checkOk ==> After(s, p) == State(0, 0))
              && (Checks(s, p) && !p.checkOk ==>
                  var failures := 1 + if WasUsedUp(p) then 0 else s.failures;
                  After(s, p) == State(failures, p.now + FailureDelay(failures)))
  {
    if p.seen.Some? { assert UsedUpUntil(p, p.seen.value.resetAt) || !exists until :: UsedUpUntil(p, until); }
  }

  class QuotaRefreshers {
    var abuseFailures: nat
    var abuseNextAttempt: int
    var abuseKey: string
    /** The key the cached transport was built with. */
    var client: Option<string>
    const canConnect: bool

    ghost function View(): State
      reads this
    {
      State(abuseFailures, abuseNextAttempt)
    }

    ghost predicate Valid()
      reads this
    {
      client.Some? ==> client.value == abuseKey
    }

    constructor (key: string, connect: bool)
      ensures Valid() && View() == RESET && abuseKey == key && canConnect == connect
    {
      abuseFailures, abuseNextAttempt, abuseKey, client, canConnect := 0, 0, key, None, connect;
    }

    method RecordAbuseFailure(now: int)
      modifies this`abuseFailures, this`abuseNextAttempt
      ensures View() == Failed(old(View()), now)
    {
      abuseFailures := abuseFailures + 1;
      var delay := Shifted(abuseFailures - 1);
      if delay > FAILURE_MAX { delay := FAILURE_MAX; }
      abuseNextAttempt := now + delay;
    }

    method MarkAbuseCooldown(until: int)
      modifies this`abuseNextAttempt
      ensures View() == Cooldown(old(View()), until)
    {
      if until > abuseNextAttempt { abuseNextAttempt := until; }
    }

    method ResetAbuseBackoff()
      modifies this`abuseFailures, this`abuseNextAttempt
      ensures View() == RESET
    {
      abuseFailures, abuseNextAttempt := 0, 0;
    }

    /** `shouldRefreshAbuseIPDB`: a fresh observation is no reason to refresh, and forgets past failures. */
    method ShouldRefresh(p: Poll) returns (should: bool)
      modifies this`abuseFailures, this`abuseNextAttempt
      ensures should <==> !Fresh(p) && !BackoffActive(old(View()), p.now)
      ensures View() == if Fresh(p) then RESET else old(View())
    {
      if p.seen.Some? && p.seen.value.observedAt != 0 && p.now - p.seen.value.observedAt <= FRESHNESS {
        ResetAbuseBackoff();
        return false;
      }
      should := !(abuseNextAttempt != 0 && p.now < abuseNextAttempt);
    }

    /** The credential in force: a stored one that differs replaces the key and drops the transport. */
    method PrepareClient(stored: Option<string>) returns (ready: bool)
      requires Valid()
      modifies this`abuseKey, this`client
      ensures Valid()
      ensures abuseKey == if stored.Some? && stored.value != "" then stored.value else old(abuseKey)
      ensures ready <==> abuseKey != "" && (client.Some? || canConnect)
      ensures ready ==> client == Some(abuseKey)
    {
      if stored.Some? && stored.value != "" && stored.value != abuseKey { abuseKey, client := stored.value, None; }
      if abuseKey == "" { return false; }
      if client.None? {
        if !canConnect { return false; }
        client := Some(abuseKey);
      }
      return true;
    }

    /** `refreshAbuseIPDB`: `checkedWith` is the key of the check it makes, if it makes one. */
    method Refresh(enabled: bool, stored: Option<string>, p: Poll) returns (checkedWith: Option<string>)
      requires Valid()
      modifies this
      ensures Valid()
      ensures !enabled ==> checkedWith.None? && View() == old(View())
      ensures !enabled ==> abuseKey == old(abuseKey) && client == old(client)
      ensures enabled ==> abuseKey == if stored.Some? && stored.value != "" then stored.value else old(abuseKey)
      ensures enabled && (abuseKey == "" || client.None?) ==> checkedWith.None? && View() == old(View())
      ensures enabled && abuseKey != "" && client.Some? ==>
                && View() == After(old(View()), p)
                && checkedWith == if Checks(old(View()), p) then Some(abuseKey) else None
    {
      checkedWith := None;
      if !enabled { return; }
      var ready := PrepareClient(stored);
      if !ready { return; }
      if p.seen.Some? && p.seen.value.exhausted {
        var o := p.seen.value;
        if o.resetKnown && o.resetAt != 0 && p.now < o.resetAt {
          MarkAbuseCooldown(o.resetAt);
          return;
        }
        ResetAbuseBackoff();
        if !o.resetKnown || o.resetAt == 0 {
          MarkAbuseCooldown(p.now + FRESHNESS);
          return;
        }
      }
      var should := ShouldRefresh(p);
      if !should { return; }
      checkedWith := Some(abuseKey);
      if p.checkOk { ResetAbuseBackoff(); } else { RecordAbuseFailure(p.now); }
    }
  }

  // ---------------------------------------------------------------- runs

  ghost function RunState(polls: seq<Poll>): State {
    if polls == [] then RESET else After(RunState(polls[..|polls| - 1]), polls[|polls| - 1])
  }

  ghost predicate ChecksAt(polls: seq<Poll>, i: nat)
    requires i < |polls|
  {
    Checks(RunState(polls[..i]), polls[i])
  }

  /** A poll that tells nothing new about the quota and whose check, if made, fails. */
  ghost predicate Quiet(p: Poll) { !Exhausted(p) && !Fresh(p) && !p.checkOk }

  ghost function CheckCount(polls: seq<Poll>): nat {
    if polls == [] then 0
    else CheckCount(polls[..|polls| - 1]) + if ChecksAt(polls, |polls| - 1) then 1 else 0
  }

  /** The latest check of a run was made at `at`. */
  ghost predicate LastCheckAt(polls: seq<Poll>, at: int) {
    exists i :: 0 <= i < |polls| && ChecksAt(polls, i) && polls[i].now == at && forall j :: i < j < |polls| ==>
      !ChecksAt(polls, j)
  }

  lemma {:induction false} PrefixChecks(polls: seq<Poll>, n: nat, j: nat)
    requires j < n <= |polls|
    ensures ChecksAt(polls[..n], j) == ChecksAt(polls, j)
  {
    assert polls[..n][..j] == polls[..j];
  }

  lemma {:induction false} LastCheckStep(polls: seq<Poll>, at: int)
    requires polls != []
    requires if ChecksAt(polls, |polls| - 1) then at == polls[|polls| - 1].now
             else LastCheckAt(polls[..|polls| - 1], at)
    ensures LastCheckAt(polls, at)
  {
    var n := |polls| - 1;
    if ChecksAt(polls, n) {
      assert polls[n].now == at;
    } else {
      var front := polls[..n];
      var i :| 0 <= i < n && ChecksAt(front, i) && front[i].now == at && forall j :: i < j < n ==> !ChecksAt(front, j);
      PrefixChecks(polls, n, i);
      forall j | i < j < |polls| ensures !ChecksAt(polls, j) {
        if j < n { PrefixChecks(polls, n, j); }
      }
    }
  }

  /** While every check fails, the state is the number of checks made and the time of the last one plus its delay. */
  lemma {:induction false} FailingRun(polls: seq<Poll>)
    requires forall i :: 0 <= i < |polls| ==> Quiet(polls[i])
    ensures RunState(polls).failures == CheckCount(polls)
    ensures CheckCount(polls) == 0 ==> RunState(polls) == RESET
    ensures CheckCount(polls) > 0 ==> LastCheckAt(polls, RunState(polls).nextAttempt - FailureDelay(CheckCount(polls)))
  {
    if polls != [] {
      var n := |polls| - 1;
      FailingRun(polls[..n]);
      assert Quiet(polls[n]);
      if CheckCount(polls) > 0 {
        LastCheckStep(polls, RunState(polls).nextAttempt - FailureDelay(CheckCount(polls)));
      }
    }
  }

  /** In a run where every check fails, at real times: after the last failure, at `at`, the next poll checks again
      exactly when the delay for the failures so far is over. */
  lemma {:induction false} ChecksAreSpaced(polls: seq<Poll>, next: Poll, at: int)
    requires forall i :: 0 <= i < |polls| ==> Quiet(polls[i])
    requires Quiet(next) && CheckCount(polls) > 0 && at == RunState(polls).nextAttempt - FailureDelay(CheckCount(polls))
    requires 0 < at <= next.now
    ensures LastCheckAt(polls, at)
    ensures ChecksAt(polls + [next], |polls|) <==> next.now >= at + FailureDelay(CheckCount(polls))
    ensures !Vanishes(CheckCount(polls)) ==>
              (ChecksAt(polls + [next], |polls|) <==> next.now >= at + IdealFailureDelay(CheckCount(polls)))
    ensures Vanishes(CheckCount(polls)) ==> ChecksAt(polls + [next], |polls|)
  {
    FailingRun(polls);
    FailureDelayIsIdeal(CheckCount(polls));
    assert (polls + [next])[..|polls|] == polls;
  }
}
