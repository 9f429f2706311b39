/** Planner and executor together, over any sequence of failing batches. */
module Convergence {
  import opened Orders
  import opened CanonicalJson
  import opened SnapshotModel
  import opened Planner
  import Executor

  // A planned batch that stops halfway leaves a state from which planning again yields exactly the operations that
  // are left, so that any sequence of failing batches converges.

  // ---------------------------------------------------------------- what a batch does to the provider

  /** The provider's state when exactly the operations named by `effect` were applied, in order. */
  ghost function Applied(state: map<string, Attrs>, ops: seq<Operation>, effect: nat -> bool): map<string, Attrs> {
    if ops == [] then state
    else
      var n := |ops| - 1;
      var before := Applied(state, ops[..n], effect);
      if effect(n) then Apply(ops[n], before) else before
  }

  lemma {:induction false} AppliedPrefix(state: map<string, Attrs>, ops: seq<Operation>, effect: nat -> bool, j: nat)
    requires j <= |ops| && forall i: nat :: i < |ops| ==> (effect(i) <==> i < j)
    ensures Applied(state, ops, effect) == ApplyAll(ops[..j], state)
  {
    if ops == [] {
      assert ops[..j] == [];
    } else {
      var n := |ops| - 1;
      if j == |ops| {
        AppliedPrefix(state, ops[..n], effect, n);
        assert ops[..j] == ops && ops[..n][..n] == ops[..n];
      } else {
        AppliedPrefix(state, ops[..n], effect, j);
        assert ops[..n][..j] == ops[..j];
      }
    }
  }

  /** Which operations took effect: those whose mutator ran and reported success, and whichever of those that ran and
      reported failure had their effect all the same. */
  ghost predicate TookEffect(events: seq<Executor.Event>, answers: seq<Executor.Answers>, hidden: nat -> bool, i: nat) {
    i < |answers| && Executor.Invoked(i) in events && (answers[i].mutation.Done? || hidden(i))
  }

  /** One call of `ExecuteBatch`: its wiring, the batch, everything that answers it, and which failed mutations had
      their effect all the same. */
  datatype Call = Call(
    cfg: Executor.Config,
    batch: Executor.Batch,
    mutations: seq<Executor.MutationOp>,
    answers: seq<Executor.Answers>,
    hidden: nat -> bool)
  {
    ghost predicate Valid() { |mutations| == |answers| }

    ghost function Outcome(): Executor.Run
      requires Valid()
    {
      Executor.RunBatch(cfg, batch, mutations, answers)
    }

    ghost predicate Effect(i: nat)
      requires Valid()
    {
      TookEffect(Outcome().events, answers, hidden, i)
    }

    /** Where the batch loop stops. */
    ghost function Stop(): (k: nat)
      requires Valid()
      ensures k <= |answers|
    {
      Executor.StopPoint(cfg, mutations, answers, 0)
    }

    /** How many operations take effect. */
    ghost function Done(): (j: nat)
      requires Valid()
      ensures j <= |answers|
    {
      if Executor.Refused(batch) then 0 else if Effect(Stop()) then Stop() + 1 else Stop()
    }
  }

  /** The provider's state after the call, for a batch of the operations `ops`. */
  ghost function Provider(call: Call, ops: seq<Operation>, state: map<string, Attrs>): map<string, Attrs>
    requires call.Valid()
  {
    Applied(state, ops, Effects(call))
  }

  ghost function Effects(call: Call): nat -> bool
    requires call.Valid()
  {
    var events := call.Outcome().events;
    (i: nat) => TookEffect(events, call.answers, call.hidden, i)
  }

  /**
   A batch of planned operations takes the provider to where a prefix of the plan leads: the operations up to the stop
   point, and possibly the one that failed there.  A batch that reports success applies the whole plan.
   */
  lemma {:induction false} BatchAppliesAPrefix(call: Call, ops: seq<Operation>, state: map<string, Attrs>)
    requires call.Valid() && |ops| == |call.answers|
    ensures Provider(call, ops, state) == ApplyAll(ops[..call.Done()], state)
    ensures if Executor.Refused(call.batch) then call.Done() == 0 else call.Stop() <= call.Done() <= call.Stop() + 1
    ensures call.Outcome().ok ==> call.Done() == |ops|
  {
    forall i: nat | i < |ops| ensures Effects(call)(i) <==> i < call.Done() { EffectExactly(call, i); }
    SuccessIsWhole(call);
    AppliedPrefix(state, ops, Effects(call), call.Done());
  }

  lemma {:induction false} SuccessIsWhole(call: Call)
    requires call.Valid()
    ensures call.Outcome().ok <==> !Executor.Refused(call.batch) && call.Stop() == |call.mutations|
  {
    if Executor.Refused(call.batch) {
      Executor.RunBatchCases(call.cfg, call.batch, call.mutations, call.answers);
    } else {
      var k, tail := Executor.BatchShape(call.cfg, call.batch, call.mutations, call.answers);
    }
  }

  lemma {:induction false} InvokedUpToStop(call: Call, i: nat)
    requires call.Valid()
    ensures Executor.Invoked(i) in call.Outcome().events <==>
            && !Executor.Refused(call.batch)
            && Executor.Reaches(call.cfg, call.mutations, call.answers, 0, call.Stop(), i)
  {
    Executor.ExactlyTheseAreInvoked(call.cfg, call.batch, call.mutations, call.answers, i);
  }

  /** An operation before the stop point was invoked and succeeded. */
  lemma {:induction false} BeforeStop(call: Call, i: nat)
    requires call.Valid() && i < call.Stop()
    ensures call.answers[i].mutation.Done?
    ensures Executor.Reaches(call.cfg, call.mutations, call.answers, 0, call.Stop(), i)
  {
    assert Executor.Succeeds(call.cfg, call.mutations[i], call.answers[i]);
  }

  lemma {:induction false} EffectAroundStop(call: Call, i: nat)
    requires call.Valid() && i < |call.answers|
    ensures Executor.Refused(call.batch) || i > call.Stop() ==> !call.Effect(i)
    ensures !Executor.Refused(call.batch) && i < call.Stop() ==> call.Effect(i)
  {
    InvokedUpToStop(call, i);
    if i < call.Stop() { BeforeStop(call, i); }
  }

  lemma {:induction false} DoneAroundStop(call: Call)
    requires call.Valid()
    ensures Executor.Refused(call.batch) ==> call.Done() == 0
    ensures !Executor.Refused(call.batch) ==> call.Done() == call.Stop() + if call.Effect(call.Stop()) then 1 else 0
  {
  }

  lemma {:induction false} EffectExactly(call: Call, i: nat)
    requires call.Valid() && i < |call.answers|
    ensures call.Effect(i) <==> i < call.Done()
  {
    DoneAroundStop(call);
    EffectAroundStop(call, i);
    if i == call.Stop() { assert call.Effect(i) == call.Effect(call.Stop()); }
  }

  // ---------------------------------------------------------------- planning again

  /** `after` is a snapshot of what the first `j` operations left of `current`: same attributes, and objects that were
      there before keep their type. */
  ghost predicate SnapshotAfter(
    current: seq<NormalizedObject>, ops: seq<Operation>, j: nat, after: seq<NormalizedObject>)
    requires j <= |ops|
  {
    && UniqueKeys(after) && AllDecoded(after)
    && AttrsOf(after) == ApplyAll(ops[..j], AttrsOf(current))
    && forall o, c :: o in after && c in current && o.key == c.key ==> o.objectType == c.objectType
  }

  lemma {:induction false} ObjectOf(objects: seq<NormalizedObject>, key: string) returns (o: NormalizedObject)
    requires key in AttrsOf(objects)
    ensures o in objects && o.key == key && AttrsOf(objects)[key] == o.attrs
  {
    AttrsOfKeys(objects, key);
    o :| o in objects && o.key == key && AttrsOf(objects)[key] == o.attrs;
  }

  /** What is planned for a key depends only on the object under that key. */
  lemma {:induction false} PlannedFromKey(
    sha: string -> string, current: seq<NormalizedObject>, after: seq<NormalizedObject>, target: seq<NormalizedObject>,
    op: Operation)
    requires op in Unsorted(sha, current, target)
    requires Lookup(AttrsOf(current), op.target) == Lookup(AttrsOf(after), op.target)
    requires forall o, c :: o in after && c in current && o.key == c.key ==> o.objectType == c.objectType
    ensures op in Unsorted(sha, after, target)
  {
    var o := OriginOf(sha, current, target, op);
    if op.opType == Delete {
      AttrsOfKeys(current, o.key);
      var x := ObjectOf(after, op.target);
      assert DeleteOp(sha, AttrsOf(target))(x) == Some(op);
    } else {
      assert TargetOp(sha, AttrsOf(after))(o) == Some(op);
    }
    PlanMembers(sha, after, target, op);
  }

  /** Where the prefix reached, the state is the target's. */
  lemma {:induction false} PrefixReached(
    sha: string -> string, current: seq<NormalizedObject>, target: seq<NormalizedObject>, ops: seq<Operation>, j: nat,
      i: nat)
    requires KeyFunctional(target) && IsPlan(sha, current, target, ops) && i < j <= |ops|
    ensures Lookup(ApplyAll(ops[..j], AttrsOf(current)), ops[i].target) == Lookup(AttrsOf(target), ops[i].target)
  {
    PlanAgrees(sha, current, target, ops);
    ApplyAllLookup(ops[..j], AttrsOf(current), ops[i].target);
    assert ops[..j][i] == ops[i] && ops[i] in ops[..j] && ops[i] in ops;
  }

  /** Where it did not, the state is unchanged. */
  lemma {:induction false} PrefixMissed(
    sha: string -> string, current: seq<NormalizedObject>, target: seq<NormalizedObject>, ops: seq<Operation>, j: nat,
    key: string)
    requires KeyFunctional(target) && IsPlan(sha, current, target, ops) && j <= |ops|
    requires forall i :: 0 <= i < j ==> ops[i].target != key
    ensures Lookup(ApplyAll(ops[..j], AttrsOf(current)), key) == Lookup(AttrsOf(current), key)
  {
    PlanAgrees(sha, current, target, ops);
    ApplyAllLookup(ops[..j], AttrsOf(current), key);
  }

  /** Every operation that is left is planned again. */
  lemma {:induction false} RestIsPlanned(
    sha: string -> string, current: seq<NormalizedObject>, target: seq<NormalizedObject>, ops: seq<Operation>, j: nat,
    after: seq<NormalizedObject>, op: Operation)
    requires UniqueKeys(current) && UniqueKeys(target) && IsPlan(sha, current, target, ops) && j <= |ops|
    requires SnapshotAfter(current, ops, j, after) && op in ops[j..]
    ensures op in Unsorted(sha, after, target)
  {
    OneOperationPerKey(sha, current, target, ops);
    var i :| 0 <= i < |ops[j..]| && ops[j..][i] == op;
    assert ops[j + i] == op;
    assert forall m :: 0 <= m < j ==> ops[m].target != op.target;
    PrefixMissed(sha, current, target, ops, j, op.target);
    assert op in multiset(ops);
    PlannedFromKey(sha, current, after, target, op);
  }

  /** And nothing else is. */
  lemma {:induction false} NothingElseIsPlanned(
    sha: string -> string, current: seq<NormalizedObject>, target: seq<NormalizedObject>, ops: seq<Operation>, j: nat,
    after: seq<NormalizedObject>, again: seq<Operation>, op: Operation)
    requires UniqueKeys(current) && UniqueKeys(target) && AllDecoded(target) && IsPlan(sha, current, target, ops)
             && j <= |ops|
    requires SnapshotAfter(current, ops, j, after) && IsPlan(sha, after, target, again) && op in again
    ensures op in ops[j..]
  {
    PlanIsMinimal(sha, after, target, again, op.target);
    forall i | 0 <= i < j ensures ops[i].target != op.target { PrefixReached(sha, current, target, ops, j, i); }
    PrefixMissed(sha, current, target, ops, j, op.target);
    assert op in multiset(again);
    PlannedFromKey(sha, after, current, target, op);
    assert op in multiset(ops);
    var i :| 0 <= i < |ops| && ops[i] == op;
    assert i >= j;
    assert ops[j..][i - j] == op;
  }

  lemma {:induction false} SameElements<T>(a: seq<T>, b: seq<T>)
    requires Distinct(a) && Distinct(b) && forall x :: x in a <==> x in b
    ensures multiset(a) == multiset(b)
  {
    DistinctMultiset(a);
    DistinctMultiset(b);
    forall x ensures multiset(a)[x] == multiset(b)[x] {
      assert x in a <==> x in multiset(a);
      assert x in b <==> x in multiset(b);
    }
  }

  lemma {:induction false} SamePlannedSet(
    sha: string -> string, current: seq<NormalizedObject>, target: seq<NormalizedObject>, ops: seq<Operation>, j: nat,
    after: seq<NormalizedObject>, again: seq<Operation>, op: Operation)
    requires UniqueKeys(current) && UniqueKeys(target) && AllDecoded(target) && IsPlan(sha, current, target, ops)
             && j <= |ops|
    requires SnapshotAfter(current, ops, j, after) && IsPlan(sha, after, target, again)
    ensures op in again <==> op in ops[j..]
  {
    if op in ops[j..] {
      RestIsPlanned(sha, current, target, ops, j, after, op);
      assert op in multiset(again);
    }
    if op in again { NothingElseIsPlanned(sha, current, target, ops, j, after, again, op); }
  }

  ghost predicate OnePerTarget(ops: seq<Operation>) {
    forall i, j :: 0 <= i < j < |ops| ==> ops[i].target != ops[j].target
  }

  /** Sorted lists of the same operations, one per target, are the same list. */
  lemma {:induction false} SortedPlansAgree(a: seq<Operation>, b: seq<Operation>)
    requires OnePerTarget(a) && OnePerTarget(b) && SortedBy(OpLess, a) && SortedBy(OpLess, b)
    requires forall op :: op in a <==> op in b
    ensures a == b
  {
    SameElements(a, b);
    forall x, y | x in multiset(a) && y in multiset(a) && !OpLess(x, y) && !OpLess(y, x) ensures x == y {
      OpLessTies(x, y);
      assert x in a && y in a;
    }
    SortUnique(OpLess, a, b);
  }

  /** Planning again after the first `j` operations took effect yields exactly the others, in the same order. */
  lemma {:induction false} ReplanYieldsTheRest(
    sha: string -> string, current: seq<NormalizedObject>, target: seq<NormalizedObject>, ops: seq<Operation>, j: nat,
    after: seq<NormalizedObject>, again: seq<Operation>)
    requires UniqueKeys(current) && UniqueKeys(target) && AllDecoded(target) && IsPlan(sha, current, target, ops)
             && j <= |ops|
    requires SnapshotAfter(current, ops, j, after) && IsPlan(sha, after, target, again)
    ensures again == ops[j..]
  {
    forall op ensures op in again <==> op in ops[j..] {
      SamePlannedSet(sha, current, target, ops, j, after, again, op);
    }
    OneOperationPerKey(sha, current, target, ops);
    OneOperationPerKey(sha, after, target, again);
    SortedPlansAgree(again, ops[j..]);
  }

  // ---------------------------------------------------------------- any sequence of batches

  /** A round: the snapshot it starts from, its plan, and the call that executes it. */
  datatype Round = Round(current: seq<NormalizedObject>, ops: seq<Operation>, call: Call)

  ghost predicate IsRound(sha: string -> string, target: seq<NormalizedObject>, round: Round) {
    && UniqueKeys(round.current) && IsPlan(sha, round.current, target, round.ops)
    && round.call.Valid() && |round.call.answers| == |round.ops|
  }

  /** The next round starts from a snapshot of what the call left at the provider. */
  ghost predicate Follows(round: Round, next: Round) {
    && round.call.Valid() && UniqueKeys(next.current) && AllDecoded(next.current)
    && AttrsOf(next.current) == Provider(round.call, round.ops, AttrsOf(round.current))
    && forall o, c :: o in next.current && c in round.current && o.key == c.key ==> o.objectType == c.objectType
  }

  ghost predicate Rounds(sha: string -> string, target: seq<NormalizedObject>, rounds: seq<Round>) {
    && (forall i :: 0 <= i < |rounds| ==> IsRound(sha, target, rounds[i]))
    && (forall i :: 0 < i < |rounds| ==> Follows(rounds[i - 1], rounds[i]))
  }

  lemma {:induction false} NextRound(sha: string -> string, target: seq<NormalizedObject>, round: Round, next: Round)
    requires UniqueKeys(target) && AllDecoded(target)
    requires IsRound(sha, target, round) && IsRound(sha, target, next) && Follows(round, next)
    ensures LeftBy(round, next)
  {
    BatchAppliesAPrefix(round.call, round.ops, AttrsOf(round.current));
    ReplanYieldsTheRest(sha, round.current, target, round.ops, round.call.Done(), next.current, next.ops);
  }

  /** The operations that took effect in the first `n` rounds. */
  ghost function Progress(rounds: seq<Round>, n: nat): nat
    requires n <= |rounds| && forall i :: 0 <= i < n ==> rounds[i].call.Valid()
  {
    if n == 0 then 0 else Progress(rounds, n - 1) + rounds[n - 1].call.Done()
  }

  /** Each plan is what the round before it left. */
  ghost predicate Chain(rounds: seq<Round>) {
    && (forall n :: 0 <= n < |rounds| ==> Fits(rounds[n]))
    && (forall n :: 0 < n < |rounds| ==> LeftBy(rounds[n - 1], rounds[n]))
  }

  ghost predicate Fits(round: Round) { round.call.Valid() && round.call.Done() <= |round.ops| }

  ghost predicate LeftBy(round: Round, next: Round) { Fits(round) && next.ops == round.ops[round.call.Done()..] }

  lemma {:induction false} RoundsAreAChain(sha: string -> string, target: seq<NormalizedObject>, rounds: seq<Round>)
    requires UniqueKeys(target) && AllDecoded(target) && Rounds(sha, target, rounds)
    ensures Chain(rounds)
  {
    forall n | 0 <= n < |rounds| ensures Fits(rounds[n]) { assert IsRound(sha, target, rounds[n]); }
    forall n | 0 < n < |rounds| ensures LeftBy(rounds[n - 1], rounds[n]) {
      assert IsRound(sha, target, rounds[n - 1]) && IsRound(sha, target, rounds[n]);
      assert Follows(rounds[n - 1], rounds[n]);
      NextRound(sha, target, rounds[n - 1], rounds[n]);
    }
  }

  lemma {:induction false} DropMore<T>(first: seq<T>, p: nat, rest: seq<T>, d: nat, next: seq<T>)
    requires p <= |first| && rest == first[p..] && d <= |rest| && next == rest[d..]
    ensures p + d <= |first| && next == first[p + d..]
  {
  }

  lemma {:induction false} ChainProgress(rounds: seq<Round>, n: nat)
    requires Chain(rounds) && n < |rounds|
    ensures Progress(rounds, n) <= |rounds[0].ops| && rounds[n].ops == rounds[0].ops[Progress(rounds, n)..]
  {
    if n > 0 {
      ChainProgress(rounds, n - 1);
      assert LeftBy(rounds[n - 1], rounds[n]);
      DropMore(rounds[0].ops, Progress(rounds, n - 1), rounds[n - 1].ops, rounds[n - 1].call.Done(), rounds[n].ops);
    }
  }

  /** However the batches fail, round `n` has left of the first plan what the rounds before it did not do. */
  lemma {:induction false} RoundsWorkOffThePlan(
    sha: string -> string, target: seq<NormalizedObject>, rounds: seq<Round>, n: nat)
    requires UniqueKeys(target) && AllDecoded(target) && Rounds(sha, target, rounds) && n < |rounds|
    ensures Chain(rounds)
    ensures Progress(rounds, n) <= |rounds[0].ops| && rounds[n].ops == rounds[0].ops[Progress(rounds, n)..]
  {
    RoundsAreAChain(sha, target, rounds);
    ChainProgress(rounds, n);
  }

  /** A round with nothing to plan starts at the target. */
  lemma {:induction false} EmptyPlanIsAtTarget(sha: string -> string, target: seq<NormalizedObject>, round: Round)
    requires UniqueKeys(target) && AllDecoded(target) && IsRound(sha, target, round) && AllDecoded(round.current)
    requires round.ops == []
    ensures AttrsOf(round.current) == AttrsOf(target)
  {
    PlanConverges(sha, round.current, target, round.ops);
  }

  /** So the rounds converge: once as many operations took effect as the first plan held, there is nothing left to
      plan and the provider is at the target. */
  lemma {:induction false} FailingRoundsConverge(
    sha: string -> string, target: seq<NormalizedObject>, rounds: seq<Round>, n: nat)
    requires UniqueKeys(target) && AllDecoded(target) && Rounds(sha, target, rounds) && n < |rounds|
    requires AllDecoded(rounds[n].current)
    ensures Chain(rounds)
    ensures Progress(rounds, n) >= |rounds[0].ops| ==>
              rounds[n].ops == [] && AttrsOf(rounds[n].current) == AttrsOf(target)
  {
    RoundsWorkOffThePlan(sha, target, rounds, n);
    if rounds[n].ops == [] { EmptyPlanIsAtTarget(sha, target, rounds[n]); }
  }

  /** One batch that reports success is enough, whatever failed before it. */
  lemma {:induction false} OneSuccessConverges(
    sha: string -> string, target: seq<NormalizedObject>, rounds: seq<Round>, n: nat)
    requires UniqueKeys(target) && AllDecoded(target) && Rounds(sha, target, rounds) && n + 1 < |rounds|
    requires rounds[n].call.Valid() && rounds[n].call.Outcome().ok
    ensures rounds[n + 1].ops == [] && AttrsOf(rounds[n + 1].current) == AttrsOf(target)
  {
    RoundsAreAChain(sha, target, rounds);
    var round, next := rounds[n], rounds[n + 1];
    assert IsRound(sha, target, round) && IsRound(sha, target, next) && LeftBy(round, next);
    assert Follows(rounds[n + 1 - 1], rounds[n + 1]);
    BatchAppliesAPrefix(round.call, round.ops, AttrsOf(round.current));
    EmptyPlanIsAtTarget(sha, target, next);
  }

  /** And every operation of the first plan takes effect once: the total never exceeds it. */
  lemma {:induction false} NothingIsDoneTwice(
    sha: string -> string, target: seq<NormalizedObject>, rounds: seq<Round>, n: nat)
    requires UniqueKeys(target) && AllDecoded(target) && Rounds(sha, target, rounds) && 0 < n <= |rounds|
    ensures Chain(rounds) && Progress(rounds, n) <= |rounds[0].ops|
  {
    RoundsWorkOffThePlan(sha, target, rounds, n - 1);
    assert Fits(rounds[n - 1]);
  }
}
