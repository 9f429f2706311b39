/** `LeaseStoreFencingValidator` over interleavings of lease changes and executors. */
module Fencing {
  // The lease table holds one row per (scope, action).  A row expires, is renewed, released, or replaced by an
  // acquisition carrying a token above every token issued for that pair before.

  datatype Lease = Lease(id: string, token: int)

  datatype Slot = Slot(scope: string, action: string)

  /** The coordination fields of a mutation operation. */
  datatype FencedOp = FencedOp(scope: string, leaseId: string, token: int, action: string)

  function SlotOf(op: FencedOp): Slot { Slot(op.scope, if op.action == "" then "reconcile" else op.action) }

  /** A read of the lease table: the call may fail, find nothing, or find a live lease. */
  datatype Lookup = LookupError | NoLease | Active(lease: Lease)

  datatype Verdict = Accepted | MissingScope | MissingMetadata | StoreError | NoActiveLease | StaleToken

  class LeaseStoreFencingValidator {
    var requireFencing: bool

    constructor ()
      ensures !requireFencing
    {
      requireFencing := false;
    }

    method RequireFencing(required: bool)
      modifies this
      ensures requireFencing == required
    {
      requireFencing := required;
    }

    method ValidateMutation(lookup: Lookup, op: FencedOp) returns (verdict: Verdict)
      ensures verdict == Validate(requireFencing, lookup, op)
    {
      if requireFencing {
        if op.scope == "" { return MissingScope; }
        if op.leaseId == "" || op.token == 0 { return MissingMetadata; }
      }
      if op.leaseId == "" && op.token == 0 { return Accepted; }
      if op.scope == "" { return MissingScope; }
      if op.leaseId == "" || op.token == 0 { return MissingMetadata; }
      match lookup
      case LookupError => return StoreError;
      case NoLease => return NoActiveLease;
      case Active(lease) =>
        if lease.id != op.leaseId || lease.token != op.token { return StaleToken; }
        return Accepted;
    }
  }

  function Validate(required: bool, lookup: Lookup, op: FencedOp): Verdict {
    if required && op.scope == "" then MissingScope
    else if required && (op.leaseId == "" || op.token == 0) then MissingMetadata
    else if op.leaseId == "" && op.token == 0 then Accepted
    else if op.scope == "" then MissingScope
    else if op.leaseId == "" || op.token == 0 then MissingMetadata
    else match lookup
         case LookupError => StoreError
         case NoLease => NoActiveLease
         case Active(lease) => if lease == Lease(op.leaseId, op.token) then Accepted else StaleToken
  }

  /** Which operations get through: the holder of the live lease, and, unless fencing is required, those
      that carry no fencing metadata at all. */
  lemma {:induction false} AcceptedExactly(required: bool, lookup: Lookup, op: FencedOp)
    ensures Validate(required, lookup, op) == Accepted <==>
            || (!required && op.leaseId == "" && op.token == 0)
            || (op.scope != "" && op.leaseId != "" && op.token != 0 && lookup == Active(Lease(op.leaseId, op.token)))
  {}

  /** Why the others do not: the first thing missing, a lookup that failed or found nothing, or another lease. */
  lemma {:induction false} RefusedExactly(required: bool, lookup: Lookup, op: FencedOp)
    ensures var verdict := Validate(required, lookup, op);
            var fenced := required || op.leaseId != "" || op.token != 0;
            var complete := op.scope != "" && op.leaseId != "" && op.token != 0;
            && (verdict == MissingScope <==> fenced && op.scope == "")
            && (verdict == MissingMetadata <==> fenced && op.scope != "" && (op.leaseId == "" || op.token == 0))
            && (verdict == StoreError <==> complete && lookup == LookupError)
            && (verdict == NoActiveLease <==> complete && lookup == NoLease)
            && (verdict == StaleToken <==> complete && lookup.Active? && lookup.lease != Lease(op.leaseId, op.token))
  {}

  // ---------------------------------------------------------------- interleavings

  datatype Row = Row(lease: Lease, live: bool)

  /** An accepted mutation, remembered in the order of validation. */
  datatype Grant = Grant(slot: Slot, lease: Lease)

  datatype System = System(rows: map<Slot, Row>, issued: map<Slot, int>, accepted: seq<Grant>, executed: seq<Grant>)

  datatype Step =
    | Acquire(slot: Slot, lease: Lease)
    | Renew(slot: Slot)
    | Expire(slot: Slot)
    | Release(slot: Slot)
    | Check(op: FencedOp, storeFails: bool)   // some executor validates an operation
    | Execute(n: nat)                         // some executor runs an operation it validated earlier

  function Read(s: System, slot: Slot): Lookup {
    if slot in s.rows && s.rows[slot].live then Active(s.rows[slot].lease) else NoLease
  }

  function Ask(s: System, op: FencedOp, storeFails: bool): Lookup {
    if storeFails then LookupError else Read(s, SlotOf(op))
  }

  ghost predicate Legal(s: System, step: Step) {
    match step
    case Acquire(slot, lease) => lease.token != 0 && (slot in s.issued ==> lease.token > s.issued[slot])
    case Execute(n) => n < |s.accepted|
    case _ => true
  }

  ghost function Next(s: System, step: Step): System
    requires Legal(s, step)
  {
    match step
    case Acquire(slot, lease) => s.(rows := s.rows[slot := Row(lease, true)], issued := s.issued[slot := lease.token])
    case Renew(slot) => if slot in s.rows then s.(rows := s.rows[slot := s.rows[slot].(live := true)]) else s
    case Expire(slot) => if slot in s.rows then s.(rows := s.rows[slot := s.rows[slot].(live := false)]) else s
    case Release(slot) => s.(rows := s.rows - {slot})
    case Check(op, storeFails) =>
      if Validate(true, Ask(s, op, storeFails), op) == Accepted
      then s.(accepted := s.accepted + [Grant(SlotOf(op), Lease(op.leaseId, op.token))]) else s
    case Execute(n) => s.(executed := s.executed + [s.accepted[n]])
  }

  /** What a validation in the middle of a run does: it grants the operation its slot, by scope and action with
      "reconcile" for none, exactly when the row of that slot is live and holds the operation's own lease. */
  lemma {:induction false} CheckGrantsExactly(s: System, op: FencedOp, storeFails: bool)
    ensures var slot := Slot(op.scope, if op.action == "" then "reconcile" else op.action);
            var t := Next(s, Check(op, storeFails));
            if !storeFails && op.scope != "" && op.leaseId != "" && op.token != 0
               && slot in s.rows && s.rows[slot] == Row(Lease(op.leaseId, op.token), true)
            then t == s.(accepted := s.accepted + [Grant(slot, Lease(op.leaseId, op.token))])
            else t == s
  {
  }

  ghost predicate LegalRun(s: System, steps: seq<Step>)
    decreases |steps|
  {
    steps == [] || (Legal(s, steps[0]) && LegalRun(Next(s, steps[0]), steps[1..]))
  }

  ghost function Run(s: System, steps: seq<Step>): System
    requires LegalRun(s, steps)
    decreases |steps|
  {
    if steps == [] then s else Run(Next(s, steps[0]), steps[1..])
  }

  ghost const Start := System(map[], map[], [], [])

  /** An accepted token that is still in the table belongs to the lease in the table. */
  ghost predicate AgreesWithRow(s: System, g: Grant) {
    g.slot in s.rows && g.lease.token == s.rows[g.slot].lease.token ==> g.lease == s.rows[g.slot].lease
  }

  /** What every step keeps. */
  ghost predicate Inv(s: System) {
    && (forall slot :: slot in s.rows ==>
          slot in s.issued && s.rows[slot].lease.token == s.issued[slot] && s.rows[slot].lease.token != 0)
    && (forall i :: 0 <= i < |s.accepted| ==>
          s.accepted[i].slot in s.issued && s.accepted[i].lease.token <= s.issued[s.accepted[i].slot])
    && (forall i :: 0 <= i < |s.accepted| ==> AgreesWithRow(s, s.accepted[i]))
    && InOrder(s.accepted)
  }

  /** Per (scope, action), tokens never decrease, and one token means one lease. */
  ghost predicate InOrder(grants: seq<Grant>) {
    forall i, j :: 0 <= i < j < |grants| && grants[i].slot == grants[j].slot ==>
      grants[i].lease.token <= grants[j].lease.token
      && (grants[i].lease.token == grants[j].lease.token ==> grants[i].lease == grants[j].lease)
  }

  lemma {:induction false} StepKeepsInv(s: System, step: Step)
    requires Inv(s) && Legal(s, step)
    ensures Inv(Next(s, step))
  {
    var t := Next(s, step);
    match step
    case Acquire(slot, lease) =>
      assert forall i :: 0 <= i < |s.accepted| && s.accepted[i].slot == slot ==>
        s.accepted[i].lease.token < lease.token;
    case Check(op, storeFails) =>
      AcceptedExactly(true, Ask(s, op, storeFails), op);
    case _ =>
  }

  lemma {:induction false} RunKeepsInv(s: System, steps: seq<Step>)
    requires Inv(s) && LegalRun(s, steps)
    ensures Inv(Run(s, steps))
    ensures forall slot :: slot in s.issued ==>
              slot in Run(s, steps).issued && s.issued[slot] <= Run(s, steps).issued[slot]
    decreases |steps|
  {
    if steps != [] {
      StepKeepsInv(s, steps[0]);
      RunKeepsInv(Next(s, steps[0]), steps[1..]);
    }
  }

  /** In every interleaving the tokens of accepted mutations, in order of validation, never decrease. */
  lemma {:induction false} AcceptedTokensNeverDecrease(steps: seq<Step>)
    requires LegalRun(Start, steps)
    ensures InOrder(Run(Start, steps).accepted)
  {
    RunKeepsInv(Start, steps);
  }

  lemma {:induction false} RunSplits(s: System, a: seq<Step>, b: seq<Step>)
    requires LegalRun(s, a + b)
    ensures LegalRun(s, a) && LegalRun(Run(s, a), b) && Run(s, a + b) == Run(Run(s, a), b)
    decreases |a|
  {
    if a == [] {
      assert a + b == b;
    } else {
      assert (a + b)[1..] == a[1..] + b && (a + b)[0] == a[0];
      RunSplits(Next(s, a[0]), a[1..], b);
    }
  }

  /** Once a newer lease was acquired, an operation carrying an older token is refused at every later point. */
  lemma {:induction false} SupersededIsRefused(
    before: seq<Step>, slot: Slot, lease: Lease, after: seq<Step>, op: FencedOp, storeFails: bool)
    requires LegalRun(Start, before + [Acquire(slot, lease)] + after)
    requires SlotOf(op) == slot && op.token < lease.token
    ensures Validate(true, Ask(Run(Start, before + [Acquire(slot, lease)] + after), op, storeFails), op) != Accepted
  {
    var acquired := before + [Acquire(slot, lease)];
    RunSplits(Start, acquired, after);
    RunSplits(Start, before, [Acquire(slot, lease)]);
    RunKeepsInv(Start, acquired);
    RunKeepsInv(Run(Start, acquired), after);
    var mid := Run(Start, before);
    assert [Acquire(slot, lease)][1..] == [];
    assert Run(mid, [Acquire(slot, lease)]) == Next(mid, Acquire(slot, lease));
    AcceptedExactly(true, Ask(Run(Run(Start, acquired), after), op, storeFails), op);
  }

  /** The order is that of validation only: an executor that pauses between its check and the mutation
      can act after a newer lease holder did. */
  lemma {:induction false} ExecutionOrderCanDecrease() returns (steps: seq<Step>)
    ensures LegalRun(Start, steps)
    ensures InOrder(Run(Start, steps).accepted) && !InOrder(Run(Start, steps).executed)
  {
    var slot := Slot("zone", "reconcile");
    var s0 := Start;
    var s1 := Next(s0, Acquire(slot, Lease("a", 1)));
    var s2 := Next(s1, Check(FencedOp("zone", "a", 1, ""), false));
    assert s2.accepted == [Grant(slot, Lease("a", 1))];
    var s3 := Next(s2, Acquire(slot, Lease("b", 2)));
    var s4 := Next(s3, Check(FencedOp("zone", "b", 2, ""), false));
    assert s4.accepted == [Grant(slot, Lease("a", 1)), Grant(slot, Lease("b", 2))];
    var s5 := Next(s4, Execute(1));
    var s6 := Next(s5, Execute(0));
    assert s6.executed == [Grant(slot, Lease("b", 2)), Grant(slot, Lease("a", 1))];
    assert s6.executed[0].lease.token > s6.executed[1].lease.token;
    var t5 := [Execute(0)];
    var t4 := [Execute(1)] + t5;
    var t3 := [Check(FencedOp("zone", "b", 2, ""), false)] + t4;
    var t2 := [Acquire(slot, Lease("b", 2))] + t3;
    var t1 := [Check(FencedOp("zone", "a", 1, ""), false)] + t2;
    steps := [Acquire(slot, Lease("a", 1))] + t1;
    assert steps[1..] == t1 && t1[1..] == t2 && t2[1..] == t3 && t3[1..] == t4 && t4[1..] == t5 && t5[1..] == [];
    assert LegalRun(s6, []) && LegalRun(s5, t5) && LegalRun(s4, t4);
    assert LegalRun(s3, t3) && LegalRun(s2, t2) && LegalRun(s1, t1);
    assert Run(s5, t5) == s6 && Run(s4, t4) == s6 && Run(s3, t3) == s6 && Run(s2, t2) == s6 && Run(s1, t1) == s6;
    AcceptedTokensNeverDecrease(steps);
  }

  // ---------------------------------------------------------------- when executions are in order

  /** Every execution happens while the lease of its grant is still the newest issued for its slot. */
  ghost predicate PromptRun(s: System, steps: seq<Step>)
    requires LegalRun(s, steps)
    decreases |steps|
  {
    steps == [] || (Prompt(s, steps[0]) && PromptRun(Next(s, steps[0]), steps[1..]))
  }

  ghost predicate Prompt(s: System, step: Step)
    requires Legal(s, step)
  {
    step.Execute? ==>
      var g := s.accepted[step.n]; g.slot in s.issued && g.lease.token == s.issued[g.slot]
  }

  /** What prompt steps keep: what was executed had been accepted, and in order. */
  ghost predicate ExecutedInv(s: System) {
    Inv(s) && (forall g :: g in s.executed ==> g in s.accepted) && InOrder(s.executed)
  }

  /** Two accepted grants of one slot with one token are the same grant. */
  lemma {:induction false} OneTokenOneGrant(s: System, g: Grant, h: Grant)
    requires Inv(s) && g in s.accepted && h in s.accepted && g.slot == h.slot && g.lease.token == h.lease.token
    ensures g == h
  {
    var i :| 0 <= i < |s.accepted| && s.accepted[i] == g;
    var j :| 0 <= j < |s.accepted| && s.accepted[j] == h;
  }

  /** One more execution keeps the order if and only if no newer token of its slot was executed before. */
  lemma {:induction false} ExecuteKeepsOrderExactly(s: System, n: nat)
    requires ExecutedInv(s) && n < |s.accepted|
    ensures InOrder(Next(s, Execute(n)).executed) <==>
            forall g :: g in s.executed && g.slot == s.accepted[n].slot ==> g.lease.token <= s.accepted[n].lease.token
  {
    var g, t := s.accepted[n], Next(s, Execute(n));
    var m := |s.executed|;
    assert t.executed[m] == g && forall i :: 0 <= i < m ==> t.executed[i] == s.executed[i];
    if forall h :: h in s.executed && h.slot == g.slot ==> h.lease.token <= g.lease.token {
      forall i | 0 <= i < m && s.executed[i].slot == g.slot && s.executed[i].lease.token == g.lease.token
        ensures s.executed[i] == g
      {
        OneTokenOneGrant(s, s.executed[i], g);
      }
    }
  }

  lemma {:induction false} PromptStepKeepsOrder(s: System, step: Step)
    requires ExecutedInv(s) && Legal(s, step) && Prompt(s, step)
    ensures ExecutedInv(Next(s, step))
  {
    StepKeepsInv(s, step);
    if step.Execute? {
      ExecuteKeepsOrderExactly(s, step.n);
      assert forall g :: g in s.executed ==> g in s.accepted;
    }
  }

  lemma {:induction false} PromptRunKeepsOrder(s: System, steps: seq<Step>)
    requires ExecutedInv(s) && LegalRun(s, steps) && PromptRun(s, steps)
    ensures ExecutedInv(Run(s, steps))
    decreases |steps|
  {
    if steps != [] {
      PromptStepKeepsOrder(s, steps[0]);
      PromptRunKeepsOrder(Next(s, steps[0]), steps[1..]);
    }
  }

  /** If every execution comes before the next acquisition for its slot, executed tokens never decrease, in every
      interleaving. */
  lemma {:induction false} PromptExecutionIsInOrder(steps: seq<Step>)
    requires LegalRun(Start, steps) && PromptRun(Start, steps)
    ensures InOrder(Run(Start, steps).executed)
  {
    PromptRunKeepsOrder(Start, steps);
  }

  lemma {:induction false} ThreeSteps(s: System, a: Step, b: Step, c: Step)
    requires Legal(s, a) && Legal(Next(s, a), b) && Legal(Next(Next(s, a), b), c)
    ensures LegalRun(s, [a, b, c]) && Run(s, [a, b, c]) == Next(Next(Next(s, a), b), c)
  {
    var s1 := Next(s, a);
    var s2 := Next(s1, b);
    var s3 := Next(s2, c);
    assert LegalRun(s3, []) && LegalRun(s2, [c]) && LegalRun(s1, [b, c]);
    assert Run(s2, [c]) == s3 && Run(s1, [b, c]) == s3;
  }

  /** Slots of accepted grants can be named by an operation. */
  ghost predicate Nameable(slot: Slot) { slot.scope != "" && slot.action != "" }

  lemma {:induction false} AcceptedIsNameable(s: System, steps: seq<Step>, g: Grant)
    requires LegalRun(s, steps) && (forall h :: h in s.accepted ==> Nameable(h.slot)) && g in Run(s, steps).accepted
    ensures Nameable(g.slot)
    decreases |steps|
  {
    if steps != [] {
      if steps[0].Check? { AcceptedExactly(true, Ask(s, steps[0].op, steps[0].storeFails), steps[0].op); }
      AcceptedIsNameable(Next(s, steps[0]), steps[1..], g);
    }
  }

  /** And only then: from any reachable state in which a pending grant is older than the live lease of its slot, three
      more steps (the lease holder validates and executes, the pending executor wakes up) put executions out of order.
      */
  lemma {:induction false} LateExecutionCanBeOutOfOrder(steps: seq<Step>, n: nat) returns (later: seq<Step>)
    requires LegalRun(Start, steps) && n < |Run(Start, steps).accepted|
    requires var s := Run(Start, steps); var g := s.accepted[n];
             && g.slot in s.rows && s.rows[g.slot].live && s.rows[g.slot].lease.id != ""
             && g.lease.token < s.rows[g.slot].lease.token
    ensures LegalRun(Run(Start, steps), later) && !InOrder(Run(Run(Start, steps), later).executed)
    ensures |later| > 0 && later[|later| - 1] == Execute(n)
  {
    var s := Run(Start, steps);
    RunKeepsInv(Start, steps);
    AcceptedIsNameable(Start, steps, s.accepted[n]);
    later := OutOfOrder(s, n);
  }

  lemma {:induction false} OutOfOrder(s: System, n: nat) returns (later: seq<Step>)
    requires Inv(s) && n < |s.accepted| && Nameable(s.accepted[n].slot)
    requires var g := s.accepted[n];
             && g.slot in s.rows && s.rows[g.slot].live && s.rows[g.slot].lease.id != ""
             && g.lease.token < s.rows[g.slot].lease.token
    ensures LegalRun(s, later) && |later| > 0 && !InOrder(Run(s, later).executed) && later[|later| - 1] == Execute(n)
  {
    var g, m := s.accepted[n], |s.accepted|;
    var lease := s.rows[g.slot].lease;
    var check := Check(FencedOp(g.slot.scope, lease.id, lease.token, g.slot.action), false);
    var s1 := Next(s, check);
    assert s1.accepted == s.accepted + [Grant(g.slot, lease)];
    later := [check, Execute(m), Execute(n)];
    ThreeSteps(s, check, Execute(m), Execute(n));
    var s2 := Next(s1, Execute(m));
    var s3 := Next(s2, Execute(n));
    var k := |s.executed|;
    assert s1.accepted[m] == Grant(g.slot, lease) && s1.accepted[n] == g;
    assert s2.executed == s.executed + [Grant(g.slot, lease)];
    assert s3.executed == s2.executed + [g];
    assert s3.executed[k] == Grant(g.slot, lease) && s3.executed[k + 1] == g;
    assert Run(s, later) == s3;
  }
}
