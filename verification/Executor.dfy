/** `GovernedExecutor.ExecuteBatch` and `executeSingle`: gates, journal and circuit breaker. */
module Executor {
  import opened Orders

  // Everything the executor asks of its surroundings (context, clock, guard, fencing, mutator, journal) is read
  // from one `Answers` record per operation, so "for every run" is "for every sequence of answers".  Times are
  // integers; 0 is Go's zero time.

  datatype OpState = Planned | Validating | Executing | Completed | Failed | Quarantined | AwaitingApproval

  datatype ApprovalStatus = Unset | Pending | Approved | Rejected | Expired

  datatype Approval = Approval(required: bool, status: ApprovalStatus, expiresAt: int)

  datatype MutationOp = MutationOp(
    resourceType: string,
    approval: Approval,
    state: OpState,
    error: string,
    resultId: string,
    startedAt: int,
    finishedAt: int)

  datatype Ownership = ExternallyOwned | OwnedHere

  /** How the executor is wired: mutators by resource type, the ownership registry, optional guards, and
      whether approval evidence is kept. */
  datatype Config = Config(
    mutators: set<string>, registry: map<string, Ownership>, guarded: bool, fenced: bool, evidence: bool)

  datatype GuardAnswer = Allow | Deny(reason: string) | GuardError

  datatype MutationAnswer = Done(resultId: string) | Broke(error: string)

  datatype Answers = Answers(
    cancelledBefore: bool,     // context state at the top of the batch loop
    checkedAt: int,            // clock when the operation's approval is checked
    guard: GuardAnswer,
    fenceError: Option<string>,
    startedAt: int,
    stores: Status -> bool,    // which appends of the operation's records the journal keeps; its errors are discarded
    cancelledMid: bool,        // context state just before the mutator
    cancelError: string,       // what the context says then
    mutation: MutationAnswer,
    finishedAt: int,
    cancelledAfter: bool)      // context state, or a lost lease, after a failed mutation

  datatype Block = Denied | ApprovalExpired | Awaiting

  /** The events `recordApprovalEvidence` appends. */
  datatype EvidenceKind = ApprovalRequired | ApprovalGranted | ApprovalBlocked(block: Block)

  datatype Status = ExecutingRec | CompletedRec | FailedRec | QuarantinedRec | AwaitingRec | StaleTokenRec | AbortedRec

  /** What an observer of the run sees, in order.  Operations are named by batch position. */
  datatype Event =
    | BreakerAsked(allowed: bool)
    | BatchApprovalChecked(blocked: Option<Block>)
    | OpApprovalChecked(i: nat, blocked: Option<Block>)
    | Evidence(at: Option<nat>, kind: EvidenceKind)
    | GuardAsked(i: nat, answer: GuardAnswer)
    | OwnershipChecked(i: nat, valid: bool)
    | FenceChecked(i: nat, passed: bool)
    | Journal(at: Option<nat>, status: Status, stored: bool)
    | Invoked(i: nat)
    | BreakerTold(success: bool)

  /** `batchApprovalBlock` and `operationApprovalBlock`, which branch alike. */
  function ApprovalBlock(a: Approval, now: int): Option<Block> {
    if !a.required then None
    else if a.status == Rejected then Some(Denied)
    else if a.status == Approved then
      if a.expiresAt != 0 && now > a.expiresAt then Some(ApprovalExpired) else None
    else Some(Awaiting)
  }

  function BlockReason(b: Block): string {
    match b
    case Denied => "operation approval denied before execution"
    case ApprovalExpired => "operation approval expired before execution"
    case Awaiting => "approval required before execution"
  }

  /** `OwnershipValidator.Validate`. */
  predicate OwnershipValid(registry: map<string, Ownership>, resourceType: string) {
    resourceType in registry && registry[resourceType] != ExternallyOwned
  }

  // ---------------------------------------------------------------- one operation

  /** Everything before the operation is marked executing: the questions asked, and, when one of
      them stops the operation, the record journalled for it (if any) and the operation's new value. */
  datatype Gates = Pass(asked: seq<Event>) | Stop(asked: seq<Event>, record: Option<Status>, op: MutationOp)

  /** The evidence an approval check leaves: what was required and why it blocked, or that it was granted. */
  function ApprovalEvidence(cfg: Config, at: Option<nat>, approval: Approval, blocked: Option<Block>): seq<Event> {
    if !cfg.evidence || !approval.required then []
    else
      match blocked
      case Some(block) => [Evidence(at, ApprovalRequired), Evidence(at, ApprovalBlocked(block))]
      case None => [Evidence(at, ApprovalGranted)]
  }

  function OpChecked(cfg: Config, op: MutationOp, i: nat, a: Answers): seq<Event> {
    var blocked := ApprovalBlock(op.approval, a.checkedAt);
    [OpApprovalChecked(i, blocked)] + ApprovalEvidence(cfg, Some(i), op.approval, blocked)
  }

  /** The first two gates, approval and guard, of an operation some mutator handles. */
  function Admission(cfg: Config, op: MutationOp, i: nat, a: Answers): Gates {
    var blocked := ApprovalBlock(op.approval, a.checkedAt);
    var checked := OpChecked(cfg, op, i, a);
    if op.resourceType !in cfg.mutators then Stop([], None, op)
    else if blocked.Some? then
      Stop(checked, Some(AwaitingRec), op.(state := AwaitingApproval, error := BlockReason(blocked.value)))
    else if !cfg.guarded then Pass(checked)
    else
      var asked := checked + [GuardAsked(i, a.guard)];
      match a.guard
      case GuardError => Stop(asked, None, op.(state := Validating))
      case Deny(reason) => Stop(asked, Some(QuarantinedRec), op.(state := Quarantined, error := reason))
      case Allow => Pass(asked)
  }

  /** The last two, ownership and fencing, of an admitted operation. */
  function Clearance(cfg: Config, op: MutationOp, i: nat, a: Answers): Gates {
    if !OwnershipValid(cfg.registry, op.resourceType) then
      Stop([OwnershipChecked(i, false)], None, op.(state := Quarantined))
    else if !cfg.fenced then Pass([OwnershipChecked(i, true)])
    else if a.fenceError.Some? then
      Stop([OwnershipChecked(i, true), FenceChecked(i, false)], Some(StaleTokenRec),
           op.(state := Quarantined, error := a.fenceError.value))
    else Pass([OwnershipChecked(i, true), FenceChecked(i, true)])
  }

  function Preceded(asked: seq<Event>, g: Gates): Gates { g.(asked := asked + g.asked) }

  function CheckGates(cfg: Config, op: MutationOp, i: nat, a: Answers): Gates {
    var first := Admission(cfg, op, i, a);
    if first.Stop? then first else Preceded(first.asked, Clearance(cfg, op.(state := Validating), i, a))
  }

  /** What follows the executing record. */
  function Attempt(i: nat, a: Answers): seq<Event> {
    if a.cancelledMid then [Journal(Some(i), AbortedRec, a.stores(AbortedRec))]
    else if a.mutation.Done? then [Invoked(i), Journal(Some(i), CompletedRec, a.stores(CompletedRec))]
    else if a.cancelledAfter then [Invoked(i), Journal(Some(i), AbortedRec, a.stores(AbortedRec)),
      Journal(Some(i), FailedRec, a.stores(FailedRec))]
    else [Invoked(i), Journal(Some(i), FailedRec, a.stores(FailedRec))]
  }

  function AfterAttempt(op: MutationOp, a: Answers): MutationOp {
    var started := op.(state := Executing, startedAt := a.startedAt);
    if a.cancelledMid then started.(state := Failed, error := a.cancelError)
    else
      match a.mutation
      case Broke(error) => started.(finishedAt := a.finishedAt, state := Failed, error := error)
      case Done(resultId) => started.(finishedAt := a.finishedAt, state := Completed, resultId := resultId)
  }

  datatype Step = Step(events: seq<Event>, op: MutationOp, ok: bool)

  /** `executeSingle` as a function of its answers. */
  function Single(cfg: Config, op: MutationOp, i: nat, a: Answers): Step {
    match CheckGates(cfg, op, i, a)
    case Stop(asked, record, op') =>
      Step(asked + (if record.Some? then [Journal(Some(i), record.value, a.stores(record.value))] else []), op', false)
    case Pass(asked) =>
      Step(asked + [Journal(Some(i), ExecutingRec, a.stores(ExecutingRec))] + Attempt(i, a),
           AfterAttempt(op, a), !a.cancelledMid && a.mutation.Done?)
  }

  // ---------------------------------------------------------------- a batch

  datatype Run = Run(events: seq<Event>, ops: seq<MutationOp>, ok: bool)

  function Prefixed(events: seq<Event>, run: Run): Run { run.(events := events + run.events) }

  /** The batch loop from position `i` on. */
  function RunFrom(cfg: Config, ops: seq<MutationOp>, answers: seq<Answers>, i: nat): (r: Run)
    requires i <= |ops| == |answers|
    ensures |r.ops| == |ops|
    decreases |ops| - i
  {
    if i == |ops| then Run([BreakerTold(true)], ops, true)
    else if answers[i].cancelledBefore then
      Run([BreakerTold(false), Journal(None, AbortedRec, answers[i].stores(AbortedRec))], ops, false)
    else
      var step := Single(cfg, ops[i], i, answers[i]);
      var ops' := ops[i := step.op];
      if !step.ok then Run(step.events + [BreakerTold(false)], ops', false)
      else
        Prefixed(step.events, RunFrom(cfg, ops', answers, i + 1))
  }

  datatype Batch = Batch(approval: Approval, allowed: bool, now: int)

  /** `ExecuteBatch`: breaker, batch approval, then the loop. */
  function RunBatch(cfg: Config, batch: Batch, ops: seq<MutationOp>, answers: seq<Answers>): (r: Run)
    requires |ops| == |answers|
    ensures |r.ops| == |ops|
  {
    var blocked := ApprovalBlock(batch.approval, batch.now);
    if !batch.allowed then Run([BreakerAsked(false)], ops, false)
    else if blocked.Some? then Run(BatchChecked(cfg, batch), ops, false)
    else Prefixed(BatchChecked(cfg, batch), RunFrom(cfg, ops, answers, 0))
  }

  /** What the batch level asks once the breaker allows the batch. */
  function BatchChecked(cfg: Config, batch: Batch): seq<Event> {
    var blocked := ApprovalBlock(batch.approval, batch.now);
    [BreakerAsked(true), BatchApprovalChecked(blocked)] + ApprovalEvidence(cfg, None, batch.approval, blocked)
  }

  // ---------------------------------------------------------------- an independent account of success

  ghost predicate Granted(a: Approval, now: int) {
    !a.required || (a.status == Approved && (a.expiresAt == 0 || now <= a.expiresAt))
  }

  lemma {:induction false} BlockMeansNotGranted(a: Approval, now: int)
    ensures ApprovalBlock(a, now).None? <==> Granted(a, now)
  {}

  /** Every gate in front of the mutator is open. */
  ghost predicate GatesOpen(cfg: Config, op: MutationOp, a: Answers) {
    && op.resourceType in cfg.mutators
    && Granted(op.approval, a.checkedAt)
    && (cfg.guarded ==> a.guard == Allow)
    && OwnershipValid(cfg.registry, op.resourceType)
    && (cfg.fenced ==> a.fenceError.None?)
  }

  ghost predicate Invokes(cfg: Config, op: MutationOp, a: Answers) { GatesOpen(cfg, op, a) && !a.cancelledMid }

  ghost predicate Succeeds(cfg: Config, op: MutationOp, a: Answers) { Invokes(cfg, op, a) && a.mutation.Done? }

  /** The first `k` operations complete and the next one, if any, does not. */
  ghost predicate StopsAt(cfg: Config, ops: seq<MutationOp>, answers: seq<Answers>, from: nat, k: nat)
    requires |ops| == |answers|
  {
    && from <= k <= |ops|
    && (forall j :: from <= j < k ==> !answers[j].cancelledBefore && Succeeds(cfg, ops[j], answers[j]))
    && (k < |ops| ==> answers[k].cancelledBefore || !Succeeds(cfg, ops[k], answers[k]))
  }

  ghost function StopPoint(cfg: Config, ops: seq<MutationOp>, answers: seq<Answers>, from: nat): (k: nat)
    requires from <= |ops| == |answers|
    ensures StopsAt(cfg, ops, answers, from, k)
    decreases |ops| - from
  {
    if from < |ops| && !answers[from].cancelledBefore && Succeeds(cfg, ops[from], answers[from])
    then StopPoint(cfg, ops, answers, from + 1) else from
  }

  // ---------------------------------------------------------------- an independent account of every outcome

  ghost predicate Denies(cfg: Config, a: Answers) { cfg.guarded && a.guard.Deny? }

  ghost predicate GuardFails(cfg: Config, a: Answers) { cfg.guarded && a.guard == GuardError }

  ghost predicate Foreign(cfg: Config, op: MutationOp) {
    op.resourceType !in cfg.registry || cfg.registry[op.resourceType] == ExternallyOwned
  }

  /** What an operation is after its turn: the first obstacle on its way decides. */
  ghost function Settled(cfg: Config, op: MutationOp, a: Answers): MutationOp {
    if op.resourceType !in cfg.mutators then op
    else if !Granted(op.approval, a.checkedAt) then
      op.(state := AwaitingApproval,
          error := if op.approval.status == Rejected then "operation approval denied before execution"
                   else if op.approval.status == Approved then "operation approval expired before execution"
                   else "approval required before execution")
    else if GuardFails(cfg, a) then op.(state := Validating)
    else if Denies(cfg, a) then op.(state := Quarantined, error := a.guard.reason)
    else if Foreign(cfg, op) then op.(state := Quarantined)
    else if cfg.fenced && a.fenceError.Some? then op.(state := Quarantined, error := a.fenceError.value)
    else if a.cancelledMid then op.(state := Failed, error := a.cancelError, startedAt := a.startedAt)
    else if a.mutation.Broke? then
      op.(state := Failed, error := a.mutation.error, startedAt := a.startedAt, finishedAt := a.finishedAt)
    else
      op.(state := Completed, resultId := a.mutation.resultId, startedAt := a.startedAt, finishedAt := a.finishedAt)
  }

  /** What its turn appends to the journal. */
  ghost function Journalled(cfg: Config, op: MutationOp, i: nat, a: Answers): seq<Record> {
    var at := Some(i);
    if op.resourceType !in cfg.mutators then []
    else if !Granted(op.approval, a.checkedAt) then [Record(at, AwaitingRec)]
    else if GuardFails(cfg, a) then []
    else if Denies(cfg, a) then [Record(at, QuarantinedRec)]
    else if Foreign(cfg, op) then []
    else if cfg.fenced && a.fenceError.Some? then [Record(at, StaleTokenRec)]
    else if a.cancelledMid then [Record(at, ExecutingRec), Record(at, AbortedRec)]
    else if a.mutation.Done? then [Record(at, ExecutingRec), Record(at, CompletedRec)]
    else if a.cancelledAfter then [Record(at, ExecutingRec), Record(at, AbortedRec), Record(at, FailedRec)]
    else [Record(at, ExecutingRec), Record(at, FailedRec)]
  }

  /** What a batch that stops at `k` appends there. */
  ghost function TailAt(cfg: Config, ops: seq<MutationOp>, answers: seq<Answers>, k: nat): seq<Record>
    requires k <= |ops| == |answers|
  {
    if k == |ops| then []
    else if answers[k].cancelledBefore then [Record(None, AbortedRec)]
    else Journalled(cfg, ops[k], k, answers[k])
  }

  /** The evidence due for an approval checked at a time. */
  ghost function DueEvidence(cfg: Config, at: Option<nat>, approval: Approval, now: int): seq<Event> {
    if !cfg.evidence || !approval.required then []
    else if Granted(approval, now) then [Evidence(at, ApprovalGranted)]
    else
      [Evidence(at, ApprovalRequired),
       Evidence(at, ApprovalBlocked(if approval.status == Rejected then Denied
                                    else if approval.status == Approved then ApprovalExpired else Awaiting))]
  }

  lemma {:induction false} EvidenceIsDue(cfg: Config, at: Option<nat>, approval: Approval, now: int)
    ensures ApprovalEvidence(cfg, at, approval, ApprovalBlock(approval, now)) == DueEvidence(cfg, at, approval, now)
  {
  }

  // ---------------------------------------------------------------- journal projection

  datatype Record = Record(at: Option<nat>, status: Status)

  ghost function JournalOf(events: seq<Event>): seq<Record> {
    if events == [] then []
    else JournalOf(events[..|events| - 1]) + RecordOf(events[|events| - 1])
  }

  ghost function RecordOf(e: Event): seq<Record> { if e.Journal? then [Record(e.at, e.status)] else [] }

  lemma {:induction false} JournalAppend(a: seq<Event>, b: seq<Event>)
    ensures JournalOf(a + b) == JournalOf(a) + JournalOf(b)
    decreases |b|
  {
    if b == [] {
      assert a + b == a;
    } else {
      assert (a + b)[..|a + b| - 1] == a + b[..|b| - 1];
      JournalAppend(a, b[..|b| - 1]);
    }
  }

  /** The (executing, completed) pairs of `count` operations starting at `from`. */
  ghost function Pairs(from: nat, count: nat): seq<Record>
    decreases count
  {
    if count == 0 then []
    else [Record(Some(from), ExecutingRec), Record(Some(from), CompletedRec)] + Pairs(from + 1, count - 1)
  }

  /** The ways a journal can end at an operation that did not complete. */
  ghost predicate FailingTail(tail: seq<Record>, k: nat) {
    var at := Some(k);
    || tail == []                                                    // no mutator, guard error, ownership
    || tail == [Record(None, AbortedRec)]                            // cancelled before the operation
    || tail == [Record(at, AwaitingRec)]
    || tail == [Record(at, QuarantinedRec)]
    || tail == [Record(at, StaleTokenRec)]
    || tail == [Record(at, ExecutingRec), Record(at, AbortedRec)]
    || tail == [Record(at, ExecutingRec), Record(at, FailedRec)]
    || tail == [Record(at, ExecutingRec), Record(at, AbortedRec), Record(at, FailedRec)]
  }

  // ---------------------------------------------------------------- one operation, proved

  ghost predicate NoJournal(events: seq<Event>) { forall e :: e in events ==> !e.Journal? }

  /** Events that only the batch level emits. */
  ghost predicate BatchLevel(e: Event) {
    e.BreakerAsked? || e.BatchApprovalChecked? || e.BreakerTold? || (e.Evidence? && e.at.None?)
  }

  lemma {:induction false} NoJournalNoRecords(events: seq<Event>)
    requires NoJournal(events)
    ensures JournalOf(events) == []
  {
    if events != [] { NoJournalNoRecords(events[..|events| - 1]); }
  }

  lemma {:induction false} JournalSnoc(events: seq<Event>, e: Event)
    ensures JournalOf(events + [e]) == JournalOf(events) + RecordOf(e)
  {
    assert (events + [e])[..|events|] == events;
  }

  ghost predicate Question(e: Event) { !e.Journal? && !e.Invoked? && !BatchLevel(e) }

  lemma {:induction false} AdmissionOnlyAsks(cfg: Config, op: MutationOp, i: nat, a: Answers)
    ensures forall e :: e in Admission(cfg, op, i, a).asked ==> Question(e)
  {
    AdmissionAsks(cfg, op, i, a);
    var evidence := ApprovalEvidence(cfg, Some(i), op.approval, ApprovalBlock(op.approval, a.checkedAt));
    assert forall e :: e in evidence ==> Question(e);
    assert forall e :: e in OpChecked(cfg, op, i, a) ==> Question(e);
  }

  lemma {:induction false} ClearanceOnlyAsks(cfg: Config, op: MutationOp, i: nat, a: Answers)
    ensures forall e :: e in Clearance(cfg, op, i, a).asked ==> Question(e)
  {
  }

  /** The gates only ask. */
  lemma {:induction false} GatesOnlyAsk(cfg: Config, op: MutationOp, i: nat, a: Answers)
    ensures forall e :: e in CheckGates(cfg, op, i, a).asked ==> Question(e)
  {
    AdmissionOnlyAsks(cfg, op, i, a);
    ClearanceOnlyAsks(cfg, op.(state := Validating), i, a);
  }

  ghost function AttemptRecords(i: nat, a: Answers): seq<Record> {
    var at := Some(i);
    if a.cancelledMid then [Record(at, AbortedRec)]
    else if a.mutation.Done? then [Record(at, CompletedRec)]
    else if a.cancelledAfter then [Record(at, AbortedRec), Record(at, FailedRec)]
    else [Record(at, FailedRec)]
  }

  lemma {:induction false} AttemptJournal(i: nat, a: Answers)
    ensures JournalOf(Attempt(i, a)) == AttemptRecords(i, a)
  {
    var events := Attempt(i, a);
    var n := |events|;
    assert events[..0] == [] && JournalOf(events[..0]) == [];
    assert events[..1] == [] + [events[0]];
    JournalSnoc([], events[0]);
    if n >= 2 {
      assert events[..2] == events[..1] + [events[1]];
      JournalSnoc(events[..1], events[1]);
    }
    if n == 3 {
      assert events[..3] == events[..2] + [events[2]];
      JournalSnoc(events[..2], events[2]);
    }
    assert events[..n] == events;
  }

  lemma {:induction false} PassedJournal(asked: seq<Event>, i: nat, a: Answers)
    requires NoJournal(asked)
    ensures JournalOf(asked + [Journal(Some(i), ExecutingRec, a.stores(ExecutingRec))] + Attempt(i, a))
            == [Record(Some(i), ExecutingRec)] + AttemptRecords(i, a)
  {
    NoJournalNoRecords(asked);
    JournalSnoc(asked, Journal(Some(i), ExecutingRec, a.stores(ExecutingRec)));
    AttemptJournal(i, a);
    JournalAppend(asked + [Journal(Some(i), ExecutingRec, a.stores(ExecutingRec))], Attempt(i, a));
  }

  lemma {:induction false} StoppedJournal(asked: seq<Event>, i: nat, record: Option<Status>, stored: bool)
    requires NoJournal(asked)
    ensures JournalOf(asked + if record.Some? then [Journal(Some(i), record.value, stored)] else [])
            == if record.Some? then [Record(Some(i), record.value)] else []
  {
    NoJournalNoRecords(asked);
    if record.Some? {
      JournalSnoc(asked, Journal(Some(i), record.value, stored));
    } else {
      assert asked + [] == asked;
    }
  }

  lemma {:induction false} SingleJournal(cfg: Config, op: MutationOp, i: nat, a: Answers)
    ensures JournalOf(Single(cfg, op, i, a).events) ==
            match CheckGates(cfg, op, i, a)
            case Stop(_, record, _) => if record.Some? then [Record(Some(i), record.value)] else []
            case Pass(_) => [Record(Some(i), ExecutingRec)] + AttemptRecords(i, a)
  {
    GatesOnlyAsk(cfg, op, i, a);
    match CheckGates(cfg, op, i, a)
    case Stop(asked, record, _) => StoppedJournal(asked, i, record, record.Some? && a.stores(record.value));
    case Pass(asked) => PassedJournal(asked, i, a);
  }

  /** `executeSingle`: it completes exactly when everything in front of and including the mutator says yes; what the
      operation becomes and what is journalled is told by the first obstacle. */
  lemma {:induction false} SingleShape(cfg: Config, op: MutationOp, i: nat, a: Answers)
    ensures var step := Single(cfg, op, i, a);
            && (step.ok <==> Succeeds(cfg, op, a))
            && step.op == Settled(cfg, op, a)
            && JournalOf(step.events) == Journalled(cfg, op, i, a)
            && (if step.ok then JournalOf(step.events) == Pairs(i, 1) else FailingTail(JournalOf(step.events), i))
  {
    SingleState(cfg, op, i, a);
    SingleRecords(cfg, op, i, a);
    OnePair(i);
  }

  lemma {:induction false} SingleState(cfg: Config, op: MutationOp, i: nat, a: Answers)
    ensures Single(cfg, op, i, a).ok <==> Succeeds(cfg, op, a)
    ensures Single(cfg, op, i, a).op == Settled(cfg, op, a)
  {
    BlockMeansNotGranted(op.approval, a.checkedAt);
  }

  lemma {:induction false} SingleRecords(cfg: Config, op: MutationOp, i: nat, a: Answers)
    ensures JournalOf(Single(cfg, op, i, a).events) == Journalled(cfg, op, i, a)
  {
    SingleJournal(cfg, op, i, a);
    if CheckGates(cfg, op, i, a).Pass? { PassedRecords(cfg, op, i, a); } else { StoppedRecords(cfg, op, i, a); }
  }

  lemma {:induction false} StoppedRecords(cfg: Config, op: MutationOp, i: nat, a: Answers)
    requires CheckGates(cfg, op, i, a).Stop?
    ensures var record := CheckGates(cfg, op, i, a).record;
            (if record.Some? then [Record(Some(i), record.value)] else []) == Journalled(cfg, op, i, a)
  {
    BlockMeansNotGranted(op.approval, a.checkedAt);
  }

  lemma {:induction false} PassedRecords(cfg: Config, op: MutationOp, i: nat, a: Answers)
    requires CheckGates(cfg, op, i, a).Pass?
    ensures [Record(Some(i), ExecutingRec)] + AttemptRecords(i, a) == Journalled(cfg, op, i, a)
  {
    BlockMeansNotGranted(op.approval, a.checkedAt);
    assert !Denies(cfg, a) && !GuardFails(cfg, a) && !Foreign(cfg, op);
  }

  lemma {:induction false} OnePair(i: nat)
    ensures Pairs(i, 1) == [Record(Some(i), ExecutingRec), Record(Some(i), CompletedRec)]
  {
    assert Pairs(i + 1, 0) == [];
  }

  // ---------------------------------------------------------------- gate safety

  ghost predicate Before(events: seq<Event>, p: nat, e: Event) { exists q :: 0 <= q < p <= |events| && events[q] == e }

  /** Position `p` is preceded by a positive answer from each gate, and directly by the executing record. */
  ghost predicate Cleared(cfg: Config, events: seq<Event>, p: nat, i: nat, stored: bool) {
    && Before(events, p, OpApprovalChecked(i, None))
    && (cfg.guarded ==> Before(events, p, GuardAsked(i, Allow)))
    && Before(events, p, OwnershipChecked(i, true))
    && (cfg.fenced ==> Before(events, p, FenceChecked(i, true)))
    && 0 < p <= |events| && events[p - 1] == Journal(Some(i), ExecutingRec, stored)
  }

  ghost predicate GateSafe(cfg: Config, answers: seq<Answers>, events: seq<Event>) {
    forall p: nat, i: nat :: p < |events| && events[p] == Invoked(i) ==>
      i < |answers| && Cleared(cfg, events, p, i, answers[i].stores(ExecutingRec))
  }

  lemma {:induction false} ClearedShift(
    cfg: Config, a: seq<Event>, b: seq<Event>, c: seq<Event>, p: nat, i: nat, stored: bool)
    requires p <= |b| && Cleared(cfg, b, p, i, stored)
    ensures Cleared(cfg, a + b + c, |a| + p, i, stored)
  {
    var s := a + b + c;
    forall e | Before(b, p, e) ensures Before(s, |a| + p, e) {
      var q :| 0 <= q < p <= |b| && b[q] == e;
      assert s[|a| + q] == e;
    }
    assert s[|a| + p - 1] == b[p - 1];
  }

  lemma {:induction false} GateSafeJoin(cfg: Config, answers: seq<Answers>, a: seq<Event>, b: seq<Event>)
    requires GateSafe(cfg, answers, a) && GateSafe(cfg, answers, b)
    ensures GateSafe(cfg, answers, a + b)
  {
    forall p: nat, i: nat | p < |a + b| && (a + b)[p] == Invoked(i)
      ensures i < |answers| && Cleared(cfg, a + b, p, i, answers[i].stores(ExecutingRec))
    {
      if p < |a| {
        assert a[p] == Invoked(i);
        ClearedShift(cfg, [], a, b, p, i, answers[i].stores(ExecutingRec));
        assert [] + a + b == a + b;
      } else {
        assert b[p - |a|] == Invoked(i);
        ClearedShift(cfg, a, b, [], p - |a|, i, answers[i].stores(ExecutingRec));
        assert a + b + [] == a + b;
      }
    }
  }

  lemma {:induction false} QuietIsSafe(cfg: Config, answers: seq<Answers>, events: seq<Event>)
    requires forall e :: e in events ==> !e.Invoked?
    ensures GateSafe(cfg, answers, events)
  {}

  lemma {:induction false} AttemptInvokes(i: nat, a: Answers)
    ensures !a.cancelledMid ==> Attempt(i, a)[0] == Invoked(i)
    ensures forall q :: 0 <= q < |Attempt(i, a)| && Attempt(i, a)[q].Invoked? ==>
              q == 0 && !a.cancelledMid && Attempt(i, a)[q] == Invoked(i)
    ensures forall e :: e in Attempt(i, a) ==> !BatchLevel(e)
  {}

  /** The gates an operation passed, as its events show them. */
  ghost predicate Opened(cfg: Config, asked: seq<Event>, i: nat) {
    && OpApprovalChecked(i, None) in asked
    && (cfg.guarded ==> GuardAsked(i, Allow) in asked)
    && OwnershipChecked(i, true) in asked
    && (cfg.fenced ==> FenceChecked(i, true) in asked)
    && forall e :: e in asked ==> !e.Invoked?
  }

  lemma {:induction false} PassedGates(cfg: Config, op: MutationOp, i: nat, a: Answers)
    requires CheckGates(cfg, op, i, a).Pass?
    ensures Opened(cfg, CheckGates(cfg, op, i, a).asked, i)
  {
    GatesOnlyAsk(cfg, op, i, a);
    var first, second := Admission(cfg, op, i, a).asked, Clearance(cfg, op.(state := Validating), i, a).asked;
    assert first[0] == OpApprovalChecked(i, None);
    if cfg.guarded { assert first[|first| - 1] == GuardAsked(i, Allow); }
    assert second[0] == OwnershipChecked(i, true);
    if cfg.fenced { assert second[1] == FenceChecked(i, true); }
  }

  lemma {:induction false} InBefore(gates: seq<Event>, e: Event, p: nat, all: seq<Event>)
    requires e in gates && gates <= all && |gates| <= p <= |all|
    ensures Before(all, p, e)
  {
    var q :| 0 <= q < |gates| && gates[q] == e;
    assert all[q] == e;
  }

  /** Where the mutator appears in the events of an operation that passed. */
  lemma {:induction false} InvokedAt(asked: seq<Event>, record: Event, attempt: seq<Event>, i: nat, p: nat, j: nat)
    requires (forall e :: e in asked ==> !e.Invoked?) && !record.Invoked?
    requires forall q :: 0 <= q < |attempt| && attempt[q].Invoked? ==> q == 0 && attempt[q] == Invoked(i)
    requires p < |asked + [record] + attempt| && (asked + [record] + attempt)[p] == Invoked(j)
    ensures j == i && p == |asked| + 1 && (asked + [record] + attempt)[p - 1] == record
    ensures asked <= asked + [record] + attempt
  {
    var events := asked + [record] + attempt;
    assert forall q :: 0 <= q < |asked| ==> events[q] == asked[q] && asked[q] in asked;
    assert forall q :: |asked| < q < |events| ==> events[q] == attempt[q - |asked| - 1];
  }

  lemma {:induction false} ClearedByGates(
    cfg: Config, asked: seq<Event>, i: nat, p: nat, stored: bool, events: seq<Event>)
    requires Opened(cfg, asked, i) && asked <= events && |asked| < p <= |events|
    requires events[p - 1] == Journal(Some(i), ExecutingRec, stored)
    ensures Cleared(cfg, events, p, i, stored)
  {
    forall e | e in asked ensures Before(events, p, e) { InBefore(asked, e, p, events); }
  }

  lemma {:induction false} PassIsSafe(cfg: Config, op: MutationOp, i: nat, answers: seq<Answers>)
    requires i < |answers| && CheckGates(cfg, op, i, answers[i]).Pass?
    ensures GateSafe(cfg, answers, Single(cfg, op, i, answers[i]).events)
  {
    var a := answers[i];
    PassedGates(cfg, op, i, a);
    AttemptInvokes(i, a);
    var asked, record := CheckGates(cfg, op, i, a).asked, Journal(Some(i), ExecutingRec, a.stores(ExecutingRec));
    var events := asked + [record] + Attempt(i, a);
    forall p: nat, j: nat | p < |events| && events[p] == Invoked(j)
      ensures j == i && Cleared(cfg, events, p, i, a.stores(ExecutingRec))
    {
      InvokedAt(asked, record, Attempt(i, a), i, p, j);
      ClearedByGates(cfg, asked, i, p, a.stores(ExecutingRec), events);
    }
  }

  /** One operation: who is invoked, and that it was cleared. */
  lemma {:induction false} SingleIsSafe(cfg: Config, op: MutationOp, i: nat, answers: seq<Answers>)
    requires i < |answers|
    ensures var events := Single(cfg, op, i, answers[i]).events;
            && GateSafe(cfg, answers, events)
            && (Invoked(i) in events <==> Invokes(cfg, op, answers[i]))
            && (forall j: nat :: Invoked(j) in events ==> j == i)
            && (forall e :: e in events ==> !BatchLevel(e))
  {
    var a := answers[i];
    GatesOnlyAsk(cfg, op, i, a);
    AttemptInvokes(i, a);
    var events := Single(cfg, op, i, a).events;
    if CheckGates(cfg, op, i, a).Pass? {
      PassIsSafe(cfg, op, i, answers);
      if !a.cancelledMid { assert Attempt(i, a)[0] in events; }
    } else {
      QuietIsSafe(cfg, answers, events);
    }
  }

  // ---------------------------------------------------------------- the batch loop, proved

  /** Everything about a run from position `i`, with `k` the independently defined stop point. */
  ghost predicate RunShape(cfg: Config, ops: seq<MutationOp>, answers: seq<Answers>, i: nat, k: nat, run: Run)
    requires i <= k <= |ops| == |answers| == |run.ops|
  {
    && (run.ok <==> k == |ops|)
    && (forall j :: 0 <= j < i ==> run.ops[j] == ops[j])
    && (forall j :: i <= j < k ==> run.ops[j] == Settled(cfg, ops[j], answers[j]))
    && (forall j :: k < j < |ops| ==> run.ops[j] == ops[j])
    && (k < |ops| ==> run.ops[k] == if answers[k].cancelledBefore then ops[k] else Settled(cfg, ops[k], answers[k]))
  }

  /** Rewriting a finished operation does not move the stop point. */
  lemma {:induction false} StopSurvivesUpdate(
    cfg: Config, ops: seq<MutationOp>, answers: seq<Answers>, i: nat, k: nat, op: MutationOp)
    requires i < |ops| == |answers| && StopsAt(cfg, ops, answers, i, k)
    requires !answers[i].cancelledBefore && Succeeds(cfg, ops[i], answers[i])
    ensures StopsAt(cfg, ops[i := op], answers, i + 1, k)
  {}

  lemma {:induction false} LoopShape(cfg: Config, ops: seq<MutationOp>, answers: seq<Answers>, i: nat, k: nat)
    requires |ops| == |answers| && StopsAt(cfg, ops, answers, i, k)
    ensures RunShape(cfg, ops, answers, i, k, RunFrom(cfg, ops, answers, i))
    decreases k - i
  {
    if i < k {
      var step := CompletingTurn(cfg, ops, answers, i, k);
      LoopShape(cfg, ops[i := step.op], answers, i + 1, k);
      ShapeWithFirst(cfg, ops, answers, i, k, step.op, RunFrom(cfg, ops[i := step.op], answers, i + 1),
                     RunFrom(cfg, ops, answers, i));
    } else {
      ShapeAtStop(cfg, ops, answers, k);
    }
  }

  lemma {:induction false} CompletingTurn(cfg: Config, ops: seq<MutationOp>, answers: seq<Answers>, i: nat, k: nat)
    returns (step: Step)
    requires i < k && |ops| == |answers| && StopsAt(cfg, ops, answers, i, k)
    ensures step.op == Settled(cfg, ops[i], answers[i]) && StopsAt(cfg, ops[i := step.op], answers, i + 1, k)
    ensures RunFrom(cfg, ops, answers, i) == Prefixed(step.events, RunFrom(cfg, ops[i := step.op], answers, i + 1))
  {
    step := Single(cfg, ops[i], i, answers[i]);
    SingleShape(cfg, ops[i], i, answers[i]);
    StopSurvivesUpdate(cfg, ops, answers, i, k, step.op);
  }

  lemma {:induction false} ShapeAtStop(cfg: Config, ops: seq<MutationOp>, answers: seq<Answers>, k: nat)
    requires |ops| == |answers| && StopsAt(cfg, ops, answers, k, k)
    ensures RunShape(cfg, ops, answers, k, k, RunFrom(cfg, ops, answers, k))
  {
    if k < |ops| { SingleState(cfg, ops[k], k, answers[k]); }
  }

  /** A completed operation in front of a run. */
  lemma {:induction false} ShapeWithFirst(
    cfg: Config, ops: seq<MutationOp>, answers: seq<Answers>, i: nat, k: nat, op: MutationOp, rest: Run, run: Run)
    requires i < k <= |ops| == |answers| == |rest.ops| && op == Settled(cfg, ops[i], answers[i])
    requires RunShape(cfg, ops[i := op], answers, i + 1, k, rest) && run.ops == rest.ops && run.ok == rest.ok
    ensures RunShape(cfg, ops, answers, i, k, run)
  {
    assert rest.ops[i] == ops[i := op][i];
  }

  lemma {:induction false} PairsStep(i: nat, k: nat)
    requires i < k
    ensures Pairs(i, k - i) == Pairs(i, 1) + Pairs(i + 1, k - i - 1)
  {
    assert Pairs(i + 1, 0) == [];
  }

  lemma {:induction false} EndOfLoopJournal(stored: bool)
    ensures JournalOf([BreakerTold(true)]) == []
    ensures JournalOf([BreakerTold(false)] + [Journal(None, AbortedRec, stored)]) == [Record(None, AbortedRec)]
  {
    NoJournalNoRecords([BreakerTold(true)]);
    NoJournalNoRecords([BreakerTold(false)]);
    JournalSnoc([BreakerTold(false)], Journal(None, AbortedRec, stored));
  }

  /** One turn of the loop, seen from the events. */
  lemma {:induction false} LoopEvents(cfg: Config, ops: seq<MutationOp>, answers: seq<Answers>, i: nat)
    requires i < |ops| == |answers| && !answers[i].cancelledBefore
    ensures var step := Single(cfg, ops[i], i, answers[i]);
            RunFrom(cfg, ops, answers, i).events ==
            step.events + if step.ok then RunFrom(cfg, ops[i := step.op], answers, i + 1).events
              else [BreakerTold(false)]
  {
  }

  /** The events of the operations from `i` to `k`, one after the other. */
  ghost function Joined(events: nat -> seq<Event>, i: nat, k: nat): seq<Event>
    decreases k - i
  {
    if i >= k then [] else events(i) + Joined(events, i + 1, k)
  }

  /** What each operation does on its own. */
  ghost function EventsOf(cfg: Config, ops: seq<MutationOp>, answers: seq<Answers>): nat -> seq<Event>
    requires |ops| == |answers|
  {
    (j: nat) => if j < |ops| then Single(cfg, ops[j], j, answers[j]).events else []
  }

  /** How the loop ends once it has reached its stop point. */
  ghost function AtStop(cfg: Config, ops: seq<MutationOp>, answers: seq<Answers>, k: nat): seq<Event>
    requires k <= |ops| == |answers|
  {
    if k == |ops| then [BreakerTold(true)]
    else if answers[k].cancelledBefore
    then [BreakerTold(false)] + [Journal(None, AbortedRec, answers[k].stores(AbortedRec))]
    else Single(cfg, ops[k], k, answers[k]).events + [BreakerTold(false)]
  }

  /** Everything the loop does, `k` being where it stops. */
  ghost function Trail(cfg: Config, ops: seq<MutationOp>, answers: seq<Answers>, k: nat): seq<Event>
    requires k <= |ops| == |answers|
  {
    Joined(EventsOf(cfg, ops, answers), 0, k) + AtStop(cfg, ops, answers, k)
  }

  lemma {:induction false} TurnEvents(cfg: Config, ops: seq<MutationOp>, answers: seq<Answers>, j: nat, step: Step)
    requires j < |ops| == |answers| && !answers[j].cancelledBefore
    requires step == Single(cfg, ops[j], j, answers[j]) && step.ok
    ensures RunFrom(cfg, ops, answers, j).events ==
            step.events + RunFrom(cfg, ops[j := step.op], answers, j + 1).events
  {
    LoopEvents(cfg, ops, answers, j);
  }

  lemma {:induction false} UpdatesCommute(ops: seq<MutationOp>, i: nat, x: MutationOp, j: nat, y: MutationOp)
    requires i < j < |ops|
    ensures ops[i := x][j := y] == ops[j := y][i := x]
  {
  }

  /** A turn that ends the loop does not depend on an earlier operation. */
  lemma {:induction false} EarlierUpdateAtEnd(
    cfg: Config, ops: seq<MutationOp>, answers: seq<Answers>, i: nat, op: MutationOp, j: nat)
    requires i < j <= |ops| == |answers|
    requires j == |ops| || answers[j].cancelledBefore || !Single(cfg, ops[j], j, answers[j]).ok
    ensures RunFrom(cfg, ops[i := op], answers, j).events == RunFrom(cfg, ops, answers, j).events
  {
  }

  /** What the loop does from `j` on does not depend on an earlier operation. */
  lemma {:induction false} EarlierUpdate(
    cfg: Config, ops: seq<MutationOp>, answers: seq<Answers>, i: nat, op: MutationOp, j: nat)
    requires i < j <= |ops| == |answers|
    ensures RunFrom(cfg, ops[i := op], answers, j).events == RunFrom(cfg, ops, answers, j).events
    decreases |ops| - j
  {
    if j < |ops| && !answers[j].cancelledBefore && Single(cfg, ops[j], j, answers[j]).ok {
      EarlierUpdateTurn(cfg, ops, answers, i, op, j, Single(cfg, ops[j], j, answers[j]));
    } else {
      EarlierUpdateAtEnd(cfg, ops, answers, i, op, j);
    }
  }

  lemma {:induction false} EarlierUpdateTurn(
    cfg: Config, ops: seq<MutationOp>, answers: seq<Answers>, i: nat, op: MutationOp, j: nat, step: Step)
    requires i < j < |ops| == |answers| && !answers[j].cancelledBefore
    requires step == Single(cfg, ops[j], j, answers[j]) && step.ok
    ensures RunFrom(cfg, ops[i := op], answers, j).events == RunFrom(cfg, ops, answers, j).events
    decreases |ops| - j, 0
  {
    EarlierUpdate(cfg, ops[j := step.op], answers, i, op, j + 1);
    TurnEvents(cfg, ops, answers, j, step);
    TurnEvents(cfg, ops[i := op], answers, j, step);
    UpdatesCommute(ops, i, op, j, step.op);
  }

  /** A turn before the stop point. */
  lemma {:induction false} TurnBeforeStop(cfg: Config, ops: seq<MutationOp>, answers: seq<Answers>, j: nat)
    requires j < |ops| == |answers| && !answers[j].cancelledBefore && Succeeds(cfg, ops[j], answers[j])
    ensures RunFrom(cfg, ops, answers, j).events ==
            Single(cfg, ops[j], j, answers[j]).events + RunFrom(cfg, ops, answers, j + 1).events
  {
    SingleShape(cfg, ops[j], j, answers[j]);
    LoopEvents(cfg, ops, answers, j);
    EarlierUpdate(cfg, ops, answers, j, Single(cfg, ops[j], j, answers[j]).op, j + 1);
  }

  lemma {:induction false} Unrolled(events: nat -> seq<Event>, rest: nat -> seq<Event>, i: nat, k: nat)
    requires i <= k && forall j: nat :: i <= j < k ==> rest(j) == events(j) + rest(j + 1)
    ensures rest(i) == Joined(events, i, k) + rest(k)
    decreases k - i
  {
    if i < k { Unrolled(events, rest, i + 1, k); }
  }

  ghost function Rests(cfg: Config, ops: seq<MutationOp>, answers: seq<Answers>): nat -> seq<Event>
    requires |ops| == |answers|
  {
    (j: nat) => if j <= |ops| then RunFrom(cfg, ops, answers, j).events else []
  }

  /** A run is what the operations before the stop point do, then its end. */
  lemma {:induction false} RunIsTrail(cfg: Config, ops: seq<MutationOp>, answers: seq<Answers>, k: nat)
    requires |ops| == |answers| && StopsAt(cfg, ops, answers, 0, k)
    ensures RunFrom(cfg, ops, answers, 0).events == Trail(cfg, ops, answers, k)
  {
    var events, rest := EventsOf(cfg, ops, answers), Rests(cfg, ops, answers);
    forall j: nat | j < k ensures rest(j) == events(j) + rest(j + 1) { TurnBeforeStop(cfg, ops, answers, j); }
    Unrolled(events, rest, 0, k);
    RunAtStop(cfg, ops, answers, k);
  }

  lemma {:induction false} RunAtStop(cfg: Config, ops: seq<MutationOp>, answers: seq<Answers>, k: nat)
    requires |ops| == |answers| && StopsAt(cfg, ops, answers, k, k)
    ensures RunFrom(cfg, ops, answers, k).events == AtStop(cfg, ops, answers, k)
  {
    if k < |ops| { SingleShape(cfg, ops[k], k, answers[k]); }
  }

  lemma {:induction false} JoinedJournal(events: nat -> seq<Event>, i: nat, k: nat)
    requires i <= k && forall j: nat :: i <= j < k ==> JournalOf(events(j)) == Pairs(j, 1)
    ensures JournalOf(Joined(events, i, k)) == Pairs(i, k - i)
    decreases k - i
  {
    if i < k {
      JoinedJournal(events, i + 1, k);
      OneMorePair(events(i), Joined(events, i + 1, k), i, k);
    }
  }

  lemma {:induction false} OneMorePair(first: seq<Event>, rest: seq<Event>, i: nat, k: nat)
    requires i < k && JournalOf(first) == Pairs(i, 1) && JournalOf(rest) == Pairs(i + 1, k - (i + 1))
    ensures JournalOf(first + rest) == Pairs(i, k - i)
  {
    JournalAppend(first, rest);
    PairsStep(i, k);
  }

  lemma {:induction false} JournalAtStop(
    cfg: Config, ops: seq<MutationOp>, answers: seq<Answers>, k: nat) returns (tail: seq<Record>)
    requires |ops| == |answers| && StopsAt(cfg, ops, answers, k, k)
    ensures JournalOf(AtStop(cfg, ops, answers, k)) == tail
    ensures tail == TailAt(cfg, ops, answers, k) && if k == |ops| then tail == [] else FailingTail(tail, k)
  {
    if k == |ops| {
      tail := [];
      EndOfLoopJournal(true);
    } else if answers[k].cancelledBefore {
      tail := [Record(None, AbortedRec)];
      EndOfLoopJournal(answers[k].stores(AbortedRec));
    } else {
      SingleShape(cfg, ops[k], k, answers[k]);
      var step := Single(cfg, ops[k], k, answers[k]);
      tail := JournalOf(step.events);
      JournalSnoc(step.events, BreakerTold(false));
    }
  }

  /** The journal of a run: a pair per completed operation, then nothing or one failing tail. */
  lemma {:induction false} LoopJournal(
    cfg: Config, ops: seq<MutationOp>, answers: seq<Answers>, k: nat) returns (tail: seq<Record>)
    requires |ops| == |answers| && StopsAt(cfg, ops, answers, 0, k)
    ensures JournalOf(Trail(cfg, ops, answers, k)) == Pairs(0, k) + tail
    ensures tail == TailAt(cfg, ops, answers, k) && if k == |ops| then tail == [] else FailingTail(tail, k)
  {
    forall j: nat | j < k ensures JournalOf(EventsOf(cfg, ops, answers)(j)) == Pairs(j, 1) {
      OneJournal(cfg, ops, answers, j);
    }
    tail := JournalAtStop(cfg, ops, answers, k);
    TrailJournal(EventsOf(cfg, ops, answers), k, AtStop(cfg, ops, answers, k), tail);
  }

  lemma {:induction false} OneJournal(cfg: Config, ops: seq<MutationOp>, answers: seq<Answers>, j: nat)
    requires j < |ops| == |answers| && Succeeds(cfg, ops[j], answers[j])
    ensures JournalOf(EventsOf(cfg, ops, answers)(j)) == Pairs(j, 1)
  {
    SingleShape(cfg, ops[j], j, answers[j]);
  }

  lemma {:induction false} TrailJournal(events: nat -> seq<Event>, k: nat, end: seq<Event>, tail: seq<Record>)
    requires JournalOf(end) == tail && forall j: nat :: j < k ==> JournalOf(events(j)) == Pairs(j, 1)
    ensures JournalOf(Joined(events, 0, k) + end) == Pairs(0, k) + tail
  {
    JoinedJournal(events, 0, k);
    JournalAppend(Joined(events, 0, k), end);
  }

  ghost function Outcomes(events: seq<Event>): seq<bool> {
    if events == [] then []
    else Outcomes(events[..|events| - 1]) + if events[|events| - 1].BreakerTold? then [events[|events| - 1].success]
      else []
  }

  lemma {:induction false} OutcomesAppend(a: seq<Event>, b: seq<Event>)
    ensures Outcomes(a + b) == Outcomes(a) + Outcomes(b)
    decreases |b|
  {
    if b == [] {
      assert a + b == a;
    } else {
      assert (a + b)[..|a + b| - 1] == a + b[..|b| - 1];
      OutcomesAppend(a, b[..|b| - 1]);
    }
  }

  lemma {:induction false} QuietOutcomes(events: seq<Event>)
    requires forall e :: e in events ==> !e.BreakerTold?
    ensures Outcomes(events) == []
  {
    if events != [] { QuietOutcomes(events[..|events| - 1]); }
  }

  lemma {:induction false} OneOutcome(b: bool)
    ensures Outcomes([BreakerTold(b)]) == [b]
  {
    assert [BreakerTold(b)][..0] == [];
  }

  /** The loop tells the breaker once, and tells it success exactly when nothing stopped the batch. */
  lemma {:induction false} JoinedOutcomes(events: nat -> seq<Event>, i: nat, k: nat)
    requires i <= k && forall j: nat :: i <= j < k ==> Outcomes(events(j)) == []
    ensures Outcomes(Joined(events, i, k)) == []
    decreases k - i
  {
    if i < k {
      JoinedOutcomes(events, i + 1, k);
      OutcomesAppend(events(i), Joined(events, i + 1, k));
    }
  }

  lemma {:induction false} OutcomeAtStop(cfg: Config, ops: seq<MutationOp>, answers: seq<Answers>, k: nat)
    requires k <= |ops| == |answers|
    ensures Outcomes(AtStop(cfg, ops, answers, k)) == [k == |ops|]
  {
    OneOutcome(true);
    OneOutcome(false);
    if k < |ops| {
      var aborted := Journal(None, AbortedRec, answers[k].stores(AbortedRec));
      OutcomesAppend([BreakerTold(false)], [aborted]);
      QuietOutcomes([aborted]);
      SingleOutcomes(cfg, ops, answers, k);
      OutcomesAppend(Single(cfg, ops[k], k, answers[k]).events, [BreakerTold(false)]);
    }
  }

  lemma {:induction false} SingleOutcomes(cfg: Config, ops: seq<MutationOp>, answers: seq<Answers>, j: nat)
    requires j < |ops| == |answers|
    ensures Outcomes(Single(cfg, ops[j], j, answers[j]).events) == []
  {
    SingleIsSafe(cfg, ops[j], j, answers);
    QuietOutcomes(Single(cfg, ops[j], j, answers[j]).events);
  }

  lemma {:induction false} LoopOutcome(cfg: Config, ops: seq<MutationOp>, answers: seq<Answers>, k: nat)
    requires |ops| == |answers| && StopsAt(cfg, ops, answers, 0, k)
    ensures Outcomes(Trail(cfg, ops, answers, k)) == [k == |ops|]
  {
    var events := EventsOf(cfg, ops, answers);
    forall j: nat | j < k ensures Outcomes(events(j)) == [] { SingleOutcomes(cfg, ops, answers, j); }
    JoinedOutcomes(events, 0, k);
    OutcomeAtStop(cfg, ops, answers, k);
    OutcomesAppend(Joined(events, 0, k), AtStop(cfg, ops, answers, k));
  }

  lemma {:induction false} LoopGateSafe(cfg: Config, ops: seq<MutationOp>, answers: seq<Answers>, i: nat)
    requires i <= |ops| == |answers|
    ensures GateSafe(cfg, answers, RunFrom(cfg, ops, answers, i).events)
    decreases |ops| - i, 1
  {
    if i == |ops| || answers[i].cancelledBefore {
      QuietIsSafe(cfg, answers, RunFrom(cfg, ops, answers, i).events);
    } else {
      TurnGateSafe(cfg, ops, answers, i);
    }
  }

  lemma {:induction false} SingleIsGateSafe(cfg: Config, op: MutationOp, i: nat, answers: seq<Answers>)
    requires i < |answers|
    ensures GateSafe(cfg, answers, Single(cfg, op, i, answers[i]).events)
  {
    SingleIsSafe(cfg, op, i, answers);
  }

  lemma {:induction false} TurnGateSafe(cfg: Config, ops: seq<MutationOp>, answers: seq<Answers>, i: nat)
    requires i < |ops| == |answers| && !answers[i].cancelledBefore
    ensures GateSafe(cfg, answers, RunFrom(cfg, ops, answers, i).events)
    decreases |ops| - i, 0
  {
    var step := Single(cfg, ops[i], i, answers[i]);
    var rest := if step.ok then RunFrom(cfg, ops[i := step.op], answers, i + 1).events else [BreakerTold(false)];
    SingleIsGateSafe(cfg, ops[i], i, answers);
    LoopEvents(cfg, ops, answers, i);
    if step.ok { LoopGateSafe(cfg, ops[i := step.op], answers, i + 1); } else { QuietIsSafe(cfg, answers, rest); }
    GateSafeJoin(cfg, answers, step.events, rest);
  }

  /** The loop stopped by `k` reaches the mutator of `j`. */
  ghost predicate Reaches(cfg: Config, ops: seq<MutationOp>, answers: seq<Answers>, i: nat, k: nat, j: nat)
    requires |ops| == |answers|
  {
    i <= j <= k && j < |ops| && !answers[j].cancelledBefore && Invokes(cfg, ops[j], answers[j])
  }

  lemma {:induction false} ReachesLater(
    cfg: Config, ops: seq<MutationOp>, answers: seq<Answers>, i: nat, k: nat, j: nat, op: MutationOp)
    requires i < |ops| == |answers|
    ensures Reaches(cfg, ops[i := op], answers, i + 1, k, j) <==> j != i && Reaches(cfg, ops, answers, i, k, j)
  {
  }

  lemma {:induction false} LoopInvokes(cfg: Config, ops: seq<MutationOp>, answers: seq<Answers>, i: nat, k: nat, j: nat)
    requires |ops| == |answers| && StopsAt(cfg, ops, answers, i, k)
    ensures Invoked(j) in RunFrom(cfg, ops, answers, i).events <==> Reaches(cfg, ops, answers, i, k, j)
    decreases |ops| - i
  {
    if i < |ops| && !answers[i].cancelledBefore {
      var step := Single(cfg, ops[i], i, answers[i]);
      LoopEvents(cfg, ops, answers, i);
      TurnInvokes(cfg, ops, answers, i, k, j);
      if step.ok {
        StopSurvivesUpdate(cfg, ops, answers, i, k, step.op);
        LoopInvokes(cfg, ops[i := step.op], answers, i + 1, k, j);
        ReachesLater(cfg, ops, answers, i, k, j, step.op);
      }
    }
  }

  /** One turn of the loop invokes its own mutator or none, and only the last turn may be the stop point. */
  lemma {:induction false} TurnInvokes(cfg: Config, ops: seq<MutationOp>, answers: seq<Answers>, i: nat, k: nat, j: nat)
    requires i < |ops| == |answers| && StopsAt(cfg, ops, answers, i, k) && !answers[i].cancelledBefore
    ensures var step := Single(cfg, ops[i], i, answers[i]);
            && (step.ok <==> Succeeds(cfg, ops[i], answers[i])) && (step.ok <==> i < k)
            && (Invoked(j) in step.events <==> j == i && Reaches(cfg, ops, answers, i, k, j))
  {
    SingleShape(cfg, ops[i], i, answers[i]);
    SingleIsSafe(cfg, ops[i], i, answers);
  }

  /** In every run from `i`: safe, and a mutator runs for `j` exactly when the loop reaches `j` and its gates are
      open. */
  lemma {:induction false} LoopIsSafe(cfg: Config, ops: seq<MutationOp>, answers: seq<Answers>, i: nat, k: nat)
    requires |ops| == |answers| && StopsAt(cfg, ops, answers, i, k)
    ensures var events := RunFrom(cfg, ops, answers, i).events;
            && GateSafe(cfg, answers, events)
            && forall j: nat :: Invoked(j) in events <==> Reaches(cfg, ops, answers, i, k, j)
  {
    LoopGateSafe(cfg, ops, answers, i);
    forall j: nat ensures Invoked(j) in RunFrom(cfg, ops, answers, i).events <==> Reaches(cfg, ops, answers, i, k, j) {
      LoopInvokes(cfg, ops, answers, i, k, j);
    }
  }

  // ---------------------------------------------------------------- whole batches

  ghost predicate Refused(batch: Batch) { !batch.allowed || !Granted(batch.approval, batch.now) }

  lemma {:induction false} RunBatchCases(cfg: Config, batch: Batch, ops: seq<MutationOp>, answers: seq<Answers>)
    requires |ops| == |answers|
    ensures var run := RunBatch(cfg, batch, ops, answers);
            if !Refused(batch) then run == Prefixed(BatchChecked(cfg, batch), RunFrom(cfg, ops, answers, 0))
            else run == Run(if batch.allowed then BatchChecked(cfg, batch) else [BreakerAsked(false)], ops, false)
    ensures !Refused(batch) ==> BatchChecked(cfg, batch)[1] == BatchApprovalChecked(None)
    ensures forall e :: e in BatchChecked(cfg, batch) ==> e.BreakerAsked? || e.BatchApprovalChecked? || e.Evidence?
  {
    BlockMeansNotGranted(batch.approval, batch.now);
  }

  lemma {:induction false} InvokedAfterHead(head: seq<Event>, loop: seq<Event>, p: nat, i: nat)
    requires (forall e :: e in head ==> !e.Invoked?) && p < |head + loop| && (head + loop)[p] == Invoked(i)
    ensures p >= |head| && loop[p - |head|] == Invoked(i) && Invoked(i) in loop
  {
    assert forall q :: 0 <= q < |head| ==> (head + loop)[q] == head[q] && head[q] in head;
  }

  lemma {:induction false} ClearedAfterHead(
    cfg: Config, head: seq<Event>, loop: seq<Event>, p: nat, i: nat, stored: bool)
    requires p <= |loop| && Cleared(cfg, loop, p, i, stored)
    ensures Cleared(cfg, head + loop, |head| + p, i, stored)
  {
    ClearedShift(cfg, head, loop, [], p, i, stored);
    assert head + loop + [] == head + loop;
  }

  lemma {:induction false} InvokedInLoop(
    cfg: Config, batch: Batch, ops: seq<MutationOp>, answers: seq<Answers>, p: nat, i: nat)
    requires |ops| == |answers|
    requires p < |RunBatch(cfg, batch, ops, answers).events|
             && RunBatch(cfg, batch, ops, answers).events[p] == Invoked(i)
    ensures var head, loop := BatchChecked(cfg, batch), RunFrom(cfg, ops, answers, 0).events;
            && !Refused(batch) && RunBatch(cfg, batch, ops, answers).events == head + loop
            && head[0] == BreakerAsked(true) && head[1] == BatchApprovalChecked(None)
            && |head| <= p && loop[p - |head|] == Invoked(i)
  {
    RunBatchCases(cfg, batch, ops, answers);
    assert RunBatch(cfg, batch, ops, answers).events[p] in RunBatch(cfg, batch, ops, answers).events;
    InvokedAfterHead(BatchChecked(cfg, batch), RunFrom(cfg, ops, answers, 0).events, p, i);
  }

  lemma {:induction false} LoopSafetyAt(cfg: Config, ops: seq<MutationOp>, answers: seq<Answers>, q: nat, i: nat)
    requires |ops| == |answers|
    requires q < |RunFrom(cfg, ops, answers, 0).events| && RunFrom(cfg, ops, answers, 0).events[q] == Invoked(i)
    ensures i < |ops| && GatesOpen(cfg, ops[i], answers[i])
    ensures Cleared(cfg, RunFrom(cfg, ops, answers, 0).events, q, i, answers[i].stores(ExecutingRec))
  {
    LoopIsSafe(cfg, ops, answers, 0, StopPoint(cfg, ops, answers, 0));
    assert Invoked(i) in RunFrom(cfg, ops, answers, 0).events;
  }

  /**
   No mutator runs unless the breaker allowed the batch, the batch and operation approvals were granted
   and unexpired when checked, the guard allowed the operation, its resource type is ours, fencing
   passed, and an executing record was appended just before.
   */
  lemma {:induction false} BatchGateSafety(
    cfg: Config, batch: Batch, ops: seq<MutationOp>, answers: seq<Answers>, p: nat, i: nat)
    requires |ops| == |answers|
    requires p < |RunBatch(cfg, batch, ops, answers).events|
             && RunBatch(cfg, batch, ops, answers).events[p] == Invoked(i)
    ensures batch.allowed && Granted(batch.approval, batch.now)
    ensures i < |ops| && GatesOpen(cfg, ops[i], answers[i])
    ensures var events := RunBatch(cfg, batch, ops, answers).events;
            && Before(events, p, BreakerAsked(true))
            && Before(events, p, BatchApprovalChecked(None))
            && Cleared(cfg, events, p, i, answers[i].stores(ExecutingRec))
  {
    InvokedInLoop(cfg, batch, ops, answers, p, i);
    SafeInBatch(cfg, ops, answers, BatchChecked(cfg, batch), RunBatch(cfg, batch, ops, answers).events, p, i);
  }

  lemma {:induction false} SafeInBatch(
    cfg: Config, ops: seq<MutationOp>, answers: seq<Answers>, head: seq<Event>, events: seq<Event>, p: nat, i: nat)
    requires |ops| == |answers| && events == head + RunFrom(cfg, ops, answers, 0).events
    requires |head| > 1 && |head| <= p < |events| && events[p] == Invoked(i)
    ensures i < |ops| && GatesOpen(cfg, ops[i], answers[i])
    ensures Before(events, p, head[0]) && Before(events, p, head[1])
    ensures Cleared(cfg, events, p, i, answers[i].stores(ExecutingRec))
  {
    var loop := RunFrom(cfg, ops, answers, 0).events;
    LoopSafetyAt(cfg, ops, answers, p - |head|, i);
    SafeAfterHead(cfg, head, loop, events, p, i, answers[i].stores(ExecutingRec));
  }

  lemma {:induction false} SafeAfterHead(
    cfg: Config, head: seq<Event>, loop: seq<Event>, events: seq<Event>, p: nat, i: nat, stored: bool)
    requires |head| > 1 && events == head + loop && |head| <= p <= |events| && Cleared(cfg, loop, p - |head|, i, stored)
    ensures Before(events, p, head[0]) && Before(events, p, head[1]) && Cleared(cfg, events, p, i, stored)
  {
    ClearedAfterHead(cfg, head, loop, p - |head|, i, stored);
    InBefore(head, head[0], p, events);
    InBefore(head, head[1], p, events);
  }

  /** And conversely: exactly these operations reach their mutator. */
  lemma {:induction false} ExactlyTheseAreInvoked(
    cfg: Config, batch: Batch, ops: seq<MutationOp>, answers: seq<Answers>, i: nat)
    requires |ops| == |answers|
    ensures Invoked(i) in RunBatch(cfg, batch, ops, answers).events <==>
            && !Refused(batch)
            && i < |ops|
            && (forall j :: 0 <= j < i ==> !answers[j].cancelledBefore && Succeeds(cfg, ops[j], answers[j]))
            && !answers[i].cancelledBefore && Invokes(cfg, ops[i], answers[i])
  {
    RunBatchCases(cfg, batch, ops, answers);
    var k := StopPoint(cfg, ops, answers, 0);
    LoopIsSafe(cfg, ops, answers, 0, k);
    assert !Refused(batch) ==> (Invoked(i) in RunBatch(cfg, batch, ops, answers).events <==>
                                Invoked(i) in RunFrom(cfg, ops, answers, 0).events);
    if k < |ops| && i > k { assert answers[k].cancelledBefore || !Succeeds(cfg, ops[k], answers[k]); }
  }

  lemma {:induction false} HeadIsQuiet(head: seq<Event>, loop: seq<Event>)
    requires forall e :: e in head ==> !e.Journal? && !e.BreakerTold?
    ensures JournalOf(head + loop) == JournalOf(loop) && Outcomes(head + loop) == Outcomes(loop)
  {
    NoJournalNoRecords(head);
    QuietOutcomes(head);
    JournalAppend(head, loop);
    OutcomesAppend(head, loop);
  }

  /** A batch refused up front changes no operation, journals nothing and tells the breaker nothing; all it leaves is
      the evidence of an approval that blocked it. */
  lemma {:induction false} RefusedBatchIsSilent(cfg: Config, batch: Batch, ops: seq<MutationOp>, answers: seq<Answers>)
    requires |ops| == |answers| && Refused(batch)
    ensures var run := RunBatch(cfg, batch, ops, answers);
            && !run.ok && run.ops == ops && JournalOf(run.events) == [] && Outcomes(run.events) == []
            && EvidenceOf(run.events) == BatchEvidence(cfg, batch)
  {
    RunBatchCases(cfg, batch, ops, answers);
    NoJournalNoRecords(RunBatch(cfg, batch, ops, answers).events);
    QuietOutcomes(RunBatch(cfg, batch, ops, answers).events);
    EvidenceTrail(cfg, batch, ops, answers);
  }

  // ---------------------------------------------------------------- which questions are asked

  ghost predicate Admitted(cfg: Config, op: MutationOp, a: Answers) {
    op.resourceType in cfg.mutators && Granted(op.approval, a.checkedAt) && !GuardFails(cfg, a) && !Denies(cfg, a)
  }

  lemma {:induction false} AdmissionQuestions(cfg: Config, op: MutationOp, i: nat, a: Answers)
    ensures Admission(cfg, op, i, a).Pass? <==> Admitted(cfg, op, a)
    ensures var asked := Admission(cfg, op, i, a).asked;
            && ((exists b :: OpApprovalChecked(i, b) in asked) <==> op.resourceType in cfg.mutators)
            && (forall g :: GuardAsked(i, g) in asked <==>
                  op.resourceType in cfg.mutators && Granted(op.approval, a.checkedAt) && cfg.guarded && g == a.guard)
            && (forall e :: e in asked ==> !e.OwnershipChecked? && !e.FenceChecked?)
  {
    BlockMeansNotGranted(op.approval, a.checkedAt);
    if op.resourceType in cfg.mutators {
      var blocked := ApprovalBlock(op.approval, a.checkedAt);
      assert OpChecked(cfg, op, i, a)[0] == OpApprovalChecked(i, blocked);
      assert forall e :: e in OpChecked(cfg, op, i, a) ==> e.OpApprovalChecked? || e.Evidence?;
      assert OpApprovalChecked(i, blocked) in Admission(cfg, op, i, a).asked;
    }
  }

  lemma {:induction false} ClearanceQuestions(cfg: Config, op: MutationOp, i: nat, a: Answers)
    ensures var asked := Clearance(cfg, op, i, a).asked;
            && (forall v :: OwnershipChecked(i, v) in asked <==> v == !Foreign(cfg, op))
            && (forall v :: FenceChecked(i, v) in asked <==>
                  !Foreign(cfg, op) && cfg.fenced && v == a.fenceError.None?)
            && (forall e :: e in asked ==> e.OwnershipChecked? || e.FenceChecked?)
  {
  }

  /** Each gate is asked exactly when all the gates before it are open, with the answer it gave. */
  lemma {:induction false} QuestionsAsked(cfg: Config, op: MutationOp, i: nat, a: Answers)
    ensures var events := Single(cfg, op, i, a).events;
            && ((exists b :: OpApprovalChecked(i, b) in events) <==> op.resourceType in cfg.mutators)
            && (forall g :: GuardAsked(i, g) in events <==>
                  op.resourceType in cfg.mutators && Granted(op.approval, a.checkedAt) && cfg.guarded && g == a.guard)
            && (forall v :: OwnershipChecked(i, v) in events <==> Admitted(cfg, op, a) && v == !Foreign(cfg, op))
            && (forall v :: FenceChecked(i, v) in events <==>
                  Admitted(cfg, op, a) && !Foreign(cfg, op) && cfg.fenced && v == a.fenceError.None?)
  {
    AdmissionQuestions(cfg, op, i, a);
    ClearanceQuestions(cfg, op.(state := Validating), i, a);
    var rest := AfterGates(cfg, op, i, a);
    GatesJoin(cfg, op, i, a, rest);
  }

  lemma {:induction false} GatesJoin(cfg: Config, op: MutationOp, i: nat, a: Answers, rest: seq<Event>)
    requires Single(cfg, op, i, a).events == CheckGates(cfg, op, i, a).asked + rest
    requires forall e :: e in rest ==> e.Journal? || e.Invoked?
    ensures forall e: Event :: !e.Journal? && !e.Invoked? ==>
              (e in Single(cfg, op, i, a).events <==>
               || e in Admission(cfg, op, i, a).asked
               || (Admission(cfg, op, i, a).Pass? && e in Clearance(cfg, op.(state := Validating), i, a).asked))
  {
  }

  // ---------------------------------------------------------------- approval evidence

  ghost function EvidenceOf(events: seq<Event>): seq<Event> {
    if events == [] then []
    else
      var last := events[|events| - 1];
      EvidenceOf(events[..|events| - 1]) + if last.Evidence? then [last] else []
  }

  lemma {:induction false} EvidenceAppend(a: seq<Event>, b: seq<Event>)
    ensures EvidenceOf(a + b) == EvidenceOf(a) + EvidenceOf(b)
    decreases |b|
  {
    if b == [] {
      assert a + b == a;
    } else {
      assert (a + b)[..|a + b| - 1] == a + b[..|b| - 1];
      EvidenceAppend(a, b[..|b| - 1]);
    }
  }

  lemma {:induction false} NoEvidence(events: seq<Event>)
    requires forall e :: e in events ==> !e.Evidence?
    ensures EvidenceOf(events) == []
  {
    if events != [] { NoEvidence(events[..|events| - 1]); }
  }

  lemma {:induction false} OnlyEvidence(events: seq<Event>)
    requires forall e :: e in events ==> e.Evidence?
    ensures EvidenceOf(events) == events
  {
    if events != [] {
      OnlyEvidence(events[..|events| - 1]);
      assert events == events[..|events| - 1] + [events[|events| - 1]];
    }
  }

  lemma {:induction false} EvidenceBetween(a: seq<Event>, evidence: seq<Event>, b: seq<Event>)
    requires (forall e :: e in a + b ==> !e.Evidence?) && forall e :: e in evidence ==> e.Evidence?
    ensures EvidenceOf(a + evidence + b) == evidence
  {
    assert (forall e :: e in a ==> e in a + b) && forall e :: e in b ==> e in a + b;
    NoEvidence(a);
    OnlyEvidence(evidence);
    NoEvidence(b);
    EvidenceAppend(a, evidence);
    EvidenceAppend(a + evidence, b);
  }

  /** The evidence of the batch's own approval. */
  ghost function BatchEvidence(cfg: Config, batch: Batch): seq<Event> {
    if !batch.allowed then []
    else DueEvidence(cfg, None, batch.approval, batch.now)
  }

  /** The evidence of one operation: none unless some mutator handles it. */
  ghost function OpEvidence(cfg: Config, op: MutationOp, i: nat, a: Answers): seq<Event> {
    if op.resourceType !in cfg.mutators then []
    else DueEvidence(cfg, Some(i), op.approval, a.checkedAt)
  }

  lemma {:induction false} OpCheckedEvidence(cfg: Config, op: MutationOp, i: nat, a: Answers)
    ensures var evidence := DueEvidence(cfg, Some(i), op.approval, a.checkedAt);
            && EvidenceOf(OpChecked(cfg, op, i, a)) == evidence
            && EvidenceOf(OpChecked(cfg, op, i, a) + [GuardAsked(i, a.guard)]) == evidence
  {
    var blocked := ApprovalBlock(op.approval, a.checkedAt);
    var checked, evidence := [OpApprovalChecked(i, blocked)], ApprovalEvidence(cfg, Some(i), op.approval, blocked);
    EvidenceIsDue(cfg, Some(i), op.approval, a.checkedAt);
    EvidenceBetween(checked, evidence, []);
    EvidenceBetween(checked, evidence, [GuardAsked(i, a.guard)]);
    assert checked + evidence + [] == checked + evidence;
  }

  lemma {:induction false} AdmissionAsks(cfg: Config, op: MutationOp, i: nat, a: Answers)
    ensures var asked, checked := Admission(cfg, op, i, a).asked, OpChecked(cfg, op, i, a);
            if op.resourceType !in cfg.mutators then asked == []
            else asked == checked || asked == checked + [GuardAsked(i, a.guard)]
  {
  }

  lemma {:induction false} AdmissionEvidence(cfg: Config, op: MutationOp, i: nat, a: Answers)
    ensures EvidenceOf(Admission(cfg, op, i, a).asked) == OpEvidence(cfg, op, i, a)
  {
    AdmissionAsks(cfg, op, i, a);
    if op.resourceType in cfg.mutators { OpCheckedEvidence(cfg, op, i, a); } else { NoEvidence([]); }
  }

  lemma {:induction false} ClearanceEvidence(cfg: Config, op: MutationOp, i: nat, a: Answers)
    ensures EvidenceOf(Clearance(cfg, op, i, a).asked) == []
  {
    NoEvidence(Clearance(cfg, op, i, a).asked);
  }

  lemma {:induction false} GatesEvidence(cfg: Config, op: MutationOp, i: nat, a: Answers)
    ensures EvidenceOf(CheckGates(cfg, op, i, a).asked) == OpEvidence(cfg, op, i, a)
  {
    AdmissionEvidence(cfg, op, i, a);
    var op1 := op.(state := Validating);
    ClearanceEvidence(cfg, op1, i, a);
    EvidenceAppend(Admission(cfg, op, i, a).asked, Clearance(cfg, op1, i, a).asked);
  }

  lemma {:induction false} AfterGates(cfg: Config, op: MutationOp, i: nat, a: Answers) returns (rest: seq<Event>)
    ensures Single(cfg, op, i, a).events == CheckGates(cfg, op, i, a).asked + rest
    ensures forall e :: e in rest ==> e.Journal? || e.Invoked?
  {
    match CheckGates(cfg, op, i, a)
    case Stop(asked, record, _) =>
      rest := if record.Some? then [Journal(Some(i), record.value, a.stores(record.value))] else [];
    case Pass(asked) =>
      var executing := [Journal(Some(i), ExecutingRec, a.stores(ExecutingRec))];
      rest := executing + Attempt(i, a);
      assert asked + executing + Attempt(i, a) == asked + rest;
  }

  lemma {:induction false} SingleEvidence(cfg: Config, op: MutationOp, i: nat, a: Answers)
    ensures EvidenceOf(Single(cfg, op, i, a).events) == OpEvidence(cfg, op, i, a)
  {
    GatesEvidence(cfg, op, i, a);
    var rest := AfterGates(cfg, op, i, a);
    NoEvidence(rest);
    EvidenceAppend(CheckGates(cfg, op, i, a).asked, rest);
  }

  /** The evidence of the operations the loop reaches from `i` on, `k` being where it stops. */
  ghost function LoopEvidence(cfg: Config, ops: seq<MutationOp>, answers: seq<Answers>, i: nat, k: nat): seq<Event>
    requires i <= |ops| == |answers|
    decreases |ops| - i
  {
    if i == |ops| || i > k || answers[i].cancelledBefore then []
    else OpEvidence(cfg, ops[i], i, answers[i]) + LoopEvidence(cfg, ops, answers, i + 1, k)
  }

  lemma {:induction false} LoopEvidenceUpdate(
    cfg: Config, ops: seq<MutationOp>, answers: seq<Answers>, i: nat, k: nat, j: nat, op: MutationOp)
    requires j < i <= |ops| == |answers|
    ensures LoopEvidence(cfg, ops[j := op], answers, i, k) == LoopEvidence(cfg, ops, answers, i, k)
    decreases |ops| - i
  {
    if i < |ops| { LoopEvidenceUpdate(cfg, ops, answers, i + 1, k, j, op); }
  }

  lemma {:induction false} LoopLeavesEvidence(cfg: Config, ops: seq<MutationOp>, answers: seq<Answers>, i: nat, k: nat)
    requires |ops| == |answers| && StopsAt(cfg, ops, answers, i, k)
    ensures EvidenceOf(RunFrom(cfg, ops, answers, i).events) == LoopEvidence(cfg, ops, answers, i, k)
    decreases |ops| - i
  {
    if i == |ops| || answers[i].cancelledBefore {
      NoEvidence(RunFrom(cfg, ops, answers, i).events);
    } else {
      var step := Single(cfg, ops[i], i, answers[i]);
      SingleShape(cfg, ops[i], i, answers[i]);
      SingleEvidence(cfg, ops[i], i, answers[i]);
      LoopEvents(cfg, ops, answers, i);
      if step.ok {
        StopSurvivesUpdate(cfg, ops, answers, i, k, step.op);
        LoopLeavesEvidence(cfg, ops[i := step.op], answers, i + 1, k);
        LoopEvidenceUpdate(cfg, ops, answers, i + 1, k, i, step.op);
        EvidenceAppend(step.events, RunFrom(cfg, ops[i := step.op], answers, i + 1).events);
      } else {
        NoEvidence([BreakerTold(false)]);
        EvidenceAppend(step.events, [BreakerTold(false)]);
      }
    }
  }

  /** The approval evidence a batch leaves, exactly: that of its own approval, and, unless it was refused, that of every
      operation the loop reached. */
  lemma {:induction false} EvidenceTrail(cfg: Config, batch: Batch, ops: seq<MutationOp>, answers: seq<Answers>)
    requires |ops| == |answers|
    ensures EvidenceOf(RunBatch(cfg, batch, ops, answers).events) ==
            BatchEvidence(cfg, batch) +
            if Refused(batch) then [] else LoopEvidence(cfg, ops, answers, 0, StopPoint(cfg, ops, answers, 0))
  {
    RunBatchCases(cfg, batch, ops, answers);
    CheckedEvidence(cfg, batch);
    NoEvidence([BreakerAsked(false)]);
    LoopLeavesEvidence(cfg, ops, answers, 0, StopPoint(cfg, ops, answers, 0));
    EvidenceAppend(BatchChecked(cfg, batch), RunFrom(cfg, ops, answers, 0).events);
  }

  lemma {:induction false} CheckedEvidence(cfg: Config, batch: Batch)
    ensures EvidenceOf(BatchChecked(cfg, batch)) == DueEvidence(cfg, None, batch.approval, batch.now)
  {
    EvidenceIsDue(cfg, None, batch.approval, batch.now);
    var blocked := ApprovalBlock(batch.approval, batch.now);
    var asked, evidence := [BreakerAsked(true), BatchApprovalChecked(blocked)],
        ApprovalEvidence(cfg, None, batch.approval, blocked);
    EvidenceBetween(asked, evidence, []);
    assert asked + evidence + [] == asked + evidence;
  }

  lemma {:induction false} ReachedEvidence(
    cfg: Config, ops: seq<MutationOp>, answers: seq<Answers>, from: nat, i: nat, k: nat, e: Event)
    requires from <= i < |ops| == |answers| && i <= k && e in OpEvidence(cfg, ops[i], i, answers[i])
    requires forall j :: from <= j <= i ==> !answers[j].cancelledBefore
    ensures e in LoopEvidence(cfg, ops, answers, from, k)
    decreases i - from
  {
    if from < i { ReachedEvidence(cfg, ops, answers, from + 1, i, k, e); }
  }

  lemma {:induction false} EvidenceIsFromEvents(events: seq<Event>, e: Event)
    ensures e in EvidenceOf(events) <==> e in events && e.Evidence?
  {
    if events != [] {
      EvidenceIsFromEvents(events[..|events| - 1], e);
      assert events == events[..|events| - 1] + [events[|events| - 1]];
    }
  }

  /** No mutation that needed an approval runs without evidence that it was granted. */
  lemma {:induction false} ApprovedMutationHasEvidence(
    cfg: Config, batch: Batch, ops: seq<MutationOp>, answers: seq<Answers>, i: nat)
    requires |ops| == |answers| && Invoked(i) in RunBatch(cfg, batch, ops, answers).events && cfg.evidence
    ensures i < |ops|
    ensures ops[i].approval.required ==>
              Evidence(Some(i), ApprovalGranted) in RunBatch(cfg, batch, ops, answers).events
  {
    ExactlyTheseAreInvoked(cfg, batch, ops, answers, i);
    if ops[i].approval.required {
      var e, k := Evidence(Some(i), ApprovalGranted), StopPoint(cfg, ops, answers, 0);
      BlockMeansNotGranted(ops[i].approval, answers[i].checkedAt);
      assert e in OpEvidence(cfg, ops[i], i, answers[i]);
      ReachedEvidence(cfg, ops, answers, 0, i, k, e);
      EvidenceTrail(cfg, batch, ops, answers);
      EvidenceIsFromEvents(RunBatch(cfg, batch, ops, answers).events, e);
    }
  }

  /**
   The shape of every other batch: with `k` the number of operations that complete, those before `k` are
   Completed and those after it untouched, the journal is `k` (executing, completed) pairs and at most
   one failing tail, and the breaker hears one outcome: success exactly when `k` is the whole batch.
   */
  lemma {:induction false} BatchShape(
    cfg: Config, batch: Batch, ops: seq<MutationOp>, answers: seq<Answers>) returns (k: nat, tail: seq<Record>)
    requires |ops| == |answers| && !Refused(batch)
    ensures StopsAt(cfg, ops, answers, 0, k)
    ensures RunShape(cfg, ops, answers, 0, k, RunBatch(cfg, batch, ops, answers))
    ensures JournalOf(RunBatch(cfg, batch, ops, answers).events) == Pairs(0, k) + tail
    ensures tail == TailAt(cfg, ops, answers, k) && if k == |ops| then tail == [] else FailingTail(tail, k)
    ensures Outcomes(RunBatch(cfg, batch, ops, answers).events) == [k == |ops|]
  {
    RunBatchCases(cfg, batch, ops, answers);
    k := StopPoint(cfg, ops, answers, 0);
    LoopShape(cfg, ops, answers, 0, k);
    PrefixedShape(cfg, ops, answers, 0, k, RunFrom(cfg, ops, answers, 0), BatchChecked(cfg, batch));
    tail := BatchJournal(cfg, batch, ops, answers, k);
  }

  lemma {:induction false} BatchEvents(
    cfg: Config, batch: Batch, ops: seq<MutationOp>, answers: seq<Answers>, k: nat)
    requires |ops| == |answers| && !Refused(batch) && StopsAt(cfg, ops, answers, 0, k)
    ensures RunBatch(cfg, batch, ops, answers).events == BatchChecked(cfg, batch) + Trail(cfg, ops, answers, k)
  {
    RunBatchCases(cfg, batch, ops, answers);
    RunIsTrail(cfg, ops, answers, k);
  }

  lemma {:induction false} BatchJournal(
    cfg: Config, batch: Batch, ops: seq<MutationOp>, answers: seq<Answers>, k: nat) returns (tail: seq<Record>)
    requires |ops| == |answers| && !Refused(batch) && StopsAt(cfg, ops, answers, 0, k)
    ensures JournalOf(RunBatch(cfg, batch, ops, answers).events) == Pairs(0, k) + tail
    ensures tail == TailAt(cfg, ops, answers, k) && if k == |ops| then tail == [] else FailingTail(tail, k)
    ensures Outcomes(RunBatch(cfg, batch, ops, answers).events) == [k == |ops|]
  {
    tail := LoopJournal(cfg, ops, answers, k);
    LoopOutcome(cfg, ops, answers, k);
    BatchEvents(cfg, batch, ops, answers, k);
    BatchHeadIsQuiet(cfg, batch);
    HeadIsQuiet(BatchChecked(cfg, batch), Trail(cfg, ops, answers, k));
  }

  /** How every batch begins and ends: the breaker is asked first, and if it refuses that is all; the batch approval is
      next; and the breaker hears the outcome last, but for the record of a run cancelled between operations. */
  lemma {:induction false} BatchBeginsAndEnds(cfg: Config, batch: Batch, ops: seq<MutationOp>, answers: seq<Answers>)
    requires |ops| == |answers|
    ensures var events, k := RunBatch(cfg, batch, ops, answers).events, StopPoint(cfg, ops, answers, 0);
            var n := |events|;
            && n > 0 && events[0] == BreakerAsked(batch.allowed)
            && (!batch.allowed ==> n == 1)
            && (batch.allowed ==>
                n > 1 && events[1].BatchApprovalChecked?
                && (events[1].blocked.None? <==> Granted(batch.approval, batch.now)))
            && (!Refused(batch) ==>
                if k < |ops| && answers[k].cancelledBefore
                then n > 3 && events[n - 2] == BreakerTold(false)
                     && events[n - 1] == Journal(None, AbortedRec, answers[k].stores(AbortedRec))
                else n > 2 && events[n - 1] == BreakerTold(k == |ops|))
  {
    BlockMeansNotGranted(batch.approval, batch.now);
    if !Refused(batch) {
      var k := StopPoint(cfg, ops, answers, 0);
      BatchEvents(cfg, batch, ops, answers, k);
      EndOfTrail(cfg, ops, answers, k);
    }
  }

  lemma {:induction false} EndOfTrail(cfg: Config, ops: seq<MutationOp>, answers: seq<Answers>, k: nat)
    requires k <= |ops| == |answers|
    ensures var trail := Trail(cfg, ops, answers, k);
            var n := |trail|;
            if k < |ops| && answers[k].cancelledBefore
            then n > 1 && trail[n - 2] == BreakerTold(false)
                 && trail[n - 1] == Journal(None, AbortedRec, answers[k].stores(AbortedRec))
            else n > 0 && trail[n - 1] == BreakerTold(k == |ops|)
  {
  }

  lemma {:induction false} BatchHeadIsQuiet(cfg: Config, batch: Batch)
    ensures forall e :: e in BatchChecked(cfg, batch) ==> !e.Journal? && !e.BreakerTold?
  {
  }

  lemma {:induction false} PrefixedShape(
    cfg: Config, ops: seq<MutationOp>, answers: seq<Answers>, i: nat, k: nat, run: Run, events: seq<Event>)
    requires i <= k <= |ops| == |answers| == |run.ops| && RunShape(cfg, ops, answers, i, k, run)
    ensures RunShape(cfg, ops, answers, i, k, Prefixed(events, run))
  {
  }

  // ---------------------------------------------------------------- journal write failures are ignored

  /** The append of a record succeeded, `k` being where the batch stopped. */
  ghost predicate Keeps(answers: seq<Answers>, k: nat, r: Record) {
    match r.at
    case Some(j) => j < |answers| && answers[j].stores(r.status)
    case None => k < |answers| && answers[k].stores(r.status)
  }

  /** Every append reports what the answers say about it. */
  ghost predicate Honest(answers: seq<Answers>, k: nat, events: seq<Event>) {
    forall e :: e in events && e.Journal? ==> (e.stored <==> Keeps(answers, k, Record(e.at, e.status)))
  }

  lemma {:induction false} SingleHonest(cfg: Config, op: MutationOp, i: nat, answers: seq<Answers>, k: nat)
    requires i < |answers|
    ensures Honest(answers, k, Single(cfg, op, i, answers[i]).events)
  {
    GatesOnlyAsk(cfg, op, i, answers[i]);
  }

  lemma {:induction false} LoopHonest(cfg: Config, ops: seq<MutationOp>, answers: seq<Answers>, i: nat, k: nat)
    requires |ops| == |answers| && StopsAt(cfg, ops, answers, i, k)
    ensures Honest(answers, k, RunFrom(cfg, ops, answers, i).events)
    decreases |ops| - i
  {
    if i < |ops| && !answers[i].cancelledBefore {
      var step := Single(cfg, ops[i], i, answers[i]);
      SingleHonest(cfg, ops[i], i, answers, k);
      SingleShape(cfg, ops[i], i, answers[i]);
      LoopEvents(cfg, ops, answers, i);
      if step.ok {
        StopSurvivesUpdate(cfg, ops, answers, i, k, step.op);
        LoopHonest(cfg, ops[i := step.op], answers, i + 1, k);
      }
    }
  }

  /** What the journal holds after a run. */
  ghost function StoredOf(events: seq<Event>): seq<Record> {
    if events == [] then []
    else
      var last := events[|events| - 1];
      StoredOf(events[..|events| - 1]) + if last.Journal? && last.stored then [Record(last.at, last.status)] else []
  }

  /** The records whose append succeeded, in order. */
  ghost function Kept(answers: seq<Answers>, k: nat, records: seq<Record>): seq<Record> {
    if records == [] then []
    else
      var last := records[|records| - 1];
      Kept(answers, k, records[..|records| - 1]) + if Keeps(answers, k, last) then [last] else []
  }

  lemma {:induction false} KeptSnoc(answers: seq<Answers>, k: nat, records: seq<Record>, r: Record)
    ensures Kept(answers, k, records + [r]) == Kept(answers, k, records) + if Keeps(answers, k, r) then [r] else []
  {
    assert (records + [r])[..|records|] == records;
  }

  lemma {:induction false} StoredIsKept(answers: seq<Answers>, k: nat, events: seq<Event>)
    requires Honest(answers, k, events)
    ensures StoredOf(events) == Kept(answers, k, JournalOf(events))
  {
    if events != [] {
      var front, last := events[..|events| - 1], events[|events| - 1];
      assert last in events && forall e :: e in front ==> e in events;
      StoredIsKept(answers, k, front);
      if last.Journal? {
        KeptSnoc(answers, k, JournalOf(front), Record(last.at, last.status));
      } else {
        assert JournalOf(front) + [] == JournalOf(front);
      }
    }
  }

  /** The journal a batch leaves, append errors included: of the `k` (executing, completed) pairs and the failing tail
      of `BatchShape` exactly the records whose append succeeded, in order. */
  lemma {:induction false} StoredJournal(cfg: Config, batch: Batch, ops: seq<MutationOp>, answers: seq<Answers>)
    returns (k: nat, tail: seq<Record>)
    requires |ops| == |answers| && !Refused(batch)
    ensures StopsAt(cfg, ops, answers, 0, k)
    ensures tail == TailAt(cfg, ops, answers, k) && if k == |ops| then tail == [] else FailingTail(tail, k)
    ensures StoredOf(RunBatch(cfg, batch, ops, answers).events) == Kept(answers, k, Pairs(0, k) + tail)
  {
    k, tail := BatchShape(cfg, batch, ops, answers);
    BatchHonest(cfg, batch, ops, answers, k);
    StoredIsKept(answers, k, RunBatch(cfg, batch, ops, answers).events);
  }

  lemma {:induction false} BatchHonest(cfg: Config, batch: Batch, ops: seq<MutationOp>, answers: seq<Answers>, k: nat)
    requires |ops| == |answers| && StopsAt(cfg, ops, answers, 0, k)
    ensures Honest(answers, k, RunBatch(cfg, batch, ops, answers).events)
  {
    RunBatchCases(cfg, batch, ops, answers);
    LoopHonest(cfg, ops, answers, 0, k);
  }

  /** A mutation is preceded by an executing record that the journal really holds exactly when that append
      succeeded: the executor discards the journal's error and goes on. */
  lemma {:induction false} ExecutingRecordHeld(
    cfg: Config, batch: Batch, ops: seq<MutationOp>, answers: seq<Answers>, p: nat, i: nat)
    requires |ops| == |answers|
    requires p < |RunBatch(cfg, batch, ops, answers).events|
             && RunBatch(cfg, batch, ops, answers).events[p] == Invoked(i)
    ensures i < |ops|
    ensures Before(RunBatch(cfg, batch, ops, answers).events, p, Journal(Some(i), ExecutingRec, true)) <==>
            answers[i].stores(ExecutingRec)
  {
    BatchGateSafety(cfg, batch, ops, answers, p, i);
    BatchHonest(cfg, batch, ops, answers, StopPoint(cfg, ops, answers, 0));
    var events := RunBatch(cfg, batch, ops, answers).events;
    if Before(events, p, Journal(Some(i), ExecutingRec, true)) {
      assert Journal(Some(i), ExecutingRec, true) in events;
    }
  }

  /** Such a run exists: a mutator invoked although no record of the operation was kept. */
  lemma {:induction false} UnjournalledMutation()
    returns (cfg: Config, batch: Batch, op: MutationOp, answers: Answers)
    ensures Invoked(0) in RunBatch(cfg, batch, [op], [answers]).events
    ensures StoredOf(RunBatch(cfg, batch, [op], [answers]).events) == []
  {
    cfg := Config({"lists"}, map["lists" := OwnedHere], false, false, false);
    batch := Batch(Approval(false, Unset, 0), true, 1);
    op := MutationOp("lists", Approval(false, Unset, 0), Planned, "", "", 0, 0);
    answers := Answers(false, 1, Allow, None, 1, status => false, false, "", Done("r1"), 2, false);
    ExactlyTheseAreInvoked(cfg, batch, [op], [answers], 0);
    var k, tail := StoredJournal(cfg, batch, [op], [answers]);
    KeepsNothing([answers], k, Pairs(0, k) + tail);
  }

  lemma {:induction false} KeepsNothing(answers: seq<Answers>, k: nat, records: seq<Record>)
    requires forall i, status :: 0 <= i < |answers| ==> !answers[i].stores(status)
    ensures Kept(answers, k, records) == []
  {
    if records != [] { KeepsNothing(answers, k, records[..|records| - 1]); }
  }

  // ---------------------------------------------------------------- the executor

  lemma {:induction false} PrefixTwice(a: seq<Event>, b: seq<Event>, run: Run)
    ensures Prefixed(a, Prefixed(b, run)) == Prefixed(a + b, run)
  {
    assert a + (b + run.events) == a + b + run.events;
  }

  /** Running from position `i` on, after what was done, gives the whole run. */
  ghost predicate LeadsTo(
    cfg: Config, done: seq<Event>, ops: seq<MutationOp>, answers: seq<Answers>, i: nat, whole: Run)
    requires i <= |ops| == |answers|
  {
    Prefixed(done, RunFrom(cfg, ops, answers, i)) == whole
  }

  lemma {:induction false} LoopDone(
    cfg: Config, ops: seq<MutationOp>, answers: seq<Answers>, done: seq<Event>, whole: Run)
    requires |ops| == |answers| && LeadsTo(cfg, done, ops, answers, |ops|, whole)
    ensures Run(done + [BreakerTold(true)], ops, true) == whole
  {
  }

  /** One turn of the batch loop that completes. */
  lemma {:induction false} LoopTurn(cfg: Config, ops: seq<MutationOp>, answers: seq<Answers>, i: nat, done: seq<Event>)
    requires i < |ops| == |answers| && !answers[i].cancelledBefore && Single(cfg, ops[i], i, answers[i]).ok
    ensures var step := Single(cfg, ops[i], i, answers[i]);
            Prefixed(done, RunFrom(cfg, ops, answers, i))
            == Prefixed(done + step.events, RunFrom(cfg, ops[i := step.op], answers, i + 1))
  {
    var step := Single(cfg, ops[i], i, answers[i]);
    var rest := RunFrom(cfg, ops[i := step.op], answers, i + 1).events;
    assert done + (step.events + rest) == done + step.events + rest;
  }

  /** A turn of the batch loop that does not. */
  lemma {:induction false} LoopEnd(cfg: Config, ops: seq<MutationOp>, answers: seq<Answers>, i: nat, done: seq<Event>)
    requires i < |ops| == |answers| && !answers[i].cancelledBefore && !Single(cfg, ops[i], i, answers[i]).ok
    ensures var step := Single(cfg, ops[i], i, answers[i]);
            Prefixed(done, RunFrom(cfg, ops, answers, i))
            == Run(done + step.events + [BreakerTold(false)], ops[i := step.op], false)
  {}

  lemma {:induction false} LoopCancelled(
    cfg: Config, ops: seq<MutationOp>, answers: seq<Answers>, i: nat, done: seq<Event>)
    requires i < |ops| == |answers| && answers[i].cancelledBefore
    ensures var aborted := Journal(None, AbortedRec, answers[i].stores(AbortedRec));
            Prefixed(done, RunFrom(cfg, ops, answers, i)) == Run(done + [BreakerTold(false)] + [aborted], ops, false)
  {
    var aborted := Journal(None, AbortedRec, answers[i].stores(AbortedRec));
    assert done + [BreakerTold(false), aborted] == done + [BreakerTold(false)] + [aborted];
  }

  /** The record of a refusal, if the gate that stopped the operation leaves one. */
  function Refusal(i: nat, gates: Gates, a: Answers): seq<Event> {
    if gates.Stop? && gates.record.Some? then [Journal(Some(i), gates.record.value, a.stores(gates.record.value))]
      else []
  }

  class GovernedExecutor {
    const cfg: Config
    var trace: seq<Event>

    constructor (cfg: Config)
      ensures this.cfg == cfg && trace == []
    {
      this.cfg := cfg;
      trace := [];
    }

    method Emit(e: Event)
      modifies this`trace
      ensures trace == old(trace) + [e]
    {
      trace := trace + [e];
    }

    /** `recordApprovalEvidence`, as the approval checks call it. */
    method RecordEvidence(at: Option<nat>, approval: Approval, blocked: Option<Block>)
      modifies this`trace
      ensures trace == old(trace) + ApprovalEvidence(cfg, at, approval, blocked)
    {
      if !cfg.evidence || !approval.required { return; }
      match blocked
      case Some(block) =>
        Emit(Evidence(at, ApprovalRequired));
        Emit(Evidence(at, ApprovalBlocked(block)));
      case None =>
        Emit(Evidence(at, ApprovalGranted));
    }

    /** A write through the operation's pointer. */
    method SetOp(ops: array<MutationOp>, i: nat, op: MutationOp, ghost was: seq<MutationOp>)
      requires i < ops.Length == |was| && ops[..] == was[i := ops[i]]
      modifies ops
      ensures ops[..] == was[i := op]
    {
      ops[i] := op;
    }

    /** The mutator lookup, the approval and the guard. */
    method PassAdmission(ops: array<MutationOp>, i: nat, a: Answers) returns (passed: bool)
      requires i < ops.Length
      modifies this`trace, ops
      ensures var gates := Admission(cfg, old(ops[i]), i, a);
              && passed == gates.Pass?
              && trace == old(trace) + gates.asked + Refusal(i, gates, a)
              && ops[..] == old(ops[..])[i := if gates.Stop? then gates.op else old(ops[i]).(state := Validating)]
    {
      ghost var was := ops[..];
      var op := ops[i];
      if op.resourceType !in cfg.mutators { return false; }
      var blocked := ApprovalBlock(op.approval, a.checkedAt);
      Emit(OpApprovalChecked(i, blocked));
      RecordEvidence(Some(i), op.approval, blocked);
      if blocked.Some? {
        SetOp(ops, i, op.(state := AwaitingApproval, error := BlockReason(blocked.value)), was);
        Emit(Journal(Some(i), AwaitingRec, a.stores(AwaitingRec)));
        return false;
      }
      op := op.(state := Validating);
      SetOp(ops, i, op, was);
      if cfg.guarded {
        Emit(GuardAsked(i, a.guard));
        if a.guard == GuardError { return false; }
        if a.guard.Deny? {
          SetOp(ops, i, op.(state := Quarantined, error := a.guard.reason), was);
          Emit(Journal(Some(i), QuarantinedRec, a.stores(QuarantinedRec)));
          return false;
        }
      }
      passed := true;
    }

    /** Ownership and fencing. */
    method PassClearance(ops: array<MutationOp>, i: nat, a: Answers) returns (passed: bool)
      requires i < ops.Length
      modifies this`trace, ops
      ensures var gates := Clearance(cfg, old(ops[i]), i, a);
              && passed == gates.Pass?
              && trace == old(trace) + gates.asked + Refusal(i, gates, a)
              && ops[..] == old(ops[..])[i := if gates.Stop? then gates.op else old(ops[i])]
    {
      ghost var was := ops[..];
      var op := ops[i];
      var valid := OwnershipValid(cfg.registry, op.resourceType);
      Emit(OwnershipChecked(i, valid));
      if !valid {
        SetOp(ops, i, op.(state := Quarantined), was);
        return false;
      }
      if cfg.fenced {
        Emit(FenceChecked(i, a.fenceError.None?));
        if a.fenceError.Some? {
          SetOp(ops, i, op.(state := Quarantined, error := a.fenceError.value), was);
          Emit(Journal(Some(i), StaleTokenRec, a.stores(StaleTokenRec)));
          return false;
        }
      }
      passed := true;
    }

    /** The first half of `executeSingle`, up to the operation being marked executing. */
    method PassGates(ops: array<MutationOp>, i: nat, a: Answers) returns (passed: bool)
      requires i < ops.Length
      modifies this`trace, ops
      ensures var gates := CheckGates(cfg, old(ops[i]), i, a);
              && passed == gates.Pass?
              && trace == old(trace) + gates.asked + Refusal(i, gates, a)
              && ops[..] == old(ops[..])[i := if gates.Stop? then gates.op else old(ops[i]).(state := Validating)]
    {
      passed := PassAdmission(ops, i, a);
      if passed { passed := PassClearance(ops, i, a); }
    }

    /** The second half: the executing record, the last look at the context, the mutator, its record. */
    method RunMutator(ops: array<MutationOp>, i: nat, a: Answers) returns (ok: bool)
      requires i < ops.Length
      modifies this`trace, ops
      ensures ok == (!a.cancelledMid && a.mutation.Done?)
      ensures trace == old(trace) + [Journal(Some(i), ExecutingRec, a.stores(ExecutingRec))] + Attempt(i, a)
      ensures ops[..] == old(ops[..])[i := AfterAttempt(old(ops[i]), a)]
    {
      ops[i] := ops[i].(state := Executing, startedAt := a.startedAt);
      Emit(Journal(Some(i), ExecutingRec, a.stores(ExecutingRec)));
      if a.cancelledMid {
        ops[i] := ops[i].(state := Failed, error := a.cancelError);
        Emit(Journal(Some(i), AbortedRec, a.stores(AbortedRec)));
        return false;
      }
      Emit(Invoked(i));
      ops[i] := ops[i].(finishedAt := a.finishedAt);
      match a.mutation
      case Broke(error) =>
        ops[i] := ops[i].(state := Failed, error := error);
        if a.cancelledAfter { Emit(Journal(Some(i), AbortedRec, a.stores(AbortedRec))); }
        Emit(Journal(Some(i), FailedRec, a.stores(FailedRec)));
        ok := false;
      case Done(resultId) =>
        ops[i] := ops[i].(state := Completed, resultId := resultId);
        Emit(Journal(Some(i), CompletedRec, a.stores(CompletedRec)));
        ok := true;
    }

    method ExecuteSingle(ops: array<MutationOp>, i: nat, a: Answers) returns (ok: bool)
      requires i < ops.Length
      modifies this`trace, ops
      ensures var step := Single(cfg, old(ops[i]), i, a);
              ok == step.ok && trace == old(trace) + step.events && ops[..] == old(ops[..])[i := step.op]
    {
      ghost var op := ops[i];
      ok := PassGates(ops, i, a);
      if ok {
        ok := RunMutator(ops, i, a);
        assert AfterAttempt(op.(state := Validating), a) == AfterAttempt(op, a);
      }
    }

    /** `ExecuteBatch`.  Operations are updated in the caller's array; the batch status is a local in the source. */
    method ExecuteBatch(batch: Batch, ops: array<MutationOp>, answers: seq<Answers>) returns (ok: bool)
      requires |answers| == ops.Length
      modifies this`trace, ops
      ensures Run(trace, ops[..], ok) == Prefixed(old(trace), RunBatch(cfg, batch, old(ops[..]), answers))
    {
      Emit(BreakerAsked(batch.allowed));
      if !batch.allowed { return false; }
      var blocked := ApprovalBlock(batch.approval, batch.now);
      Emit(BatchApprovalChecked(blocked));
      RecordEvidence(None, batch.approval, blocked);
      assert trace == old(trace) + BatchChecked(cfg, batch);
      if blocked.Some? { return false; }
      PrefixTwice(old(trace), BatchChecked(cfg, batch), RunFrom(cfg, ops[..], answers, 0));
      ok := RunOperations(ops, answers);
    }

    /** One turn of the batch loop: it ends the run, or leaves what follows to the next turn. */
    method TakeTurn(ops: array<MutationOp>, answers: seq<Answers>, i: nat, ghost whole: Run) returns (ended: bool)
      requires i < ops.Length == |answers| && LeadsTo(cfg, trace, ops[..], answers, i, whole)
      modifies this`trace, ops
      ensures if ended then Run(trace, ops[..], false) == whole
              else LeadsTo(cfg, trace, ops[..], answers, i + 1, whole)
    {
      ghost var now, done := ops[..], trace;
      if answers[i].cancelledBefore {
        LoopCancelled(cfg, now, answers, i, done);
        Emit(BreakerTold(false));
        Emit(Journal(None, AbortedRec, answers[i].stores(AbortedRec)));
        return true;
      }
      var ok := ExecuteSingle(ops, i, answers[i]);
      if !ok {
        LoopEnd(cfg, now, answers, i, done);
        Emit(BreakerTold(false));
        return true;
      }
      LoopTurn(cfg, now, answers, i, done);
      return false;
    }

    /** The batch loop up to its first failure. */
    method TakeTurns(ops: array<MutationOp>, answers: seq<Answers>, ghost whole: Run) returns (ended: bool)
      requires |answers| == ops.Length && LeadsTo(cfg, trace, ops[..], answers, 0, whole)
      modifies this`trace, ops
      ensures if ended then Run(trace, ops[..], false) == whole
              else LeadsTo(cfg, trace, ops[..], answers, ops.Length, whole)
    {
      ended := false;
      var i := 0;
      while i < ops.Length && !ended
        invariant i <= ops.Length
        invariant if ended then Run(trace, ops[..], false) == whole
                  else LeadsTo(cfg, trace, ops[..], answers, i, whole)
      {
        ended := TakeTurn(ops, answers, i, whole);
        i := i + 1;
      }
    }

    method RunOperations(ops: array<MutationOp>, answers: seq<Answers>) returns (ok: bool)
      requires |answers| == ops.Length
      modifies this`trace, ops
      ensures Run(trace, ops[..], ok) == Prefixed(old(trace), RunFrom(cfg, old(ops[..]), answers, 0))
    {
      ghost var whole := Prefixed(trace, RunFrom(cfg, ops[..], answers, 0));
      var ended := TakeTurns(ops, answers, whole);
      if ended { return false; }
      LoopDone(cfg, ops[..], answers, trace, whole);
      Emit(BreakerTold(true));
      ok := true;
    }
  }
}
