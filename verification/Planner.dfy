/** `GenericPlanner.Plan`: the diff of a snapshot against a target, and `DriftValidator`. */
module Planner {
  import opened Orders
  import opened CanonicalJson
  import opened SnapshotModel

  // `sha` stands for the hex digest of SHA-256, about which nothing is assumed.

  datatype OpType = Delete | Update | Create

  datatype Operation = Operation(
    opType: OpType,
    target: string,
    resourceType: string,
    idempotencyKey: string,
    payload: Option<Attrs>,
    preconditions: Option<Attrs>)

  function TypeName(t: OpType): string {
    match t case Delete => "delete" case Update => "update" case Create => "create"
  }

  function TypePriority(t: OpType): nat {
    match t case Delete => 1 case Update => 2 case Create => 3
  }

  /** The comparison `Plan` sorts with. */
  predicate OpLess(x: Operation, y: Operation) {
    if x.opType != y.opType then TypePriority(x.opType) < TypePriority(y.opType) else StrLess(x.target, y.target)
  }

  ghost function IdempotencyKey(sha: string -> string, t: OpType, target: string, payload: Option<Attrs>): string {
    sha(TypeName(t) + ":" + target + ":" + if payload.Some? then Canon(Obj(payload.value)) else "")
  }

  /** The key-indexed view the planner builds; a later object replaces an earlier one. */
  ghost function AttrsOf(objects: seq<NormalizedObject>): map<string, Attrs> {
    if objects == [] then map[]
    else var last := objects[|objects| - 1]; AttrsOf(objects[..|objects| - 1])[last.key := last.attrs]
  }

  ghost function DeleteOp(sha: string -> string, target: map<string, Attrs>): NormalizedObject -> Option<Operation> {
    (o: NormalizedObject) =>
      if o.key in target then None
      else Some(Operation(Delete, o.key, o.objectType, IdempotencyKey(sha, Delete, o.key, None), None, None))
  }

  ghost function TargetOp(sha: string -> string, current: map<string, Attrs>): NormalizedObject -> Option<Operation> {
    (o: NormalizedObject) =>
      if o.key !in current then
        Some(Operation(Create, o.key, o.objectType, IdempotencyKey(sha, Create, o.key, Some(o.attrs)), Some(o.attrs),
          None))
      else if Canon(Obj(current[o.key])) != Canon(Obj(o.attrs)) then
        Some(Operation(Update, o.key, o.objectType, IdempotencyKey(sha, Update, o.key, Some(o.attrs)),
                       Some(o.attrs), Some(current[o.key])))
      else None
  }

  /** The operations in the order the two loops append them. */
  ghost function Unsorted(
    sha: string -> string, current: seq<NormalizedObject>, target: seq<NormalizedObject>): seq<Operation> {
    Collect(DeleteOp(sha, AttrsOf(target)), current) + Collect(TargetOp(sha, AttrsOf(current)), target)
  }

  /** `ops` is a possible result of `Plan`: the appended operations in some sorted order. */
  ghost predicate IsPlan(
    sha: string -> string, current: seq<NormalizedObject>, target: seq<NormalizedObject>, ops: seq<Operation>) {
    IsSortOf(OpLess, ops, Unsorted(sha, current, target))
  }

  // ---------------------------------------------------------------- what an operation does

  ghost function Lookup(state: map<string, Attrs>, key: string): Option<Attrs> {
    if key in state then Some(state[key]) else None
  }

  /** The provider's side of an operation. */
  ghost function Apply(op: Operation, state: map<string, Attrs>): map<string, Attrs> {
    match op.payload
    case None => state - {op.target}
    case Some(attrs) => state[op.target := attrs]
  }

  ghost function ApplyAll(ops: seq<Operation>, state: map<string, Attrs>): map<string, Attrs> {
    if ops == [] then state else Apply(ops[|ops| - 1], ApplyAll(ops[..|ops| - 1], state))
  }

  /** Operations on one key agree about what the key should become. */
  ghost predicate Agree(ops: seq<Operation>) {
    forall x, y :: x in ops && y in ops && x.target == y.target ==> x.payload == y.payload
  }

  lemma {:induction false} ApplyAllLookup(ops: seq<Operation>, state: map<string, Attrs>, key: string)
    requires Agree(ops)
    ensures forall op :: op in ops && op.target == key ==> Lookup(ApplyAll(ops, state), key) == op.payload
    ensures (forall op :: op in ops ==> op.target != key) ==> Lookup(ApplyAll(ops, state), key) == Lookup(state, key)
  {
    if ops != [] {
      var front, last := ops[..|ops| - 1], ops[|ops| - 1];
      assert ops == front + [last];
      ApplyAllLookup(front, state, key);
    }
  }

  // ---------------------------------------------------------------- the key-indexed view

  /** Objects that share a key share attributes and type; unique keys are the usual case. */
  ghost predicate KeyFunctional(objects: seq<NormalizedObject>) {
    forall x, y :: x in objects && y in objects && x.key == y.key ==> x.attrs == y.attrs && x.objectType == y.objectType
  }

  ghost predicate UniqueKeys(objects: seq<NormalizedObject>) {
    forall i, j :: 0 <= i < j < |objects| ==> objects[i].key != objects[j].key
  }

  lemma {:induction false} AttrsOfKeys(objects: seq<NormalizedObject>, key: string)
    ensures key in AttrsOf(objects) <==> exists o :: o in objects && o.key == key
    ensures key in AttrsOf(objects) ==> exists o :: o in objects && o.key == key && AttrsOf(objects)[key] == o.attrs
  {
    if objects != [] {
      var front, last := objects[..|objects| - 1], objects[|objects| - 1];
      assert objects == front + [last];
      AttrsOfKeys(front, key);
      if key in AttrsOf(objects) {
        if key == last.key {
          assert last in objects;
        } else {
          var o :| o in front && o.key == key && AttrsOf(front)[key] == o.attrs;
          assert o in objects;
        }
      }
    }
  }

  /** `o` is the last object under its key. */
  ghost predicate LastUnderKey(objects: seq<NormalizedObject>, o: NormalizedObject) {
    exists i :: 0 <= i < |objects| && objects[i] == o && forall j :: i < j < |objects| ==> objects[j].key != o.key
  }

  /** Of several objects under one key the last one counts. */
  lemma {:induction false} LastObjectCounts(objects: seq<NormalizedObject>, key: string, attrs: Attrs)
    ensures Lookup(AttrsOf(objects), key) == Some(attrs) <==>
            exists o :: LastUnderKey(objects, o) && o.key == key && o.attrs == attrs
    ensures Lookup(AttrsOf(objects), key) == None <==> forall o :: o in objects ==> o.key != key
  {
    AttrsOfKeys(objects, key);
    if key in AttrsOf(objects) {
      var o := LastFound(objects, key);
      OnlyLast(objects, o);
    } else {
      NoneUnderKey(objects, key);
    }
  }

  lemma {:induction false} LastIsUnique(objects: seq<NormalizedObject>, x: NormalizedObject, y: NormalizedObject)
    requires LastUnderKey(objects, x) && LastUnderKey(objects, y) && x.key == y.key
    ensures x == y
  {
    var i :| 0 <= i < |objects| && objects[i] == x && forall j :: i < j < |objects| ==> objects[j].key != x.key;
    var j :| 0 <= j < |objects| && objects[j] == y && forall k :: j < k < |objects| ==> objects[k].key != y.key;
  }

  lemma {:induction false} LastFound(objects: seq<NormalizedObject>, key: string) returns (o: NormalizedObject)
    requires key in AttrsOf(objects)
    ensures LastUnderKey(objects, o) && o.key == key && AttrsOf(objects)[key] == o.attrs
  {
    var n := |objects| - 1;
    o := objects[n];
    if o.key != key {
      o := LastFound(objects[..n], key);
      var i :| 0 <= i < n && objects[..n][i] == o && forall j :: i < j < n ==> objects[..n][j].key != o.key;
      assert objects[i] == o && forall j :: i < j < |objects| ==> objects[j].key != o.key;
    } else {
      assert objects[n] == o;
    }
  }

  lemma {:induction false} AttrsOfValue(objects: seq<NormalizedObject>, o: NormalizedObject)
    requires KeyFunctional(objects) && o in objects
    ensures o.key in AttrsOf(objects) && AttrsOf(objects)[o.key] == o.attrs
  {
    AttrsOfKeys(objects, o.key);
  }

  lemma {:induction false} AttrsOfDecoded(objects: seq<NormalizedObject>)
    requires AllDecoded(objects)
    ensures forall k :: k in AttrsOf(objects) ==> Decoded(Obj(AttrsOf(objects)[k]))
  {
    forall k | k in AttrsOf(objects) ensures Decoded(Obj(AttrsOf(objects)[k])) { AttrsOfKeys(objects, k); }
  }

  lemma {:induction false} AttrsOfPermutation(a: seq<NormalizedObject>, b: seq<NormalizedObject>)
    requires multiset(a) == multiset(b) && KeyFunctional(a)
    ensures AttrsOf(a) == AttrsOf(b) && KeyFunctional(b)
  {
    assert forall o :: o in a <==> o in multiset(a);
    assert forall o :: o in b <==> o in multiset(b);
    forall k ensures Lookup(AttrsOf(a), k) == Lookup(AttrsOf(b), k) {
      AttrsOfKeys(a, k);
      AttrsOfKeys(b, k);
    }
    assert forall k :: k in AttrsOf(a) <==> Lookup(AttrsOf(a), k).Some?;
    assert forall k :: k in AttrsOf(b) <==> Lookup(AttrsOf(b), k).Some?;
  }

  // ---------------------------------------------------------------- which operations a plan holds

  /** What the planner wants for `key`, told from the two views alone. */
  ghost predicate Wanted(op: Operation, current: map<string, Attrs>, target: map<string, Attrs>) {
    var before, after := Lookup(current, op.target), Lookup(target, op.target);
    before != after && op.payload == after
    && match op.opType
       case Delete => before.Some? && after.None?
       case Create => before.None? && after.Some?
       case Update => before.Some? && after.Some? && op.preconditions == before
  }

  lemma {:induction false} PlanMembers(
    sha: string -> string, current: seq<NormalizedObject>, target: seq<NormalizedObject>, op: Operation)
    ensures op in Unsorted(sha, current, target) <==>
            (exists o :: o in current && DeleteOp(sha, AttrsOf(target))(o) == Some(op))
            || (exists o :: o in target && TargetOp(sha, AttrsOf(current))(o) == Some(op))
  {
    var d, t := DeleteOp(sha, AttrsOf(target)), TargetOp(sha, AttrsOf(current));
    CollectMember(d, current, op);
    CollectMember(t, target, op);
    if op in Collect(d, current) {
      var i :| 0 <= i < |current| && d(current[i]) == Some(op);
      assert current[i] in current;
    }
    if op in Collect(t, target) {
      var i :| 0 <= i < |target| && t(target[i]) == Some(op);
      assert target[i] in target;
    }
  }

  lemma {:induction false} PlannedIsWanted(
    sha: string -> string, current: seq<NormalizedObject>, target: seq<NormalizedObject>, op: Operation)
    requires KeyFunctional(target)
    requires op in Unsorted(sha, current, target)
    ensures Wanted(op, AttrsOf(current), AttrsOf(target))
  {
    PlanMembers(sha, current, target, op);
    if o :| o in current && DeleteOp(sha, AttrsOf(target))(o) == Some(op) {
      AttrsOfKeys(current, o.key);
    } else {
      var o :| o in target && TargetOp(sha, AttrsOf(current))(o) == Some(op);
      AttrsOfValue(target, o);
    }
  }

  /** Where the views differ the plan acts; here the canonical printer has to be injective. */
  lemma {:induction false} DifferenceIsPlanned(
    sha: string -> string, current: seq<NormalizedObject>, target: seq<NormalizedObject>, key: string)
    requires KeyFunctional(target) && AllDecoded(current) && AllDecoded(target)
    requires Lookup(AttrsOf(current), key) != Lookup(AttrsOf(target), key)
    ensures exists op :: op in Unsorted(sha, current, target) && op.target == key
  {
    AttrsOfKeys(current, key);
    AttrsOfKeys(target, key);
    if key in AttrsOf(target) {
      var o :| o in target && o.key == key && AttrsOf(target)[key] == o.attrs;
      if key in AttrsOf(current) {
        AttrsOfDecoded(current);
        if Canon(Obj(AttrsOf(current)[key])) == Canon(Obj(o.attrs)) {
          CanonInjective(Obj(AttrsOf(current)[key]), Obj(o.attrs));
        }
      }
      PlanMembers(sha, current, target, TargetOp(sha, AttrsOf(current))(o).value);
    } else {
      var o :| o in current && o.key == key;
      PlanMembers(sha, current, target, DeleteOp(sha, AttrsOf(target))(o).value);
    }
  }

  lemma {:induction false} PlanAgrees(
    sha: string -> string, current: seq<NormalizedObject>, target: seq<NormalizedObject>, ops: seq<Operation>)
    requires KeyFunctional(target) && IsPlan(sha, current, target, ops)
    ensures forall op :: op in ops <==> op in Unsorted(sha, current, target)
    ensures forall op :: op in ops ==> Wanted(op, AttrsOf(current), AttrsOf(target))
    ensures Agree(ops)
  {
    var all := Unsorted(sha, current, target);
    assert forall op :: op in ops <==> op in multiset(ops);
    assert forall op :: op in all <==> op in multiset(all);
    forall op | op in ops ensures Wanted(op, AttrsOf(current), AttrsOf(target)) {
      PlannedIsWanted(sha, current, target, op);
    }
  }

  /**
   Which operations a plan holds, told from the objects of the two lists: a deletion for every current object whose key
   no target has, a creation for every target whose key no current object has, and an update for every target whose
   attributes print differently from those of the last current object under its key.
   */
  lemma {:induction false} PlannedExactly(
    sha: string -> string, current: seq<NormalizedObject>, target: seq<NormalizedObject>, ops: seq<Operation>,
    op: Operation)
    requires IsPlan(sha, current, target, ops)
    ensures op in ops <==>
            || (exists o :: o in current && Removed(sha, target, o, op))
            || (exists o :: o in target && Targeted(sha, current, o, op))
  {
    var all := Unsorted(sha, current, target);
    assert op in ops <==> op in multiset(ops);
    assert op in all <==> op in multiset(all);
    PlanMembers(sha, current, target, op);
    forall o ensures DeleteOp(sha, AttrsOf(target))(o) == Some(op) <==> Removed(sha, target, o, op) {
      RemovedExactly(sha, target, o, op);
    }
    forall o ensures TargetOp(sha, AttrsOf(current))(o) == Some(op) <==> Targeted(sha, current, o, op) {
      TargetedExactly(sha, current, o, op);
    }
  }

  /** What a current object without a target asks for. */
  ghost predicate Removed(sha: string -> string, target: seq<NormalizedObject>, o: NormalizedObject, op: Operation) {
    && (forall t :: t in target ==> t.key != o.key)
    && op == Operation(Delete, o.key, o.objectType, sha("delete:" + o.key + ":"), None, None)
  }

  lemma {:induction false} RemovedExactly(
    sha: string -> string, target: seq<NormalizedObject>, o: NormalizedObject, op: Operation)
    ensures DeleteOp(sha, AttrsOf(target))(o) == Some(op) <==> Removed(sha, target, o, op)
  {
    AttrsOfKeys(target, o.key);
    KeyTexts(sha, o.key, map[]);
  }

  /** What a target object asks for. */
  ghost predicate Targeted(
    sha: string -> string, current: seq<NormalizedObject>, o: NormalizedObject, op: Operation) {
    || ((forall c :: c in current ==> c.key != o.key)
        && op == Operation(Create, o.key, o.objectType, sha("create:" + o.key + ":" + Canon(Obj(o.attrs))),
                           Some(o.attrs), None))
    || (exists c :: LastUnderKey(current, c) && c.key == o.key && Canon(Obj(c.attrs)) != Canon(Obj(o.attrs))
          && op == Operation(Update, o.key, o.objectType, sha("update:" + o.key + ":" + Canon(Obj(o.attrs))),
                             Some(o.attrs), Some(c.attrs)))
  }

  lemma {:induction false} KeyTexts(sha: string -> string, key: string, attrs: Attrs)
    ensures IdempotencyKey(sha, Delete, key, None) == sha("delete:" + key + ":")
    ensures IdempotencyKey(sha, Create, key, Some(attrs)) == sha("create:" + key + ":" + Canon(Obj(attrs)))
    ensures IdempotencyKey(sha, Update, key, Some(attrs)) == sha("update:" + key + ":" + Canon(Obj(attrs)))
  {
    assert "delete" + ":" == "delete:" && "delete:" + key + ":" + "" == "delete:" + key + ":";
    assert "create" + ":" == "create:" && "update" + ":" == "update:";
  }

  lemma {:induction false} TargetedExactly(
    sha: string -> string, current: seq<NormalizedObject>, o: NormalizedObject, op: Operation)
    ensures TargetOp(sha, AttrsOf(current))(o) == Some(op) <==> Targeted(sha, current, o, op)
  {
    KeyTexts(sha, o.key, o.attrs);
    if o.key in AttrsOf(current) {
      var last := LastFound(current, o.key);
      OnlyLast(current, last);
    } else {
      NoneUnderKey(current, o.key);
    }
  }

  lemma {:induction false} OnlyLast(objects: seq<NormalizedObject>, last: NormalizedObject)
    requires LastUnderKey(objects, last)
    ensures last in objects && forall c :: LastUnderKey(objects, c) && c.key == last.key ==> c == last
  {
    forall c | LastUnderKey(objects, c) && c.key == last.key ensures c == last { LastIsUnique(objects, c, last); }
    var i :| 0 <= i < |objects| && objects[i] == last;
  }

  lemma {:induction false} NoneUnderKey(objects: seq<NormalizedObject>, key: string)
    requires key !in AttrsOf(objects)
    ensures (forall o :: o in objects ==> o.key != key) && forall o :: LastUnderKey(objects, o) ==> o.key != key
  {
    AttrsOfKeys(objects, key);
    forall o | LastUnderKey(objects, o) ensures o.key != key {
      var i :| 0 <= i < |objects| && objects[i] == o;
      assert o in objects;
    }
  }

  // ---------------------------------------------------------------- main results

  lemma {:induction false} PlanConvergesAt(
    sha: string -> string, current: seq<NormalizedObject>, target: seq<NormalizedObject>, ops: seq<Operation>,
    key: string)
    requires KeyFunctional(target) && AllDecoded(current) && AllDecoded(target)
    requires IsPlan(sha, current, target, ops)
    ensures Lookup(ApplyAll(ops, AttrsOf(current)), key) == Lookup(AttrsOf(target), key)
  {
    PlanAgrees(sha, current, target, ops);
    ApplyAllLookup(ops, AttrsOf(current), key);
    if Lookup(AttrsOf(current), key) != Lookup(AttrsOf(target), key) {
      DifferenceIsPlanned(sha, current, target, key);
    }
  }

  lemma {:induction false} SameLookups(a: map<string, Attrs>, b: map<string, Attrs>)
    requires forall k :: Lookup(a, k) == Lookup(b, k)
    ensures a == b
  {
    assert forall k :: k in a <==> Lookup(a, k).Some?;
    assert forall k :: k in b <==> Lookup(b, k).Some?;
  }

  /** Running a plan, in any order the sort may leave it, turns the current state into the target. */
  lemma {:induction false} PlanConverges(
    sha: string -> string, current: seq<NormalizedObject>, target: seq<NormalizedObject>, ops: seq<Operation>)
    requires KeyFunctional(target) && AllDecoded(current) && AllDecoded(target)
    requires IsPlan(sha, current, target, ops)
    ensures ApplyAll(ops, AttrsOf(current)) == AttrsOf(target)
  {
    forall k { PlanConvergesAt(sha, current, target, ops, k); }
    SameLookups(ApplyAll(ops, AttrsOf(current)), AttrsOf(target));
  }

  /** A plan holds an operation on a key exactly when the two states differ there. */
  lemma {:induction false} PlanIsMinimal(
    sha: string -> string, current: seq<NormalizedObject>, target: seq<NormalizedObject>, ops: seq<Operation>,
    key: string)
    requires KeyFunctional(target) && AllDecoded(current) && AllDecoded(target)
    requires IsPlan(sha, current, target, ops)
    ensures (exists op :: op in ops && op.target == key) <==>
            Lookup(AttrsOf(current), key) != Lookup(AttrsOf(target), key)
  {
    PlanAgrees(sha, current, target, ops);
    if Lookup(AttrsOf(current), key) != Lookup(AttrsOf(target), key) {
      DifferenceIsPlanned(sha, current, target, key);
    }
  }

  /** Planning again from what a plan produced gives nothing to do. */
  lemma {:induction false} ReplanIsEmpty(sha: string -> string, current: seq<NormalizedObject>,
    target: seq<NormalizedObject>, ops: seq<Operation>,
                      after: seq<NormalizedObject>, again: seq<Operation>)
    requires KeyFunctional(target) && AllDecoded(current) && AllDecoded(target)
    requires IsPlan(sha, current, target, ops)
    requires AttrsOf(after) == ApplyAll(ops, AttrsOf(current))
    requires IsPlan(sha, after, target, again)
    ensures again == []
  {
    PlanConverges(sha, current, target, ops);
    PlanAgrees(sha, after, target, again);
    assert Elements(again) == {};
    NoElements(again);
  }

  lemma {:induction false} OpLessTies(x: Operation, y: Operation)
    requires !OpLess(x, y) && !OpLess(y, x)
    ensures x.opType == y.opType && x.target == y.target
  {
    StrLessTotal(x.target, y.target);
  }

  lemma {:induction false} OpLessWeakOrder()
    ensures WeakOrder(OpLess)
  {
    StrLessWeakOrder();
  }

  lemma {:induction false} OriginOf(
    sha: string -> string, current: seq<NormalizedObject>, target: seq<NormalizedObject>, op: Operation)
    returns (o: NormalizedObject)
    requires op in Unsorted(sha, current, target)
    ensures o.key == op.target && (op.opType == Delete <==> op.target !in AttrsOf(target))
    ensures if op.opType == Delete then o in current && DeleteOp(sha, AttrsOf(target))(o) == Some(op)
            else o in target && TargetOp(sha, AttrsOf(current))(o) == Some(op)
  {
    PlanMembers(sha, current, target, op);
    if x :| x in current && DeleteOp(sha, AttrsOf(target))(x) == Some(op) {
      o := x;
    } else {
      o :| o in target && TargetOp(sha, AttrsOf(current))(o) == Some(op);
      AttrsOfKeys(target, o.key);
    }
  }

  /** One key leaves one possible operation. */
  lemma {:induction false} SameTargetSameOp(
    sha: string -> string, current: seq<NormalizedObject>, target: seq<NormalizedObject>, x: Operation, y: Operation)
    requires KeyFunctional(current) && KeyFunctional(target)
    requires x in Unsorted(sha, current, target) && y in Unsorted(sha, current, target)
    requires x.target == y.target
    ensures x == y
  {
    var a := OriginOf(sha, current, target, x);
    var b := OriginOf(sha, current, target, y);
  }

  /** Permuting either input list leaves the plan unchanged, although the sort is unstable. */
  lemma {:induction false} PlanIsDeterministic(sha: string -> string, current: seq<NormalizedObject>,
    target: seq<NormalizedObject>,
                            current': seq<NormalizedObject>, target': seq<NormalizedObject>,
                            ops: seq<Operation>, ops': seq<Operation>)
    requires KeyFunctional(current) && KeyFunctional(target)
    requires multiset(current') == multiset(current) && multiset(target') == multiset(target)
    requires IsPlan(sha, current, target, ops) && IsPlan(sha, current', target', ops')
    ensures ops == ops'
  {
    AttrsOfPermutation(current, current');
    AttrsOfPermutation(target, target');
    CollectPermutation(DeleteOp(sha, AttrsOf(target)), current, current');
    CollectPermutation(TargetOp(sha, AttrsOf(current)), target, target');
    var all := Unsorted(sha, current, target);
    forall x, y | x in multiset(ops) && y in multiset(ops) && !OpLess(x, y) && !OpLess(y, x) ensures x == y {
      OpLessTies(x, y);
      assert x in multiset(all) && y in multiset(all);
      SameTargetSameOp(sha, current, target, x, y);
    }
    SortUnique(OpLess, ops, ops');
  }

  // ---------------------------------------------------------------- one operation per key, and drift

  ghost predicate NamesItsObject(f: NormalizedObject -> Option<Operation>) {
    forall o :: f(o).Some? ==> f(o).value.target == o.key
  }

  ghost function Targets(ops: seq<Operation>): (r: seq<string>)
    ensures |r| == |ops| && forall i :: 0 <= i < |ops| ==> r[i] == ops[i].target
  {
    MapSeq((op: Operation) => op.target, ops)
  }

  lemma {:induction false} CollectDistinctTargets(f: NormalizedObject -> Option<Operation>, s: seq<NormalizedObject>)
    requires UniqueKeys(s) && NamesItsObject(f)
    ensures Distinct(Targets(Collect(f, s)))
    ensures forall op :: op in Collect(f, s) ==> exists o :: o in s && o.key == op.target && f(o) == Some(op)
  {
    if s != [] {
      var front, last := s[..|s| - 1], s[|s| - 1];
      assert s == front + [last];
      CollectDistinctTargets(f, front);
      var ops, all := Collect(f, front), Collect(f, s);
      assert all == ops + Kept(f(last));
      forall i | 0 <= i < |ops| ensures ops[i].target != last.key {
        var o :| o in front && o.key == ops[i].target && f(o) == Some(ops[i]);
        var j :| 0 <= j < |front| && front[j] == o;
        assert s[j].key != s[|s| - 1].key;
      }
      assert forall i, j :: 0 <= i < j < |ops| ==> Targets(ops)[i] != Targets(ops)[j];
    }
  }

  lemma {:induction false} DeletesMissTargets(
    sha: string -> string, current: seq<NormalizedObject>, target: seq<NormalizedObject>, x: Operation, y: Operation)
    requires x in Collect(DeleteOp(sha, AttrsOf(target)), current)
    requires y in Collect(TargetOp(sha, AttrsOf(current)), target)
    ensures x.target != y.target
  {
    CollectMember(DeleteOp(sha, AttrsOf(target)), current, x);
    CollectMember(TargetOp(sha, AttrsOf(current)), target, y);
    var j :| 0 <= j < |target| && TargetOp(sha, AttrsOf(current))(target[j]) == Some(y);
    assert target[j] in target;
    AttrsOfKeys(target, y.target);
  }

  lemma {:induction false} UnsortedTargetsDistinct(
    sha: string -> string, current: seq<NormalizedObject>, target: seq<NormalizedObject>)
    requires UniqueKeys(current) && UniqueKeys(target)
    ensures Distinct(Targets(Unsorted(sha, current, target)))
  {
    var d, t := DeleteOp(sha, AttrsOf(target)), TargetOp(sha, AttrsOf(current));
    assert Distinct(Targets(Collect(d, current))) by { CollectDistinctTargets(d, current); }
    assert Distinct(Targets(Collect(t, target))) by { CollectDistinctTargets(t, target); }
    forall x: Operation, y: Operation | x in Collect(d, current) && y in Collect(t, target)
      ensures x.target != y.target {
      DeletesMissTargets(sha, current, target, x, y);
    }
  }

  /** With unique keys no key is touched twice. */
  lemma {:induction false} OneOperationPerKey(
    sha: string -> string, current: seq<NormalizedObject>, target: seq<NormalizedObject>, ops: seq<Operation>)
    requires UniqueKeys(current) && UniqueKeys(target) && IsPlan(sha, current, target, ops)
    ensures forall i, j :: 0 <= i < j < |ops| ==> ops[i].target != ops[j].target
  {
    var all := Unsorted(sha, current, target);
    UnsortedTargetsDistinct(sha, current, target);
    MapPermutation((op: Operation) => op.target, all, ops);
    DistinctPermutation(Targets(all), Targets(ops));
    forall i, j | 0 <= i < j < |ops| ensures ops[i].target != ops[j].target {
      assert Targets(ops)[i] != Targets(ops)[j];
    }
  }

  /** `DriftValidator.Validate`: a key to create is absent, one to update or delete is present. */
  method ValidateDrift(t: OpType, key: string, snapshot: Option<seq<NormalizedObject>>) returns (accepted: bool)
    ensures accepted <==>
            snapshot.Some? && (t == Create <==> forall o :: o in snapshot.value ==> o.key != key)
  {
    if snapshot.None? { return false; }
    var objects := snapshot.value;
    var found, i := false, 0;
    while i < |objects|
      invariant 0 <= i <= |objects|
      invariant !found && forall j :: 0 <= j < i ==> objects[j].key != key
    {
      if objects[i].key == key {
        found := true;
        break;
      }
      i := i + 1;
    }
    assert found ==> objects[i] in objects;
    assert found <==> !forall o :: o in objects ==> o.key != key;
    match t
    case Create => accepted := !found;
    case Update => accepted := found;
    case Delete => accepted := found;
  }

  /** Executed step by step, each operation passes drift validation against what the earlier ones left. */
  lemma {:induction false} EveryStepPassesDrift(sha: string -> string, current: seq<NormalizedObject>,
    target: seq<NormalizedObject>,
                             ops: seq<Operation>, i: nat)
    requires UniqueKeys(current) && UniqueKeys(target)
    requires IsPlan(sha, current, target, ops) && i < |ops|
    ensures ops[i].opType == Create <==> ops[i].target !in ApplyAll(ops[..i], AttrsOf(current))
  {
    PlanAgrees(sha, current, target, ops);
    OneOperationPerKey(sha, current, target, ops);
    var op, done := ops[i], ops[..i];
    assert Agree(done);
    forall x | x in done ensures x.target != op.target {
      var j :| 0 <= j < |done| && done[j] == x;
      assert ops[j] == x;
    }
    ApplyAllLookup(done, AttrsOf(current), op.target);
    assert Wanted(op, AttrsOf(current), AttrsOf(target));
  }

  // ---------------------------------------------------------------- the planner

  /** `attributesEqual` compares canonical texts; on decoded attributes that is equality. */
  method AttributesEqual(a: Attrs, b: Attrs) returns (equal: bool)
    ensures equal <==> Canon(Obj(a)) == Canon(Obj(b))
    ensures Decoded(Obj(a)) && Decoded(Obj(b)) ==> (equal <==> a == b)
  {
    var x := CanonicalJSON(Obj(a));
    var y := CanonicalJSON(Obj(b));
    equal := x == y;
    if equal && Decoded(Obj(a)) && Decoded(Obj(b)) { CanonInjective(Obj(a), Obj(b)); }
  }

  method DeriveIdempotencyKey(
    sha: string -> string, t: OpType, target: string, payload: Option<Attrs>) returns (key: string)
    ensures key == IdempotencyKey(sha, t, target, payload)
  {
    var text := "";
    if payload.Some? { text := CanonicalJSON(Obj(payload.value)); }
    key := sha(TypeName(t) + ":" + target + ":" + text);
  }

  method IndexByKey(objects: seq<NormalizedObject>) returns (index: map<string, Attrs>)
    ensures index == AttrsOf(objects)
  {
    index := map[];
    for i := 0 to |objects|
      invariant index == AttrsOf(objects[..i])
    {
      assert objects[..i + 1][..i] == objects[..i];
      index := index[objects[i].key := objects[i].attrs];
    }
    assert objects[..|objects|] == objects;
  }

  method PlanDeletions(
    sha: string -> string, current: seq<NormalizedObject>, target: map<string, Attrs>) returns (ops: seq<Operation>)
    ensures ops == Collect(DeleteOp(sha, target), current)
  {
    ops := [];
    for i := 0 to |current|
      invariant ops == Collect(DeleteOp(sha, target), current[..i])
    {
      CollectStep(DeleteOp(sha, target), current, i);
      var o := current[i];
      if o.key !in target {
        var key := DeriveIdempotencyKey(sha, Delete, o.key, None);
        ops := ops + [Operation(Delete, o.key, o.objectType, key, None, None)];
      }
    }
    assert current[..|current|] == current;
  }

  method PlanOne(
    sha: string -> string, current: map<string, Attrs>, o: NormalizedObject) returns (op: Option<Operation>)
    ensures op == TargetOp(sha, current)(o)
  {
    if o.key !in current {
      var key := DeriveIdempotencyKey(sha, Create, o.key, Some(o.attrs));
      op := Some(Operation(Create, o.key, o.objectType, key, Some(o.attrs), None));
    } else {
      var equal := AttributesEqual(current[o.key], o.attrs);
      if equal {
        op := None;
      } else {
        var key := DeriveIdempotencyKey(sha, Update, o.key, Some(o.attrs));
        op := Some(Operation(Update, o.key, o.objectType, key, Some(o.attrs), Some(current[o.key])));
      }
    }
  }

  method PlanAdditionsAndUpdates(
    sha: string -> string, current: map<string, Attrs>, target: seq<NormalizedObject>) returns (ops: seq<Operation>)
    ensures ops == Collect(TargetOp(sha, current), target)
  {
    ops := [];
    for i := 0 to |target|
      invariant ops == Collect(TargetOp(sha, current), target[..i])
    {
      CollectStep(TargetOp(sha, current), target, i);
      var op := PlanOne(sha, current, target[i]);
      if op.Some? { ops := ops + [op.value]; }
    }
    assert target[..|target|] == target;
  }

  ghost function OfType(ops: seq<Operation>, t: OpType): nat {
    if ops == [] then 0 else OfType(ops[..|ops| - 1], t) + if ops[|ops| - 1].opType == t then 1 else 0
  }

  method CountType(ops: seq<Operation>, t: OpType) returns (count: nat)
    ensures count == OfType(ops, t)
  {
    count := 0;
    for i := 0 to |ops|
      invariant count == OfType(ops[..i], t)
    {
      assert ops[..i + 1][..i] == ops[..i];
      if ops[i].opType == t { count := count + 1; }
    }
    assert ops[..|ops|] == ops;
  }

  lemma {:induction false} CountsAddUp(ops: seq<Operation>)
    ensures OfType(ops, Create) + OfType(ops, Update) + OfType(ops, Delete) == |ops|
  {
    if ops != [] { CountsAddUp(ops[..|ops| - 1]); }
  }

  /** Deletions first, then updates, then creations. */
  ghost predicate InBlocks(ops: seq<Operation>, deletions: nat, updates: nat) {
    && deletions + updates <= |ops|
    && (forall i :: 0 <= i < deletions ==> ops[i].opType == Delete)
    && (forall i :: deletions <= i < deletions + updates ==> ops[i].opType == Update)
    && (forall i :: deletions + updates <= i < |ops| ==> ops[i].opType == Create)
  }

  /** Operations of one kind are in the order of their targets. */
  ghost predicate TargetsInOrder(ops: seq<Operation>) {
    forall i, j :: 0 <= i < j < |ops| && ops[i].opType == ops[j].opType ==>
      ops[i].target == ops[j].target || StrLess(ops[i].target, ops[j].target)
  }

  lemma {:induction false} SortedTargets(ops: seq<Operation>)
    requires SortedBy(OpLess, ops)
    ensures TargetsInOrder(ops)
  {
    forall i, j | 0 <= i < j < |ops| && ops[i].opType == ops[j].opType
      ensures ops[i].target == ops[j].target || StrLess(ops[i].target, ops[j].target) {
      assert !OpLess(ops[j], ops[i]);
      StrLessTotal(ops[i].target, ops[j].target);
    }
  }

  lemma {:induction false} SortedIsInBlocks(ops: seq<Operation>)
    requires SortedBy(OpLess, ops)
    ensures InBlocks(ops, OfType(ops, Delete), OfType(ops, Update))
  {
    if ops != [] {
      var n := |ops| - 1;
      SortedIsInBlocks(ops[..n]);
      CountsAddUp(ops[..n]);
      if n > 0 { assert !OpLess(ops[n], ops[n - 1]); }
      OneMoreInBlocks(ops[..n], ops[n], OfType(ops[..n], Delete), OfType(ops[..n], Update));
      assert ops == ops[..n] + [ops[n]];
    }
  }

  /** A last operation of one kind leaves no room for a later kind before it. */
  lemma {:induction false} OneMoreInBlocks(front: seq<Operation>, last: Operation, deletions: nat, updates: nat)
    requires InBlocks(front, deletions, updates) && (front != [] ==> !OpLess(last, front[|front| - 1]))
    ensures InBlocks(front + [last], deletions + if last.opType == Delete then 1 else 0,
                     updates + if last.opType == Update then 1 else 0)
  {
  }

  /** For every plan; with unique keys the targets of a kind increase strictly. */
  lemma {:induction false} PlanOrder(
    sha: string -> string, current: seq<NormalizedObject>, target: seq<NormalizedObject>, ops: seq<Operation>)
    requires IsPlan(sha, current, target, ops)
    ensures InBlocks(ops, OfType(ops, Delete), OfType(ops, Update)) && TargetsInOrder(ops)
    ensures UniqueKeys(current) && UniqueKeys(target) ==>
              forall i, j :: 0 <= i < j < |ops| && ops[i].opType == ops[j].opType ==>
                StrLess(ops[i].target, ops[j].target)
  {
    SortedIsInBlocks(ops);
    SortedTargets(ops);
    if UniqueKeys(current) && UniqueKeys(target) { OneOperationPerKey(sha, current, target, ops); }
  }

  /** `GenericPlanner.Plan`; no snapshot means an empty one.  The counts are those of the summary. */
  method Plan(sha: string -> string, current: Option<seq<NormalizedObject>>, target: seq<NormalizedObject>)
    returns (ops: seq<Operation>, creations: nat, updates: nat, deletions: nat)
    ensures IsPlan(sha, if current.Some? then current.value else [], target, ops)
    ensures creations + updates + deletions == |ops|
    ensures InBlocks(ops, deletions, updates) && TargetsInOrder(ops)
  {
    var objects := if current.Some? then current.value else [];
    var currentMap := IndexByKey(objects);
    var targetMap := IndexByKey(target);
    var removed := PlanDeletions(sha, objects, targetMap);
    var changed := PlanAdditionsAndUpdates(sha, currentMap, target);
    OpLessWeakOrder();
    ops := SortSlice(OpLess, removed + changed);
    creations := CountType(ops, Create);
    updates := CountType(ops, Update);
    deletions := CountType(ops, Delete);
    CountsAddUp(ops);
    SortedIsInBlocks(ops);
    SortedTargets(ops);
  }
}
