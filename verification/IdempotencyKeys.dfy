/** What `deriveIdempotencyKey` hashes: type, target and canonical payload. */
module IdempotencyKeys {
  import opened Orders
  import opened CanonicalJson
  import opened SnapshotModel
  import opened Planner

  // The three are joined by colons.  Targets and payloads hold colons themselves, so that the joint is found only
  // because a canonical object never ends in another one that follows a colon: its brackets and quotes would not
  // balance.

  // ---------------------------------------------------------------- reading a text bracket by bracket

  datatype Scan = Scan(escaped: bool, quoted: bool, depth: int)

  function Outside(depth: int): Scan { Scan(false, false, depth) }

  function Step(s: Scan, c: char): Scan {
    if s.escaped then s.(escaped := false)
    else if c == '\\' then s.(escaped := true)
    else if c == '\"' then s.(quoted := !s.quoted)
    else if s.quoted then s
    else if c == '{' || c == '[' then s.(depth := s.depth + 1)
    else if c == '}' || c == ']' then s.(depth := s.depth - 1)
    else s
  }

  ghost function After(s: Scan, text: string): Scan {
    if text == [] then s else Step(After(s, text[..|text| - 1]), text[|text| - 1])
  }

  lemma {:induction false} AfterAppend(s: Scan, a: string, b: string)
    ensures After(s, a + b) == After(After(s, a), b)
    decreases |b|
  {
    if b == [] {
      assert a + b == a;
    } else {
      AfterAppend(s, a, b[..|b| - 1]);
      assert (a + b)[..|a + b| - 1] == a + b[..|b| - 1];
    }
  }

  /** Read from outside any string, the text ends where it began and never closes a bracket it did not open. */
  ghost predicate Neutral(text: string) {
    forall d: int :: After(Outside(d), text) == Outside(d) && StaysAbove(text, d)
  }

  ghost predicate StaysAbove(text: string, d: int) {
    forall n: nat :: n <= |text| ==> After(Outside(d), text[..n]).depth >= d
  }

  lemma {:induction false} PrefixOfJoin(a: string, b: string, d: int, n: nat)
    requires Neutral(a) && n <= |a + b|
    requires n > |a| ==> After(Outside(d), b[..n - |a|]).depth >= d
    ensures After(Outside(d), (a + b)[..n]).depth >= d
  {
    if n <= |a| {
      assert (a + b)[..n] == a[..n];
      assert StaysAbove(a, d);
    } else {
      assert (a + b)[..n] == a + b[..n - |a|];
      AfterAppend(Outside(d), a, b[..n - |a|]);
    }
  }

  lemma {:induction false} NeutralJoin(a: string, b: string)
    requires Neutral(a) && Neutral(b)
    ensures Neutral(a + b)
  {
    forall d: int ensures After(Outside(d), a + b) == Outside(d) && StaysAbove(a + b, d) {
      AfterAppend(Outside(d), a, b);
      assert StaysAbove(b, d);
      forall n: nat | n <= |a + b| ensures After(Outside(d), (a + b)[..n]).depth >= d { PrefixOfJoin(a, b, d, n); }
    }
  }

  predicate Plain(c: char) { c !in "\\\"{}[]" }

  lemma {:induction false} PlainAfter(text: string, d: int)
    requires forall i :: 0 <= i < |text| ==> Plain(text[i])
    ensures After(Outside(d), text) == Outside(d)
  {
    if text != [] { PlainAfter(text[..|text| - 1], d); }
  }

  lemma {:induction false} PlainIsNeutral(text: string)
    requires forall i :: 0 <= i < |text| ==> Plain(text[i])
    ensures Neutral(text)
  {
    forall d: int ensures After(Outside(d), text) == Outside(d) && StaysAbove(text, d) {
      PlainAfter(text, d);
      forall n: nat | n <= |text| ensures After(Outside(d), text[..n]).depth >= d { PlainAfter(text[..n], d); }
    }
  }

  lemma {:induction false} Enclosed(open: char, body: string, close: char, d: int)
    requires Neutral(body) && (open == '{' || open == '[') && (close == '}' || close == ']')
    ensures After(Outside(d), [open] + body) == Outside(d + 1)
    ensures After(Outside(d), [open] + body + [close]) == Outside(d)
    ensures forall m: nat :: m <= |body| ==> After(Outside(d), [open] + body[..m]).depth >= d + 1
  {
    AfterAppend(Outside(d), [open], body);
    AfterAppend(Outside(d), [open] + body, [close]);
    assert StaysAbove(body, d + 1);
    forall m: nat | m <= |body| ensures After(Outside(d), [open] + body[..m]).depth >= d + 1 {
      AfterAppend(Outside(d), [open], body[..m]);
    }
  }

  lemma {:induction false} EnclosedIsNeutral(open: char, body: string, close: char)
    requires Neutral(body) && (open == '{' || open == '[') && (close == '}' || close == ']')
    ensures Neutral([open] + body + [close])
  {
    var text := [open] + body + [close];
    forall d: int ensures After(Outside(d), text) == Outside(d) && StaysAbove(text, d) {
      Enclosed(open, body, close, d);
      forall n: nat | n <= |text| ensures After(Outside(d), text[..n]).depth >= d {
        if n == 0 {
          assert text[..n] == [];
        } else if n < |text| {
          assert text[..n] == [open] + body[..n - 1];
        } else {
          assert text[..n] == text;
        }
      }
    }
  }

  // ---------------------------------------------------------------- strings

  /** A printed character is one harmless character, or a backslash, a code, and harmless digits. */
  lemma {:induction false} EscapeShape(c: char)
    ensures var text := EscapeChar(c);
            if |text| == 1 then text[0] != '\\' && text[0] != '\"'
            else |text| >= 2 && text[0] == '\\' && forall i :: 2 <= i < |text| ==> text[i] != '\\' && text[i] != '\"'
  {
    if |EscapeChar(c)| > 2 {
      var n := c as int;
    }
  }

  /** Inside a string every printed character leaves the reader inside it, at the same depth. */
  lemma {:induction false} EscapeStaysInside(c: char, d: int)
    ensures After(Scan(false, true, d), EscapeChar(c)) == Scan(false, true, d)
  {
    var text := EscapeChar(c);
    var s := Scan(false, true, d);
    EscapeShape(c);
    if |text| == 1 {
    } else {
      var code, rest := text[1], text[2..];
      assert text == ['\\'] + [code] + rest;
      AfterAppend(s, ['\\'] + [code], rest);
      AfterAppend(s, ['\\'], [code]);
      assert forall i :: 0 <= i < |rest| ==> rest[i] == text[i + 2];
      InsideRun(rest, d);
    }
  }

  lemma {:induction false} InsideRun(text: string, d: int)
    requires forall i :: 0 <= i < |text| ==> text[i] != '\\' && text[i] != '\"'
    ensures After(Scan(false, true, d), text) == Scan(false, true, d)
  {
    if text != [] { InsideRun(text[..|text| - 1], d); }
  }

  lemma {:induction false} EscapeTextStaysInside(text: string, d: int)
    ensures After(Scan(false, true, d), EscapeText(text)) == Scan(false, true, d)
  {
    if text != [] {
      EscapeStaysInside(text[0], d);
      EscapeTextStaysInside(text[1..], d);
      AfterAppend(Scan(false, true, d), EscapeChar(text[0]), EscapeText(text[1..]));
    }
  }

  /** Every prefix of an escaped text leaves the reader inside. */
  lemma {:induction false} PrefixStaysInside(text: string, d: int, n: nat)
    requires n <= |EscapeText(text)|
    ensures var s := After(Scan(false, true, d), EscapeText(text)[..n]); s.quoted && s.depth == d
  {
    var inside := Scan(false, true, d);
    if text == [] {
      assert EscapeText(text)[..n] == [];
    } else {
      var head, tail := EscapeChar(text[0]), EscapeText(text[1..]);
      if n < |head| {
        assert (head + tail)[..n] == head[..n];
        CharPrefixInside(text[0], d, n);
      } else {
        assert (head + tail)[..n] == head + tail[..n - |head|];
        AfterAppend(inside, head, tail[..n - |head|]);
        EscapeStaysInside(text[0], d);
        PrefixStaysInside(text[1..], d, n - |head|);
      }
    }
  }

  lemma {:induction false} CharPrefixInside(c: char, d: int, n: nat)
    requires n < |EscapeChar(c)|
    ensures var s := After(Scan(false, true, d), EscapeChar(c)[..n]); s.quoted && s.depth == d
  {
    var text, s := EscapeChar(c), Scan(false, true, d);
    EscapeShape(c);
    if n == 0 {
      assert text[..0] == [];
    } else if n == 1 {
      assert text[..1] == [text[0]];
    } else {
      assert text[..n] == ['\\'] + [text[1]] + text[2..n];
      AfterAppend(s, ['\\'] + [text[1]], text[2..n]);
      AfterAppend(s, ['\\'], [text[1]]);
      var tail := text[2..n];
      assert forall i :: 0 <= i < |tail| ==> tail[i] == text[i + 2];
      InsideRun(tail, d);
    }
  }

  lemma {:induction false} QuoteIsNeutral(text: string)
    ensures Neutral(Quote(text))
  {
    var body, quoted := EscapeText(text), Quote(text);
    forall d: int ensures After(Outside(d), quoted) == Outside(d) && StaysAbove(quoted, d) {
      AfterAppend(Outside(d), ['\"'], body);
      EscapeTextStaysInside(text, d);
      AfterAppend(Outside(d), ['\"'] + body, ['\"']);
      forall n: nat | n <= |quoted| ensures After(Outside(d), quoted[..n]).depth >= d {
        QuotePrefix(text, d, n);
      }
    }
  }

  lemma {:induction false} QuotePrefix(text: string, d: int, n: nat)
    requires n <= |Quote(text)|
    ensures After(Outside(d), Quote(text)[..n]).depth >= d
  {
    var body, quoted := EscapeText(text), Quote(text);
    if n == 0 {
      assert quoted[..n] == [];
    } else if n <= |body| + 1 {
      assert quoted[..n] == ['\"'] + body[..n - 1];
      AfterAppend(Outside(d), ['\"'], body[..n - 1]);
      PrefixStaysInside(text, d, n - 1);
    } else {
      assert quoted[..n] == ['\"'] + body + ['\"'];
      AfterAppend(Outside(d), ['\"'] + body, ['\"']);
      AfterAppend(Outside(d), ['\"'], body);
      EscapeTextStaysInside(text, d);
    }
  }

  // ---------------------------------------------------------------- whole values

  lemma {:induction false} AtomIsNeutral(v: Json)
    requires Decoded(v) && (v.Null? || v.Bool? || v.Num?)
    ensures Neutral(Canon(v))
  {
    if v.Num? { NumberChars(v.token); }
    PlainIsNeutral(Canon(v));
  }

  lemma {:induction false} CanonIsNeutral(v: Json)
    requires Decoded(v)
    ensures Neutral(Canon(v))
    decreases v, 1, 0
  {
    if v.Str? {
      QuoteIsNeutral(v.text);
    } else if v.Arr? {
      ItemsAreNeutral(v.items);
      EnclosedIsNeutral('[', CanonItems(v.items), ']');
    } else if v.Obj? {
      FieldsAreNeutral(v, SortedKeys(v.fields.Keys));
      EnclosedIsNeutral('{', CanonFields(v, SortedKeys(v.fields.Keys)), '}');
    } else {
      AtomIsNeutral(v);
    }
  }

  lemma {:induction false} ItemsAreNeutral(items: seq<Json>)
    requires forall x :: x in items ==> Decoded(x)
    ensures Neutral(CanonItems(items))
    decreases items, 0, 0
  {
    if items == [] {
      PlainIsNeutral("");
    } else {
      CanonIsNeutral(items[0]);
      if |items| > 1 {
        PlainIsNeutral(",");
        ItemsAreNeutral(items[1..]);
        NeutralJoin(Canon(items[0]), ",");
        NeutralJoin(Canon(items[0]) + ",", CanonItems(items[1..]));
      }
    }
  }

  lemma {:induction false} FieldIsNeutral(key: string, printed: string)
    requires Neutral(printed)
    ensures Neutral(Quote(key) + ":" + printed)
  {
    QuoteIsNeutral(key);
    PlainIsNeutral(":");
    NeutralJoin(Quote(key), ":");
    NeutralJoin(Quote(key) + ":", printed);
  }

  lemma {:induction false} FieldsAreNeutral(v: Json, keys: seq<string>)
    requires v.Obj? && Decoded(v) && forall k :: k in keys ==> k in v.fields
    ensures Neutral(CanonFields(v, keys))
    decreases v, 0, |keys|
  {
    if keys == [] {
      PlainIsNeutral("");
    } else {
      var value := v.fields[keys[0]];
      CanonIsNeutral(value);
      FieldIsNeutral(keys[0], Canon(value));
      if |keys| > 1 {
        PlainIsNeutral(",");
        FieldsAreNeutral(v, keys[1..]);
        NeutralJoin(Quote(keys[0]) + ":" + Canon(value), ",");
        NeutralJoin(Quote(keys[0]) + ":" + Canon(value) + ",", CanonFields(v, keys[1..]));
      }
    }
  }

  // ---------------------------------------------------------------- no object ends in another one

  /** Started inside a string instead of outside, the reader ends inside instead of outside. */
  lemma {:induction false} ParityShift(text: string, escaped: bool, quoted: bool, d: int, d': int)
    ensures var s, s' := After(Scan(escaped, quoted, d), text), After(Scan(escaped, !quoted, d'), text);
            s'.escaped == s.escaped && s'.quoted == !s.quoted
  {
    if text != [] { ParityShift(text[..|text| - 1], escaped, quoted, d, d'); }
  }

  lemma {:induction false} ObjectPrefix(v: Json, n: nat)
    requires v.Obj? && Decoded(v) && 0 < n < |Canon(v)|
    ensures After(Outside(0), Canon(v)[..n]).depth >= 1
  {
    var body := CanonFields(v, SortedKeys(v.fields.Keys));
    FieldsAreNeutral(v, SortedKeys(v.fields.Keys));
    Enclosed('{', body, '}', 0);
    assert Canon(v)[..n] == ['{'] + body[..n - 1];
  }

  /** A balanced text that follows a colon inside brackets cannot close them. */
  lemma {:induction false} BalancedTailLeavesOpen(p: string, t: string)
    requires Neutral(t) && p != "" && p[|p| - 1] == ':' && After(Outside(0), p).depth >= 1
    ensures After(Outside(0), p + t) != Outside(0)
  {
    var s := After(Outside(0), p);
    AfterAppend(Outside(0), p, t);
    assert After(Outside(s.depth), t) == Outside(s.depth);
    ParityShift(t, false, false, s.depth, s.depth);
  }

  /** A canonical object is not the end of another one that has a colon just before it. */
  lemma {:induction false} NoObjectEndsInAnother(v: Json, n: nat, w: Json)
    requires v.Obj? && Decoded(v) && w.Obj? && Decoded(w)
    requires 0 < n < |Canon(v)| && Canon(v)[n - 1] == ':'
    ensures Canon(v)[n..] != Canon(w)
  {
    var text := Canon(v);
    ObjectPrefix(v, n);
    CanonIsNeutral(v);
    CanonIsNeutral(w);
    assert After(Outside(0), text) == Outside(0);
    BalancedTailLeavesOpen(text[..n], Canon(w));
    assert text == text[..n] + text[n..];
  }

  // ---------------------------------------------------------------- the hashed text

  ghost function PayloadText(payload: Option<Attrs>): string {
    if payload.Some? then Canon(Obj(payload.value)) else ""
  }

  ghost function KeyText(t: OpType, target: string, payload: Option<Attrs>): string {
    TypeName(t) + ":" + target + ":" + PayloadText(payload)
  }

  /** The longer payload text cannot hide the joint. */
  lemma {:induction false} JointIsFixed(x: string, a: string, y: string, b: string)
    requires x + ":" + a == y + ":" + b && |a| > |b|
    ensures a[|a| - |b|..] == b && a[|a| - |b| - 1] == ':'
  {
    var text := x + ":" + a;
    var k := |text| - |b|;
    assert text[k..] == b && text[k - 1] == ':';
    assert text[|x| + 1..] == a;
    assert text[k..] == a[|a| - |b|..];
    assert text[k - 1] == a[|a| - |b| - 1];
  }

  lemma {:induction false} LongerPayload(x: string, p: Option<Attrs>, y: string, q: Option<Attrs>)
    requires p.Some? ==> Decoded(Obj(p.value))
    requires q.Some? ==> Decoded(Obj(q.value))
    requires |PayloadText(p)| > |PayloadText(q)|
    ensures x + ":" + PayloadText(p) != y + ":" + PayloadText(q)
  {
    var a, b := PayloadText(p), PayloadText(q);
    if q.Some? && a[|a| - |b| - 1] == ':' { NoObjectEndsInAnother(Obj(p.value), |a| - |b|, Obj(q.value)); }
    if x + ":" + a == y + ":" + b {
      JointIsFixed(x, a, y, b);
    }
  }

  lemma {:induction false} TargetAndPayload(x: string, p: Option<Attrs>, y: string, q: Option<Attrs>)
    requires p.Some? ==> Decoded(Obj(p.value))
    requires q.Some? ==> Decoded(Obj(q.value))
    requires x + ":" + PayloadText(p) == y + ":" + PayloadText(q)
    ensures x == y && p == q
  {
    var a, b := PayloadText(p), PayloadText(q);
    if |a| > |b| { LongerPayload(x, p, y, q); }
    if |b| > |a| { LongerPayload(y, q, x, p); }
    assert x == (x + ":" + a)[..|x|] && y == (y + ":" + b)[..|y|];
    assert a == (x + ":" + a)[|x| + 1..] && b == (y + ":" + b)[|y| + 1..];
    if p.Some? && q.Some? { CanonInjective(Obj(p.value), Obj(q.value)); }
  }

  lemma {:induction false} TypeAndRest(t: OpType, a: string, u: OpType, b: string)
    requires TypeName(t) + ":" + a == TypeName(u) + ":" + b
    ensures t == u && a == b
  {
    SplitAtColon(TypeName(t), a, TypeName(u), b);
  }

  lemma {:induction false} KeyTextParts(t: OpType, target: string, payload: Option<Attrs>)
    ensures KeyText(t, target, payload) == TypeName(t) + ":" + (target + ":" + PayloadText(payload))
  {
  }

  /** The hashed text fixes type, target and payload, colons in targets and payloads notwithstanding. */
  lemma {:induction false} KeyTextUnambiguous(
    t: OpType, x: string, p: Option<Attrs>, u: OpType, y: string, q: Option<Attrs>)
    requires p.Some? ==> Decoded(Obj(p.value))
    requires q.Some? ==> Decoded(Obj(q.value))
    requires KeyText(t, x, p) == KeyText(u, y, q)
    ensures t == u && x == y && p == q
  {
    KeyTextParts(t, x, p);
    KeyTextParts(u, y, q);
    TypeAndRest(t, x + ":" + PayloadText(p), u, y + ":" + PayloadText(q));
    TargetAndPayload(x, p, y, q);
  }

  /** So two operations share an idempotency key only if they do the same, or the hash collides on two different
      texts. */
  lemma {:induction false} SameKeySameOperation(sha: string -> string, t: OpType, x: string, p: Option<Attrs>,
                                                u: OpType, y: string, q: Option<Attrs>)
    requires p.Some? ==> Decoded(Obj(p.value))
    requires q.Some? ==> Decoded(Obj(q.value))
    requires IdempotencyKey(sha, t, x, p) == IdempotencyKey(sha, u, y, q)
    ensures (t == u && x == y && p == q) ||
            (KeyText(t, x, p) != KeyText(u, y, q) && sha(KeyText(t, x, p)) == sha(KeyText(u, y, q)))
  {
    if KeyText(t, x, p) == KeyText(u, y, q) { KeyTextUnambiguous(t, x, p, u, y, q); }
  }

  ghost function TextOf(op: Operation): string { KeyText(op.opType, op.target, op.payload) }

  lemma {:induction false} PlannedKey(
    sha: string -> string, current: seq<NormalizedObject>, target: seq<NormalizedObject>, op: Operation)
    requires op in Unsorted(sha, current, target) && AllDecoded(target)
    ensures op.idempotencyKey == sha(TextOf(op)) && (op.payload.Some? ==> Decoded(Obj(op.payload.value)))
  {
    var o := OriginOf(sha, current, target, op);
  }

  /** In a plan over unique keys no two operations share an idempotency key, unless the hash collides on their texts. */
  lemma {:induction false} PlannedKeysDiffer(sha: string -> string, current: seq<NormalizedObject>,
    target: seq<NormalizedObject>,
                                             ops: seq<Operation>, i: nat, j: nat)
    requires UniqueKeys(current) && UniqueKeys(target) && AllDecoded(target) && IsPlan(sha, current, target, ops)
    requires i < j < |ops|
    ensures TextOf(ops[i]) != TextOf(ops[j])
    ensures ops[i].idempotencyKey == ops[j].idempotencyKey ==> sha(TextOf(ops[i])) == sha(TextOf(ops[j]))
  {
    OneOperationPerKey(sha, current, target, ops);
    assert ops[i] in multiset(ops) && ops[j] in multiset(ops);
    PlannedKey(sha, current, target, ops[i]);
    PlannedKey(sha, current, target, ops[j]);
    if TextOf(ops[i]) == TextOf(ops[j]) {
      KeyTextUnambiguous(ops[i].opType, ops[i].target, ops[i].payload, ops[j].opType, ops[j].target, ops[j].payload);
    }
  }
}
