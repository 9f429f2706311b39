/** `snapshot.Builder`: normalising provider objects, ordering them, and hashing the result. */
module SnapshotModel {
  import opened Orders
  import opened CanonicalJson

  // `sha` and `shortSha` stand for the hex digests of SHA-256 (all 32 bytes, and the first 16); `lower` for
  // `strings.ToLower`.  Nothing is assumed about any of them.

  type Attrs = map<string, Json>

  /** What one capture stamps on every object. */
  datatype Metadata = Metadata(sourcePage: int, capturedAt: int, schemaVersion: int)

  datatype NormalizedObject = NormalizedObject(
    objectId: string,
    objectType: string,
    key: string,
    attrs: Attrs,
    metadata: Metadata)

  datatype ResourceType = IpAccessRules | ListItems | Lists | Other(name: string)

  function ResourceName(rt: ResourceType): string {
    match rt
    case IpAccessRules => "ip_access_rules"
    case ListItems => "list_items"
    case Lists => "lists"
    case Other(name) => name
  }

  // ---------------------------------------------------------------- normalising attributes

  /** `unicode.IsSpace`. */
  predicate IsSpace(c: char) {
    '\t' <= c <= '\r' || c == ' ' || c == '\U{85}' || c == '\U{A0}' || c == '\U{1680}' || '\U{2000}' <= c <= '\U{200A}'
    || c == '\U{2028}' || c == '\U{2029}' || c == '\U{202F}' || c == '\U{205F}' || c == '\U{3000}'
  }

  /** The twenty-five spaces of Unicode, one by one. */
  lemma {:induction false} SpacesExactly(c: char)
    ensures IsSpace(c) <==>
            || c in "\t\n\U{B}\U{C}\r \U{85}\U{A0}\U{1680}\U{2000}\U{2001}\U{2002}\U{2003}\U{2004}\U{2005}"
            || c in "\U{2006}\U{2007}\U{2008}\U{2009}\U{200A}\U{2028}\U{2029}\U{202F}\U{205F}\U{3000}"
  {
  }

  function TrimLeft(space: char -> bool, s: string): (r: string)
    ensures r == [] || !space(r[0])
  {
    if s != [] && space(s[0]) then TrimLeft(space, s[1..]) else s
  }

  function TrimRight(space: char -> bool, s: string): (r: string)
    ensures r == [] || !space(r[|r| - 1])
    ensures r <= s
  {
    if s != [] && space(s[|s| - 1]) then TrimRight(space, s[..|s| - 1]) else s
  }

  function Trim(space: char -> bool, s: string): string { TrimRight(space, TrimLeft(space, s)) }

  /** `strings.TrimSpace`. */
  function TrimSpace(s: string): string { Trim(IsSpace, s) }

  lemma {:induction false} TrimTwice(space: char -> bool, s: string)
    ensures Trim(space, Trim(space, s)) == Trim(space, s)
  {
    var r := Trim(space, s);
    assert r == [] || r[0] == TrimLeft(space, s)[0];
  }

  lemma {:induction false} TrimIdempotent(s: string)
    ensures TrimSpace(TrimSpace(s)) == TrimSpace(s)
  {
    TrimTwice(IsSpace, s);
  }

  ghost predicate All(space: char -> bool, s: string) { forall k :: 0 <= k < |s| ==> space(s[k]) }

  /** What trimming leaves: the text without the spaces before and after it, and nothing else is lost. */
  lemma {:induction false} TrimExactly(s: string) returns (before: string, after: string)
    ensures s == before + TrimSpace(s) + after && All(IsSpace, before) && All(IsSpace, after)
    ensures TrimSpace(s) != [] ==> !IsSpace(TrimSpace(s)[0]) && !IsSpace(TrimSpace(s)[|TrimSpace(s)| - 1])
  {
    before := LeftTrimmed(IsSpace, s);
    after := RightTrimmed(IsSpace, TrimLeft(IsSpace, s));
    TrimmedEnds(IsSpace, s);
  }

  lemma {:induction false} TrimmedEnds(space: char -> bool, s: string)
    ensures Trim(space, s) != [] ==> !space(Trim(space, s)[0]) && !space(Trim(space, s)[|Trim(space, s)| - 1])
  {
    var r := Trim(space, s);
    assert r == [] || r[0] == TrimLeft(space, s)[0];
  }

  lemma {:induction false} LeftTrimmed(space: char -> bool, s: string) returns (before: string)
    ensures s == before + TrimLeft(space, s) && All(space, before)
  {
    before := [];
    if s != [] && space(s[0]) {
      var more := LeftTrimmed(space, s[1..]);
      before := [s[0]] + more;
      assert s == [s[0]] + s[1..] == [s[0]] + (more + TrimLeft(space, s[1..]));
    }
  }

  lemma {:induction false} RightTrimmed(space: char -> bool, s: string) returns (after: string)
    ensures s == TrimRight(space, s) + after && All(space, after)
  {
    after := [];
    if s != [] && space(s[|s| - 1]) {
      var more := RightTrimmed(space, s[..|s| - 1]);
      after := more + [s[|s| - 1]];
      assert s == s[..|s| - 1] + [s[|s| - 1]];
    }
  }

  function NormalizeValue(v: Json): Json { if v.Str? then Str(TrimSpace(v.text)) else v }

  ghost function Picked(src: Attrs, names: set<string>): Attrs {
    map k | k in names && k in src :: NormalizeValue(src[k])
  }

  method CopyKeys(dst: Attrs, src: Attrs, names: seq<string>) returns (out: Attrs)
    ensures out == dst + Picked(src, Elements(names))
    ensures dst == map[] ==> out == Picked(src, Elements(names))
  {
    out := dst;
    for i := 0 to |names|
      invariant out == dst + Picked(src, Elements(names[..i]))
    {
      assert names[..i + 1] == names[..i] + [names[i]];
      AppendElement(names[..i], names[i]);
      if names[i] in src { out := out[names[i] := NormalizeValue(src[names[i]])]; }
    }
    assert names[..|names|] == names;
  }

  predicate Contains(s: string, part: string) {
    part <= s || (s != [] && Contains(s[1..], part))
  }

  /** The text occurs somewhere. */
  ghost predicate HasPart(s: string, part: string) { exists i :: 0 <= i <= |s| && part <= s[i..] }

  lemma {:induction false} ContainsMeans(s: string, part: string)
    ensures Contains(s, part) <==> HasPart(s, part)
  {
    if Contains(s, part) {
      var i := PartAt(s, part);
      assert part <= s[i..];
    }
    if i :| 0 <= i <= |s| && part <= s[i..] { HasAt(s, part, i); }
  }

  lemma {:induction false} PartAt(s: string, part: string) returns (i: nat)
    requires Contains(s, part)
    ensures i <= |s| && part <= s[i..]
  {
    if part <= s {
      i := 0;
      assert s[0..] == s;
    } else {
      var n := PartAt(s[1..], part);
      i := n + 1;
      assert s[1..][n..] == s[i..];
    }
  }

  lemma {:induction false} HasAt(s: string, part: string, i: nat)
    requires i <= |s| && part <= s[i..]
    ensures Contains(s, part)
  {
    if i > 0 {
      assert s[1..][i - 1..] == s[i..];
      HasAt(s[1..], part, i - 1);
    } else {
      assert s[0..] == s;
    }
  }

  predicate Volatile(lowered: string) {
    Contains(lowered, "time") || Contains(lowered, "date") || lowered in {"id", "modified_on", "created_on"}
  }

  ghost function ConfigurationOf(raw: Attrs): Attrs {
    if "configuration" in raw && raw["configuration"].Obj?
    then map["configuration" := Obj(Picked(raw["configuration"].fields, {"target", "value"}))]
    else map[]
  }

  /** `filterAttributes`: the attributes that decide, without identifiers and timestamps. */
  ghost function FilterAttributes(rt: ResourceType, lower: string -> string, raw: Attrs): Attrs {
    match rt
    case IpAccessRules =>
      Picked(raw, {"mode", "notes"}) + ConfigurationOf(raw)
    case ListItems => Picked(raw, {"ip", "comment"})
    case Lists => Picked(raw, {"name", "description", "kind"})
    case Other(_) => map k | k in raw && !Volatile(lower(k)) :: raw[k]
  }

  /** The default branch keeps every key that is not volatile, visiting them in any order. */
  method CopyStable(lower: string -> string, raw: Attrs) returns (out: Attrs)
    ensures out == map k | k in raw && !Volatile(lower(k)) :: raw[k]
  {
    out := map[];
    var todo := raw.Keys;
    while todo != {}
      invariant todo <= raw.Keys
      invariant out == map k | k in raw && k !in todo && !Volatile(lower(k)) :: raw[k]
      decreases |todo|
    {
      var k :| k in todo;
      todo := todo - {k};
      if !Volatile(lower(k)) { out := out[k := raw[k]]; }
    }
  }

  method FilterRaw(rt: ResourceType, lower: string -> string, raw: Attrs) returns (out: Attrs)
    ensures out == FilterAttributes(rt, lower, raw)
  {
    match rt
    case IpAccessRules =>
      out := CopyKeys(map[], raw, ["mode", "notes"]);
      assert Elements(["mode", "notes"]) == {"mode", "notes"};
      if "configuration" in raw && raw["configuration"].Obj? {
        var conf := CopyKeys(map[], raw["configuration"].fields, ["target", "value"]);
        assert Elements(["target", "value"]) == {"target", "value"};
        out := out["configuration" := Obj(conf)];
      }
    case ListItems =>
      out := CopyKeys(map[], raw, ["ip", "comment"]);
      assert Elements(["ip", "comment"]) == {"ip", "comment"};
    case Lists =>
      out := CopyKeys(map[], raw, ["name", "description", "kind"]);
      assert Elements(["name", "description", "kind"]) == {"name", "description", "kind"};
    case Other(_) => out := CopyStable(lower, raw);
  }

  /** The value an attribute has after trimming, if it is there. */
  ghost function ValueAt(attrs: Attrs, name: string): Option<Json> {
    if name !in attrs then None
    else match attrs[name] case Str(text) => Some(Str(TrimSpace(text))) case _ => Some(attrs[name])
  }

  /** Two values of an access rule's configuration are kept alike: both missing or no objects, or objects that agree on
      what they are about. */
  ghost predicate SameConfiguration(a: Attrs, b: Attrs) {
    var x := "configuration" in a && a["configuration"].Obj?;
    var y := "configuration" in b && b["configuration"].Obj?;
    && x == y
    && (x ==> forall k :: k in ["target", "value"] ==>
          ValueAt(a["configuration"].fields, k) == ValueAt(b["configuration"].fields, k))
  }

  /** What is kept of a raw item, attribute by attribute. */
  lemma {:induction false} FilteredExactly(rt: ResourceType, lower: string -> string, raw: Attrs, k: string)
    ensures var out := FilterAttributes(rt, lower, raw);
            var kept := if k in out then Some(out[k]) else None;
            match rt
            case IpAccessRules =>
              if k == "configuration" then
                if k in raw && raw[k].Obj? then
                  && kept.Some? && kept.value.Obj?
                  && forall n :: ValueAt(kept.value.fields, n) ==
                       if n == "target" || n == "value" then ValueAt(raw[k].fields, n) else None
                else kept == None
              else kept == if k == "mode" || k == "notes" then ValueAt(raw, k) else None
            case ListItems => kept == if k == "ip" || k == "comment" then ValueAt(raw, k) else None
            case Lists => kept == if k == "name" || k == "description" || k == "kind" then ValueAt(raw, k) else None
            case Other(_) => kept == if k in raw && !Bookkeeping(lower(k)) then Some(raw[k]) else None
  {
    match rt
    case IpAccessRules =>
      if k == "configuration" && k in raw && raw[k].Obj? { KeptConfiguration(raw[k].fields); }
    case ListItems =>
    case Lists =>
    case Other(_) =>
      ContainsMeans(lower(k), "time");
      ContainsMeans(lower(k), "date");
  }

  lemma {:induction false} KeptConfiguration(fields: Attrs)
    ensures forall n :: ValueAt(Picked(fields, {"target", "value"}), n) ==
              if n == "target" || n == "value" then ValueAt(fields, n) else None
  {
    forall n | n in fields && fields[n].Str? ensures TrimSpace(TrimSpace(fields[n].text)) == TrimSpace(fields[n].text) {
      TrimIdempotent(fields[n].text);
    }
  }

  /** A name that tells of a time, a date, or the provider's bookkeeping. */
  ghost predicate Bookkeeping(name: string) {
    HasPart(name, "time") || HasPart(name, "date") || name == "id" || name == "modified_on" || name == "created_on"
  }

  /** When two raw items count as the same: exactly when they agree on the attributes that decide, texts trimmed. */
  lemma {:induction false} FilteredAlike(rt: ResourceType, lower: string -> string, a: Attrs, b: Attrs)
    ensures FilterAttributes(rt, lower, a) == FilterAttributes(rt, lower, b) <==>
            match rt
            case IpAccessRules =>
              && (forall k :: k in ["mode", "notes"] ==> ValueAt(a, k) == ValueAt(b, k)) && SameConfiguration(a, b)
            case ListItems => forall k :: k in ["ip", "comment"] ==> ValueAt(a, k) == ValueAt(b, k)
            case Lists => forall k :: k in ["name", "description", "kind"] ==> ValueAt(a, k) == ValueAt(b, k)
            case Other(_) =>
              forall k :: !Bookkeeping(lower(k)) ==> (k in a <==> k in b) && (k in a ==> a[k] == b[k])
  {
    match rt
    case IpAccessRules => RulesAlike(lower, a, b);
    case ListItems => PickedAlike(a, b, ["ip", "comment"], {"ip", "comment"});
    case Lists => PickedAlike(a, b, ["name", "description", "kind"], {"name", "description", "kind"});
    case Other(_) => StableAlike(lower, a, b);
  }

  lemma {:induction false} PickedAlike(a: Attrs, b: Attrs, names: seq<string>, all: set<string>)
    requires forall k :: k in names <==> k in all
    ensures Picked(a, all) == Picked(b, all) <==> forall k :: k in names ==> ValueAt(a, k) == ValueAt(b, k)
  {
    forall k | k in names ensures ValueAt(a, k) == (if k in Picked(a, all) then Some(Picked(a, all)[k]) else None)
      ensures ValueAt(b, k) == if k in Picked(b, all) then Some(Picked(b, all)[k]) else None {
    }
    if forall k :: k in names ==> ValueAt(a, k) == ValueAt(b, k) {
      forall k ensures k in Picked(a, all) <==> k in Picked(b, all) { assert k in all ==> k in names; }
    }
  }

  lemma {:induction false} StableAlike(lower: string -> string, a: Attrs, b: Attrs)
    ensures (map k | k in a && !Volatile(lower(k)) :: a[k]) == (map k | k in b && !Volatile(lower(k)) :: b[k]) <==>
            forall k :: !Bookkeeping(lower(k)) ==> (k in a <==> k in b) && (k in a ==> a[k] == b[k])
  {
    var x, y := map k | k in a && !Volatile(lower(k)) :: a[k], map k | k in b && !Volatile(lower(k)) :: b[k];
    forall k ensures Volatile(lower(k)) <==> Bookkeeping(lower(k)) {
      ContainsMeans(lower(k), "time");
      ContainsMeans(lower(k), "date");
    }
    if x == y {
      forall k | !Bookkeeping(lower(k)) ensures (k in a <==> k in b) && (k in a ==> a[k] == b[k]) {
        assert k in a <==> k in x;
        assert k in b <==> k in y;
        if k in a { assert x[k] == a[k] && y[k] == b[k]; }
      }
    }
  }

  lemma {:induction false} ConfigurationsAlike(a: Attrs, b: Attrs)
    ensures ConfigurationOf(a) == ConfigurationOf(b) <==> SameConfiguration(a, b)
  {
    var x := "configuration" in a && a["configuration"].Obj?;
    var y := "configuration" in b && b["configuration"].Obj?;
    if x && y {
      PickedAlike(a["configuration"].fields, b["configuration"].fields, ["target", "value"], {"target", "value"});
      var p := Picked(a["configuration"].fields, {"target", "value"});
      var q := Picked(b["configuration"].fields, {"target", "value"});
      if ConfigurationOf(a) == ConfigurationOf(b) {
        assert ConfigurationOf(a)["configuration"] == Obj(p) && ConfigurationOf(b)["configuration"] == Obj(q);
      }
    } else if x != y {
      assert "configuration" in ConfigurationOf(a) <==> x;
      assert "configuration" in ConfigurationOf(b) <==> y;
    }
  }

  lemma {:induction false} JoinedAlike(p: Attrs, c: Attrs, q: Attrs, d: Attrs)
    requires "configuration" !in p && "configuration" !in q
    requires c.Keys <= {"configuration"} && d.Keys <= {"configuration"}
    ensures p + c == q + d <==> p == q && c == d
  {
    if p + c == q + d {
      assert p == (p + c) - {"configuration"} && q == (q + d) - {"configuration"};
      assert forall k :: k in c <==> k in p + c && k == "configuration";
      assert forall k :: k in d <==> k in q + d && k == "configuration";
      assert forall k :: k in c ==> c[k] == (p + c)[k];
      assert forall k :: k in d ==> d[k] == (q + d)[k];
    }
  }

  lemma {:induction false} RulesAlike(lower: string -> string, a: Attrs, b: Attrs)
    ensures FilterAttributes(IpAccessRules, lower, a) == FilterAttributes(IpAccessRules, lower, b) <==>
            && (forall k :: k in ["mode", "notes"] ==> ValueAt(a, k) == ValueAt(b, k)) && SameConfiguration(a, b)
  {
    var p, q := Picked(a, {"mode", "notes"}), Picked(b, {"mode", "notes"});
    PickedAlike(a, b, ["mode", "notes"], {"mode", "notes"});
    ConfigurationsAlike(a, b);
    JoinedAlike(p, ConfigurationOf(a), q, ConfigurationOf(b));
    assert FilterAttributes(IpAccessRules, lower, a) == p + ConfigurationOf(a);
    assert FilterAttributes(IpAccessRules, lower, b) == q + ConfigurationOf(b);
  }

  lemma {:induction false} PickedIdempotent(src: Attrs, names: set<string>)
    ensures Picked(Picked(src, names), names) == Picked(src, names)
  {
    forall k | k in names && k in src ensures NormalizeValue(NormalizeValue(src[k])) == NormalizeValue(src[k]) {
      if src[k].Str? { TrimIdempotent(src[k].text); }
    }
  }

  /** Normalised attributes are a fixed point: normalising a stored object changes nothing. */
  lemma {:induction false} FilterIdempotent(rt: ResourceType, lower: string -> string, raw: Attrs)
    ensures FilterAttributes(rt, lower, FilterAttributes(rt, lower, raw)) == FilterAttributes(rt, lower, raw)
  {
    var once := FilterAttributes(rt, lower, raw);
    match rt
    case IpAccessRules =>
      PickedIdempotent(raw, {"mode", "notes"});
      assert Picked(once, {"mode", "notes"}) == Picked(Picked(raw, {"mode", "notes"}), {"mode", "notes"});
      if "configuration" in raw && raw["configuration"].Obj? {
        PickedIdempotent(raw["configuration"].fields, {"target", "value"});
      }
    case ListItems => PickedIdempotent(raw, {"ip", "comment"});
    case Lists => PickedIdempotent(raw, {"name", "description", "kind"});
    case Other(_) =>
  }

  lemma {:induction false} PickedDecoded(src: Attrs, names: set<string>)
    requires Decoded(Obj(src))
    ensures Decoded(Obj(Picked(src, names)))
  {}

  lemma {:induction false} AddedDecoded(attrs: Attrs, key: string, value: Json)
    requires Decoded(Obj(attrs)) && Decoded(value)
    ensures Decoded(Obj(attrs + map[key := value]))
  {}

  lemma {:induction false} FilterDecoded(rt: ResourceType, lower: string -> string, raw: Attrs)
    requires Decoded(Obj(raw))
    ensures Decoded(Obj(FilterAttributes(rt, lower, raw)))
  {
    match rt
    case IpAccessRules =>
      var top := Picked(raw, {"mode", "notes"});
      PickedDecoded(raw, {"mode", "notes"});
      if "configuration" in raw && raw["configuration"].Obj? {
        assert Decoded(raw["configuration"]);
        PickedDecoded(raw["configuration"].fields, {"target", "value"});
        AddedDecoded(top, "configuration", Obj(Picked(raw["configuration"].fields, {"target", "value"})));
      } else {
        assert top + map[] == top;
      }
    case ListItems => PickedDecoded(raw, {"ip", "comment"});
    case Lists => PickedDecoded(raw, {"name", "description", "kind"});
    case Other(_) =>
  }

  // ---------------------------------------------------------------- identity keys

  function TextAt(attrs: Attrs, name: string): string {
    if name in attrs && attrs[name].Str? then attrs[name].text else ""
  }

  function IpKey(target: string, value: string, mode: string): string {
    "ip:" + target + ":" + value + ":" + mode
  }

  /** `generateSIK`. */
  ghost function StableKey(rt: ResourceType, shortSha: string -> string, attrs: Attrs): string {
    if rt == IpAccessRules && "configuration" in attrs && attrs["configuration"].Obj? then
      var config := attrs["configuration"].fields;
      IpKey(TextAt(config, "target"), TextAt(config, "value"), TextAt(attrs, "mode"))
    else if rt == ListItems && "ip" in attrs && attrs["ip"].Str? then "list_item:" + attrs["ip"].text
    else if rt == Lists && "name" in attrs && attrs["name"].Str? then "list:" + attrs["name"].text
    else "derived:" + shortSha(ResourceName(rt) + ":" + Canon(Obj(attrs)))
  }

  function UpToColon(s: string): string {
    if s == [] || s[0] == ':' then [] else [s[0]] + UpToColon(s[1..])
  }

  function AfterLastColon(s: string): string {
    if s == [] || s[|s| - 1] == ':' then [] else AfterLastColon(s[..|s| - 1]) + [s[|s| - 1]]
  }

  lemma {:induction false} ColonFreePrefix(a: string, x: string)
    requires ':' !in a
    ensures UpToColon(a + ":" + x) == a
  {
    var s := a + ":" + x;
    if a != [] {
      assert s[1..] == a[1..] + ":" + x;
      ColonFreePrefix(a[1..], x);
      assert a == [a[0]] + a[1..];
    }
  }

  lemma {:induction false} ColonFreeSuffix(x: string, a: string)
    requires ':' !in a
    ensures AfterLastColon(x + ":" + a) == a
  {
    var s := x + ":" + a;
    if a != [] {
      assert s[..|s| - 1] == x + ":" + a[..|a| - 1];
      ColonFreeSuffix(x, a[..|a| - 1]);
      assert a == a[..|a| - 1] + [a[|a| - 1]];
    }
  }

  lemma {:induction false} SplitAtColon(a: string, x: string, b: string, y: string)
    requires ':' !in a && ':' !in b && a + ":" + x == b + ":" + y
    ensures a == b && x == y
  {
    ColonFreePrefix(a, x);
    ColonFreePrefix(b, y);
    assert x == (a + ":" + x)[|a| + 1..] && y == (b + ":" + y)[|b| + 1..];
  }

  lemma {:induction false} SplitAtLastColon(x: string, a: string, y: string, b: string)
    requires ':' !in a && ':' !in b && x + ":" + a == y + ":" + b
    ensures a == b && x == y
  {
    ColonFreeSuffix(x, a);
    ColonFreeSuffix(y, b);
    assert x == (x + ":" + a)[..|x|] && y == (y + ":" + b)[..|y|];
  }

  /** Access rules with different (target, value, mode) get different keys, IPv6 values
      included, as long as the target kind and the mode hold no colon. */
  lemma {:induction false} IpKeyInjective(t1: string, v1: string, m1: string, t2: string, v2: string, m2: string)
    requires ':' !in t1 && ':' !in m1 && ':' !in t2 && ':' !in m2
    requires IpKey(t1, v1, m1) == IpKey(t2, v2, m2)
    ensures t1 == t2 && v1 == v2 && m1 == m2
  {
    var x, y := t1 + ":" + v1, t2 + ":" + v2;
    var p, q := x + ":" + m1, y + ":" + m2;
    assert IpKey(t1, v1, m1) == "ip:" + p && IpKey(t2, v2, m2) == "ip:" + q;
    assert p == ("ip:" + p)[3..] && q == ("ip:" + q)[3..];
    SplitAtLastColon(x, m1, y, m2);
    SplitAtColon(t1, v1, t2, v2);
  }

  function Colons(s: string): nat { if s == [] then 0 else Colons(s[1..]) + if s[0] == ':' then 1 else 0 }

  lemma {:induction false} ColonsAppend(a: string, b: string)
    ensures Colons(a + b) == Colons(a) + Colons(b)
  {
    if a == [] {
      assert a + b == b;
    } else {
      assert (a + b)[1..] == a[1..] + b;
      ColonsAppend(a[1..], b);
    }
  }

  lemma {:induction false} NoColons(s: string)
    ensures Colons(s) == 0 <==> ':' !in s
  {
    if s != [] {
      NoColons(s[1..]);
      assert s == [s[0]] + s[1..];
    }
  }

  lemma {:induction false} KeyColons(t: string, v: string, m: string)
    ensures Colons(IpKey(t, v, m)) == 3 + Colons(t) + Colons(v) + Colons(m)
  {
    assert Colons("") == 0 && ":"[1..] == "" && Colons(":") == 1;
    assert "ip:"[1..] == "p:" && "p:"[1..] == ":";
    ColonsAppend("ip:", t);
    ColonsAppend("ip:" + t, ":");
    ColonsAppend("ip:" + t + ":", v);
    ColonsAppend("ip:" + t + ":" + v, ":");
    ColonsAppend("ip:" + t + ":" + v + ":", m);
  }

  lemma {:induction false} CutAtColon(s: string) returns (x: string, y: string)
    requires ':' in s
    ensures s == x + ":" + y
  {
    var i :| 0 <= i < |s| && s[i] == ':';
    x, y := s[..i], s[i + 1..];
  }

  /** Another access rule has the same key. */
  ghost predicate KeyIsShared(t: string, v: string, m: string) {
    exists t', v', m' :: (t' != t || v' != v || m' != m) && IpKey(t', v', m') == IpKey(t, v, m)
  }

  /** Wherever the colon is, it can be read as a separator. */
  lemma {:induction false} ColonShares(t: string, v: string, m: string)
    requires ':' in t || ':' in v || ':' in m
    ensures KeyIsShared(t, v, m)
  {
    if ':' in t {
      var x, y := CutAtColon(t);
      assert IpKey(x, y + ":" + v, m) == IpKey(t, v, m);
      assert |x| < |t|;
    } else if ':' in v {
      var x, y := CutAtColon(v);
      assert IpKey(t + ":" + x, y, m) == IpKey(t, v, m);
      assert |y| < |v|;
    } else {
      var x, y := CutAtColon(m);
      assert IpKey(t, v + ":" + x, y) == IpKey(t, v, m);
      assert |y| < |m|;
    }
  }

  /** An access rule shares its key with some other (target, value, mode) if and only if one of the three holds a
      colon. */
  lemma {:induction false} IpKeyAmbiguous(t: string, v: string, m: string)
    ensures KeyIsShared(t, v, m) <==> ':' in t || ':' in v || ':' in m
  {
    if ':' in t || ':' in v || ':' in m {
      ColonShares(t, v, m);
    } else {
      forall t', v', m' | IpKey(t', v', m') == IpKey(t, v, m) ensures t' == t && v' == v && m' == m {
        KeyColons(t, v, m);
        KeyColons(t', v', m');
        NoColons(t);
        NoColons(v);
        NoColons(m);
        NoColons(t');
        NoColons(m');
        IpKeyInjective(t', v', m', t, v, m);
      }
    }
  }

  // ---------------------------------------------------------------- objects

  /** What a stable key stands for: the fields that name an object, or all its attributes. */
  datatype Identity =
    | AccessRule(target: string, value: string, mode: string)
    | ListItem(ip: string)
    | NamedList(name: string)
    | Derived(attrs: Attrs)

  function IdentityOf(rt: ResourceType, attrs: Attrs): Identity {
    if rt == IpAccessRules && "configuration" in attrs && attrs["configuration"].Obj? then
      var config := attrs["configuration"].fields;
      AccessRule(TextAt(config, "target"), TextAt(config, "value"), TextAt(attrs, "mode"))
    else if rt == ListItems && "ip" in attrs && attrs["ip"].Str? then ListItem(attrs["ip"].text)
    else if rt == Lists && "name" in attrs && attrs["name"].Str? then NamedList(attrs["name"].text)
    else Derived(attrs)
  }

  /** Target kinds and modes hold no colon; values (IPv6) may. */
  ghost predicate PlainParts(id: Identity) { id.AccessRule? ==> ':' !in id.target && ':' !in id.mode }

  /** The hashed text of a derived key. */
  ghost function DerivedText(rt: ResourceType, attrs: Attrs): string { ResourceName(rt) + ":" + Canon(Obj(attrs)) }

  ghost predicate Collide(shortSha: string -> string, x: string, y: string) { x != y && shortSha(x) == shortSha(y) }

  lemma {:induction false} SamePrefix(p: string, x: string, y: string)
    requires p + x == p + y
    ensures x == y
  {
    assert x == (p + x)[|p|..] && y == (p + y)[|p|..];
  }

  lemma {:induction false} DerivedTextInjective(rt: ResourceType, a: Attrs, b: Attrs)
    requires Decoded(Obj(a)) && Decoded(Obj(b)) && DerivedText(rt, a) == DerivedText(rt, b)
    ensures a == b
  {
    SamePrefix(ResourceName(rt) + ":", Canon(Obj(a)), Canon(Obj(b)));
    CanonInjective(Obj(a), Obj(b));
  }

  lemma {:induction false} KeyShape(rt: ResourceType, shortSha: string -> string, attrs: Attrs)
    ensures StableKey(rt, shortSha, attrs) ==
            match IdentityOf(rt, attrs)
            case AccessRule(target, value, mode) => IpKey(target, value, mode)
            case ListItem(ip) => "list_item:" + ip
            case NamedList(name) => "list:" + name
            case Derived(_) => "derived:" + shortSha(DerivedText(rt, attrs))
  {
  }

  /** Keys of one form: equal exactly when what they are made of is. */
  lemma {:induction false} SameFormSameKey(rt: ResourceType, shortSha: string -> string, a: Attrs, b: Attrs)
    requires Decoded(Obj(a)) && Decoded(Obj(b)) && PlainParts(IdentityOf(rt, a)) && PlainParts(IdentityOf(rt, b))
    requires IdentityOf(rt, a).Derived? == IdentityOf(rt, b).Derived?
    ensures StableKey(rt, shortSha, a) == StableKey(rt, shortSha, b) <==>
            || IdentityOf(rt, a) == IdentityOf(rt, b)
            || (IdentityOf(rt, a).Derived? && Collide(shortSha, DerivedText(rt, a), DerivedText(rt, b)))
  {
    KeyShape(rt, shortSha, a);
    KeyShape(rt, shortSha, b);
    if StableKey(rt, shortSha, a) == StableKey(rt, shortSha, b) {
      match IdentityOf(rt, a)
      case AccessRule(t, v, m) =>
        var y := IdentityOf(rt, b);
        IpKeyInjective(t, v, m, y.target, y.value, y.mode);
      case ListItem(ip) => SamePrefix("list_item:", ip, IdentityOf(rt, b).ip);
      case NamedList(name) => SamePrefix("list:", name, IdentityOf(rt, b).name);
      case Derived(_) =>
        SamePrefix("derived:", shortSha(DerivedText(rt, a)), shortSha(DerivedText(rt, b)));
        if DerivedText(rt, a) == DerivedText(rt, b) { DerivedTextInjective(rt, a, b); }
    }
  }

  lemma {:induction false} FormsDiffer(rt: ResourceType, shortSha: string -> string, a: Attrs, b: Attrs)
    requires IdentityOf(rt, a).Derived? && !IdentityOf(rt, b).Derived?
    ensures StableKey(rt, shortSha, a) != StableKey(rt, shortSha, b)
  {
    KeyShape(rt, shortSha, a);
    KeyShape(rt, shortSha, b);
    assert StableKey(rt, shortSha, a)[0] == 'd' && StableKey(rt, shortSha, b)[0] != 'd';
  }

  /** The text an attribute holds, the empty one where it is missing or no text. */
  ghost predicate Reads(attrs: Attrs, name: string, text: string) {
    if name in attrs && attrs[name].Str? then attrs[name] == Str(text) else text == ""
  }

  /** How stable keys are spelt. */
  lemma {:induction false} StableKeyText(
    rt: ResourceType, shortSha: string -> string, attrs: Attrs, config: Attrs, t: string, v: string, m: string)
    requires "configuration" in attrs && attrs["configuration"].Obj? ==> attrs["configuration"].fields == config
    requires Reads(config, "target", t) && Reads(config, "value", v) && Reads(attrs, "mode", m)
    ensures var key := StableKey(rt, shortSha, attrs);
            match rt
            case IpAccessRules =>
              key == if "configuration" in attrs && attrs["configuration"].Obj? then "ip:" + t + ":" + v + ":" + m
                     else "derived:" + shortSha("ip_access_rules" + ":" + Canon(Obj(attrs)))
            case ListItems =>
              key == if "ip" in attrs && attrs["ip"].Str? then "list_item:" + attrs["ip"].text
                     else "derived:" + shortSha("list_items" + ":" + Canon(Obj(attrs)))
            case Lists =>
              key == if "name" in attrs && attrs["name"].Str? then "list:" + attrs["name"].text
                     else "derived:" + shortSha("lists" + ":" + Canon(Obj(attrs)))
            case Other(name) => key == "derived:" + shortSha(name + ":" + Canon(Obj(attrs)))
  {
    match rt
    case IpAccessRules => AccessRuleText(shortSha, attrs, config, t, v, m);
    case _ =>
  }

  lemma {:induction false} AccessRuleText(
    shortSha: string -> string, attrs: Attrs, config: Attrs, t: string, v: string, m: string)
    requires "configuration" in attrs && attrs["configuration"].Obj? ==> attrs["configuration"].fields == config
    requires Reads(config, "target", t) && Reads(config, "value", v) && Reads(attrs, "mode", m)
    ensures StableKey(IpAccessRules, shortSha, attrs) ==
            if "configuration" in attrs && attrs["configuration"].Obj? then "ip:" + t + ":" + v + ":" + m
            else "derived:" + shortSha("ip_access_rules" + ":" + Canon(Obj(attrs)))
  {
    TextRead(config, "target", t);
    TextRead(config, "value", v);
    TextRead(attrs, "mode", m);
  }

  lemma {:induction false} TextRead(attrs: Attrs, name: string, text: string)
    requires Reads(attrs, name, text)
    ensures TextAt(attrs, name) == text
  {
  }

  /**
   What a stable key identifies: objects of one resource type share a key if and only if they share the identity fields
   (target, value and mode; address; name), or, having none, all attributes, or the digests of two different texts
   collide.
   */
  lemma {:induction false} StableKeyIdentifies(rt: ResourceType, shortSha: string -> string, a: Attrs, b: Attrs)
    requires Decoded(Obj(a)) && Decoded(Obj(b)) && PlainParts(IdentityOf(rt, a)) && PlainParts(IdentityOf(rt, b))
    ensures StableKey(rt, shortSha, a) == StableKey(rt, shortSha, b) <==>
            || IdentityOf(rt, a) == IdentityOf(rt, b)
            || (IdentityOf(rt, a).Derived? && IdentityOf(rt, b).Derived?
                && Collide(shortSha, DerivedText(rt, a), DerivedText(rt, b)))
  {
    if IdentityOf(rt, a).Derived? == IdentityOf(rt, b).Derived? {
      SameFormSameKey(rt, shortSha, a, b);
    } else if IdentityOf(rt, a).Derived? {
      FormsDiffer(rt, shortSha, a, b);
    } else {
      FormsDiffer(rt, shortSha, b, a);
    }
  }

  /** Everything one `Build` call applies to each item alike. */
  datatype Capture = Capture(rt: ResourceType, lower: string -> string, shortSha: string -> string, metadata: Metadata)

  /** One item of `normalizeObjects`. */
  ghost function Normalize(c: Capture, item: Json): NormalizedObject
    requires item.Obj?
  {
    var attrs := FilterAttributes(c.rt, c.lower, item.fields);
    NormalizedObject(TextAt(item.fields, "id"), ResourceName(c.rt), StableKey(c.rt, c.shortSha, attrs), attrs,
      c.metadata)
  }

  ghost function NormalizeOrSkip(c: Capture): Json -> NormalizedObject {
    (item: Json) => if item.Obj? then Normalize(c, item) else NormalizedObject("", "", "", map[], c.metadata)
  }

  /** `normalizeObjects` fails on any item that is not an object. */
  ghost function NormalizeAll(c: Capture, items: seq<Json>): Option<seq<NormalizedObject>> {
    if forall x :: x in items ==> x.Obj? then Some(MapSeq(NormalizeOrSkip(c), items)) else None
  }

  lemma {:induction false} NormalizePermutation(c: Capture, items: seq<Json>, items': seq<Json>)
    requires multiset(items) == multiset(items')
    ensures NormalizeAll(c, items).Some? == NormalizeAll(c, items').Some?
    ensures NormalizeAll(c, items).Some? ==>
              multiset(NormalizeAll(c, items).value) == multiset(NormalizeAll(c, items').value)
  {
    assert forall x :: x in items <==> x in multiset(items);
    assert forall x :: x in items' <==> x in multiset(items');
    MapPermutation(NormalizeOrSkip(c), items, items');
  }

  /** What normalising a list of items gives: failure exactly if some item is no object, and otherwise one object per
      item, in order, with the item's identifier, the kept attributes, the key they spell, and the capture's stamp. */
  lemma {:induction false} NormalizedExactly(c: Capture, items: seq<Json>)
    ensures NormalizeAll(c, items) == None <==> exists i :: 0 <= i < |items| && !items[i].Obj?
    ensures NormalizeAll(c, items).Some? ==>
              && |NormalizeAll(c, items).value| == |items|
              && forall i :: 0 <= i < |items| ==>
                   var o := NormalizeAll(c, items).value[i];
                   && items[i].Obj? && Reads(items[i].fields, "id", o.objectId) && o.metadata == c.metadata
                   && o.objectType == ResourceName(c.rt)
                   && o.attrs == FilterAttributes(c.rt, c.lower, items[i].fields)
                   && o.key == StableKey(c.rt, c.shortSha, o.attrs)
  {
    forall i | 0 <= i < |items| ensures items[i] in items {}
    if x :| x in items && !x.Obj? {
      var i :| 0 <= i < |items| && items[i] == x;
    }
  }

  method GenerateStableKey(rt: ResourceType, shortSha: string -> string, attrs: Attrs) returns (key: string)
    ensures key == StableKey(rt, shortSha, attrs)
  {
    if rt == IpAccessRules && "configuration" in attrs && attrs["configuration"].Obj? {
      var config := attrs["configuration"].fields;
      key := IpKey(TextAt(config, "target"), TextAt(config, "value"), TextAt(attrs, "mode"));
    } else if rt == ListItems && "ip" in attrs && attrs["ip"].Str? {
      key := "list_item:" + attrs["ip"].text;
    } else if rt == Lists && "name" in attrs && attrs["name"].Str? {
      key := "list:" + attrs["name"].text;
    } else {
      var text := CanonicalJSON(Obj(attrs));
      key := "derived:" + shortSha(ResourceName(rt) + ":" + text);
    }
  }

  method NormalizeItem(c: Capture, item: Json) returns (o: NormalizedObject)
    requires item.Obj?
    ensures o == Normalize(c, item)
  {
    var attrs := FilterRaw(c.rt, c.lower, item.fields);
    var key := GenerateStableKey(c.rt, c.shortSha, attrs);
    o := NormalizedObject(TextAt(item.fields, "id"), ResourceName(c.rt), key, attrs, c.metadata);
  }

  lemma {:induction false} NormalizedList(c: Capture, items: seq<Json>, out: seq<NormalizedObject>)
    requires |out| == |items| && forall j :: 0 <= j < |items| ==> items[j].Obj? && out[j] == Normalize(c, items[j])
    ensures NormalizeAll(c, items) == Some(out)
  {
    assert out == MapSeq(NormalizeOrSkip(c), items);
  }

  method NormalizeObjects(c: Capture, items: seq<Json>) returns (objects: Option<seq<NormalizedObject>>)
    ensures objects == NormalizeAll(c, items)
  {
    var out: seq<NormalizedObject> := [];
    for i := 0 to |items|
      invariant |out| == i && forall j :: 0 <= j < i ==> items[j].Obj? && out[j] == Normalize(c, items[j])
    {
      if !items[i].Obj? {
        assert items[i] in items;
        return None;
      }
      var next := NormalizeItem(c, items[i]);
      out := out + [next];
    }
    NormalizedList(c, items, out);
    objects := Some(out);
  }

  // ---------------------------------------------------------------- order and hashes

  datatype Content = Content(key: string, attrs: Attrs)

  ghost function ContentOf(o: NormalizedObject): Content { Content(o.key, o.attrs) }

  /** The comparison `Build` sorts with; it looks at key and attributes only. */
  ghost predicate ContentLess(x: Content, y: Content) {
    PairLess(x.key, Canon(Obj(x.attrs)), y.key, Canon(Obj(y.attrs)))
  }

  ghost predicate ObjectLess(x: NormalizedObject, y: NormalizedObject) { ContentLess(ContentOf(x), ContentOf(y)) }

  ghost function ObjectHash(sha: string -> string, o: NormalizedObject): string { sha(Canon(Obj(o.attrs)) + o.key) }

  ghost function ObjectHashes(sha: string -> string, objects: seq<NormalizedObject>): seq<string> {
    MapSeq(o => ObjectHash(sha, o), objects)
  }

  ghost predicate AllDecoded(objects: seq<NormalizedObject>) {
    forall o :: o in objects ==> Decoded(Obj(o.attrs))
  }

  lemma {:induction false} ContentTies(x: Content, y: Content)
    requires Decoded(Obj(x.attrs)) && Decoded(Obj(y.attrs))
    requires !ContentLess(x, y) && !ContentLess(y, x)
    ensures x == y
  {
    StrLessTotal(x.key, y.key);
    StrLessTotal(Canon(Obj(x.attrs)), Canon(Obj(y.attrs)));
    CanonInjective(Obj(x.attrs), Obj(y.attrs));
  }

  lemma {:induction false} ObjectLessWeakOrder()
    ensures WeakOrder(ObjectLess)
  {
    forall x, y, z
      ensures ObjectLess(x, y) ==> !ObjectLess(y, x)
      ensures ObjectLess(x, z) ==> ObjectLess(x, y) || ObjectLess(y, z)
    {
      PairLessOrder(x.key, Canon(Obj(x.attrs)), y.key, Canon(Obj(y.attrs)), z.key, Canon(Obj(z.attrs)));
    }
  }

  /** Any two sorts of permuted objects list the same contents in the same order. */
  lemma {:induction false} SortedContentsUnique(
    a: seq<NormalizedObject>, b: seq<NormalizedObject>, sa: seq<NormalizedObject>, sb: seq<NormalizedObject>)
    requires multiset(a) == multiset(b) && AllDecoded(a)
    requires IsSortOf(ObjectLess, sa, a) && IsSortOf(ObjectLess, sb, b)
    ensures MapSeq(ContentOf, sa) == MapSeq(ContentOf, sb)
  {
    var contents := MapSeq(ContentOf, sa);
    assert forall o :: o in a <==> o in multiset(a);
    assert forall o :: o in sa ==> o in multiset(sa);
    forall x, y | x in multiset(contents) && y in multiset(contents) && !ContentLess(x, y) && !ContentLess(y, x)
      ensures x == y
    {
      var i :| 0 <= i < |contents| && contents[i] == x;
      var j :| 0 <= j < |contents| && contents[j] == y;
      assert sa[i] in sa && sa[j] in sa;
      ContentTies(x, y);
    }
    SortedKeysUnique(ContentOf, ContentLess, sa, sb);
  }

  lemma {:induction false} HashesFollowContents(
    sha: string -> string, sa: seq<NormalizedObject>, sb: seq<NormalizedObject>)
    requires MapSeq(ContentOf, sa) == MapSeq(ContentOf, sb)
    ensures ObjectHashes(sha, sa) == ObjectHashes(sha, sb)
  {
    assert |sa| == |MapSeq(ContentOf, sa)| == |sb|;
    forall i | 0 <= i < |sa| ensures ObjectHash(sha, sa[i]) == ObjectHash(sha, sb[i]) {
      assert MapSeq(ContentOf, sa)[i] == MapSeq(ContentOf, sb)[i];
    }
  }

  lemma {:induction false} NormalizedDecoded(c: Capture, items: seq<Json>)
    requires NormalizeAll(c, items).Some? && forall x :: x in items ==> Decoded(x)
    ensures AllDecoded(NormalizeAll(c, items).value)
  {
    var objects := NormalizeAll(c, items).value;
    forall o | o in objects ensures Decoded(Obj(o.attrs)) {
      var i :| 0 <= i < |objects| && objects[i] == o;
      assert items[i] in items;
      FilterDecoded(c.rt, c.lower, items[i].fields);
    }
  }

  /** `Build` on a permuted array: the same keys, attributes and object hashes, in the same order. */
  lemma {:induction false} SnapshotOrderIndependent(sha: string -> string, c: Capture, items: seq<Json>,
    items': seq<Json>,
                                 sorted: seq<NormalizedObject>, sorted': seq<NormalizedObject>)
    requires multiset(items) == multiset(items') && forall x :: x in items ==> Decoded(x)
    requires NormalizeAll(c, items).Some? && NormalizeAll(c, items').Some?
    requires IsSortOf(ObjectLess, sorted, NormalizeAll(c, items).value)
    requires IsSortOf(ObjectLess, sorted', NormalizeAll(c, items').value)
    ensures MapSeq(ContentOf, sorted) == MapSeq(ContentOf, sorted')
    ensures ObjectHashes(sha, sorted) == ObjectHashes(sha, sorted')
  {
    NormalizePermutation(c, items, items');
    NormalizedDecoded(c, items);
    SortedContentsUnique(NormalizeAll(c, items).value, NormalizeAll(c, items').value, sorted, sorted');
    HashesFollowContents(sha, sorted, sorted');
  }

  /** Tied objects carry the same provider identifier. */
  ghost predicate TiesShareIds(objects: seq<NormalizedObject>) {
    forall x, y :: x in objects && y in objects && ContentOf(x) == ContentOf(y) ==> x.objectId == y.objectId
  }

  ghost predicate SameCapture(objects: seq<NormalizedObject>) {
    forall x, y :: x in objects && y in objects ==> x.objectType == y.objectType && x.metadata == y.metadata
  }

  lemma {:induction false} TiesCanBeSwapped(sorted: seq<NormalizedObject>, i: nat, j: nat)
    returns (other: seq<NormalizedObject>)
    requires SortedBy(ObjectLess, sorted) && i < j < |sorted|
    requires ContentOf(sorted[i]) == ContentOf(sorted[j]) && sorted[i].objectId != sorted[j].objectId
    ensures IsSortOf(ObjectLess, other, sorted) && other != sorted
  {
    ObjectLessWeakOrder();
    var x, y := sorted[i], sorted[j];
    PairLessOrder(x.key, Canon(Obj(x.attrs)), y.key, Canon(Obj(y.attrs)), "", "");
    SwapTies(ObjectLess, sorted, i, j);
    other := sorted[i := y][j := x];
    assert other[i] != sorted[i];
  }

  /**
   The object list itself, which `CanonicalHash` prints with identifiers, is determined by the
   input up to order exactly when tied objects share an identifier.
   */
  lemma {:induction false} ObjectListDetermined(objects: seq<NormalizedObject>, sorted: seq<NormalizedObject>)
    requires AllDecoded(objects) && SameCapture(objects)
    requires IsSortOf(ObjectLess, sorted, objects)
    ensures TiesShareIds(objects) <==> forall other :: IsSortOf(ObjectLess, other, objects) ==> other == sorted
  {
    if TiesShareIds(objects) {
      forall other | IsSortOf(ObjectLess, other, objects) ensures other == sorted {
        OneSortOfDistinctIds(objects, sorted, other);
      }
    } else {
      var other := AnotherSort(objects, sorted);
      assert IsSortOf(ObjectLess, other, objects) && other != sorted;
    }
  }

  lemma {:induction false} AnotherSort(
    objects: seq<NormalizedObject>, sorted: seq<NormalizedObject>) returns (other: seq<NormalizedObject>)
    requires IsSortOf(ObjectLess, sorted, objects) && !TiesShareIds(objects)
    ensures IsSortOf(ObjectLess, other, objects) && other != sorted
  {
    var x, y :| x in objects && y in objects && ContentOf(x) == ContentOf(y) && x.objectId != y.objectId;
    var i := PositionIn(objects, sorted, x);
    var j := PositionIn(objects, sorted, y);
    if i < j { other := TiesCanBeSwapped(sorted, i, j); } else { other := TiesCanBeSwapped(sorted, j, i); }
  }

  lemma {:induction false} PositionIn(
    objects: seq<NormalizedObject>, sorted: seq<NormalizedObject>, x: NormalizedObject) returns (i: nat)
    requires multiset(sorted) == multiset(objects) && x in objects
    ensures i < |sorted| && sorted[i] == x
  {
    assert x in multiset(sorted);
    i :| 0 <= i < |sorted| && sorted[i] == x;
  }

  lemma {:induction false} OneSortOfDistinctIds(
    objects: seq<NormalizedObject>, a: seq<NormalizedObject>, b: seq<NormalizedObject>)
    requires AllDecoded(objects) && SameCapture(objects) && TiesShareIds(objects)
    requires IsSortOf(ObjectLess, a, objects) && IsSortOf(ObjectLess, b, objects)
    ensures a == b
  {
    forall x, y | x in multiset(a) && y in multiset(a) && !ObjectLess(x, y) && !ObjectLess(y, x) ensures x == y {
      assert x in multiset(objects) && y in multiset(objects);
      ContentTies(ContentOf(x), ContentOf(y));
    }
    SortUnique(ObjectLess, a, b);
  }

  /** The text hashed for an object names its attributes and its key without ambiguity. */
  lemma {:induction false} ObjectPreimageUnambiguous(x: NormalizedObject, y: NormalizedObject)
    requires Decoded(Obj(x.attrs)) && Decoded(Obj(y.attrs))
    requires Canon(Obj(x.attrs)) + x.key == Canon(Obj(y.attrs)) + y.key
    ensures ContentOf(x) == ContentOf(y)
  {
    CanonSelfDelimiting(Obj(x.attrs), x.key, Obj(y.attrs), y.key);
  }

  /** So two objects have the same hash if and only if they have the same key and attributes, or the digests of two
      different texts collide. */
  lemma {:induction false} ObjectHashIdentifies(sha: string -> string, x: NormalizedObject, y: NormalizedObject)
    requires Decoded(Obj(x.attrs)) && Decoded(Obj(y.attrs))
    ensures ObjectHash(sha, x) == ObjectHash(sha, y) <==>
            || (x.key == y.key && x.attrs == y.attrs)
            || Collide(sha, Canon(Obj(x.attrs)) + x.key, Canon(Obj(y.attrs)) + y.key)
  {
    if Canon(Obj(x.attrs)) + x.key == Canon(Obj(y.attrs)) + y.key { ObjectPreimageUnambiguous(x, y); }
  }

  /** The order of a snapshot: keys increase, and under one key the printed attributes do. */
  lemma {:induction false} SnapshotOrder(sorted: seq<NormalizedObject>, i: nat, j: nat)
    requires SortedBy(ObjectLess, sorted) && i < j < |sorted|
    ensures sorted[i].key == sorted[j].key || StrLess(sorted[i].key, sorted[j].key)
    ensures var x, y := Canon(Obj(sorted[i].attrs)), Canon(Obj(sorted[j].attrs));
            sorted[i].key == sorted[j].key ==> x == y || StrLess(x, y)
  {
    assert !ObjectLess(sorted[j], sorted[i]);
    StrLessTotal(sorted[i].key, sorted[j].key);
    StrLessTotal(Canon(Obj(sorted[i].attrs)), Canon(Obj(sorted[j].attrs)));
  }

  // ---------------------------------------------------------------- the builder's sort

  /** An object with the canonical text of its attributes, which the comparison recomputes. */
  datatype Keyed = Keyed(item: NormalizedObject, text: string)

  predicate KeyedLess(x: Keyed, y: Keyed) { PairLess(x.item.key, x.text, y.item.key, y.text) }

  ghost predicate ProperlyKeyed(k: Keyed) { k.text == Canon(Obj(k.item.attrs)) }

  function Bare(k: Keyed): NormalizedObject { k.item }

  method KeyObjects(objects: seq<NormalizedObject>) returns (keyed: seq<Keyed>)
    ensures MapSeq(Bare, keyed) == objects
    ensures forall k :: k in keyed ==> ProperlyKeyed(k)
  {
    keyed := [];
    for i := 0 to |objects|
      invariant |keyed| == i
      invariant forall j :: 0 <= j < i ==> keyed[j].item == objects[j]
      invariant forall k :: k in keyed ==> ProperlyKeyed(k)
    {
      var text := CanonicalJSON(Obj(objects[i].attrs));
      keyed := keyed + [Keyed(objects[i], text)];
    }
    assert MapSeq(Bare, keyed) == objects;
  }

  lemma {:induction false} KeyedLessWeakOrder()
    ensures WeakOrder(KeyedLess)
  {
    forall x, y, z
      ensures KeyedLess(x, y) ==> !KeyedLess(y, x)
      ensures KeyedLess(x, z) ==> KeyedLess(x, y) || KeyedLess(y, z)
    {
      PairLessOrder(x.item.key, x.text, y.item.key, y.text, z.item.key, z.text);
    }
  }

  lemma {:induction false} KeyedOrderIsObjectOrder(keyed: seq<Keyed>)
    requires SortedBy(KeyedLess, keyed) && forall k :: k in keyed ==> ProperlyKeyed(k)
    ensures SortedBy(ObjectLess, MapSeq(Bare, keyed))
  {
    var objects := MapSeq(Bare, keyed);
    forall i, j | 0 <= i < j < |objects| ensures !ObjectLess(objects[j], objects[i]) {
      assert !KeyedLess(keyed[j], keyed[i]);
      assert ProperlyKeyed(keyed[i]) && ProperlyKeyed(keyed[j]);
    }
  }

  method SortObjects(objects: seq<NormalizedObject>) returns (sorted: seq<NormalizedObject>)
    ensures IsSortOf(ObjectLess, sorted, objects)
  {
    var keyed := KeyObjects(objects);
    KeyedLessWeakOrder();
    var ordered := SortSlice(KeyedLess, keyed);
    sorted := MapSeq(Bare, ordered);
    MapPermutation(Bare, ordered, keyed);
    assert forall k :: k in ordered ==> k in multiset(ordered);
    assert forall k :: k in multiset(keyed) ==> k in keyed;
    KeyedOrderIsObjectOrder(ordered);
  }
}
