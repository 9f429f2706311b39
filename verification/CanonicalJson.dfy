/** The canonical JSON printer and a decoder for it. */
module CanonicalJson {
  import opened Orders

  // The printer is `CanonicalJSON` / `writeCanonicalJSON`.  Values are what `json.Decoder` with `UseNumber`
  // produces: null, booleans, number tokens kept as text, strings, arrays and objects.  A Dafny `char` is a Unicode
  // scalar value, so a `string` stands for valid UTF-8 text and the output below for the bytes of its encoding.

  datatype Json =
    | Null
    | Bool(truth: bool)
    | Num(token: string)
    | Str(text: string)
    | Arr(items: seq<Json>)
    | Obj(fields: map<string, Json>)

  // ---------------------------------------------------------------- printing

  function HexDigit(n: nat): char
    requires n < 16
  {
    if n < 10 then ('0' as int + n) as char else ('a' as int + n - 10) as char
  }

  function UnicodeEscape(c: char): string
    requires c as int < 0x10000
  {
    var n := c as int;
    "\\u" + [HexDigit(n / 0x1000), HexDigit(n / 0x100 % 0x10), HexDigit(n / 0x10 % 0x10), HexDigit(n % 0x10)]
  }

  /** `encoding/json` string escaping with HTML escaping on, as `json.Marshal` applies it. */
  function EscapeChar(c: char): string {
    if c == '\"' then "\\\""
    else if c == '\\' then "\\\\"
    else if c == '\U{8}' then "\\b"
    else if c == '\U{C}' then "\\f"
    else if c == '\n' then "\\n"
    else if c == '\r' then "\\r"
    else if c == '\t' then "\\t"
    else if c < ' ' || c == '<' || c == '>' || c == '&' || c == '\U{2028}' || c == '\U{2029}' then UnicodeEscape(c)
    else [c]
  }

  function EscapeText(s: string): string {
    if s == [] then [] else EscapeChar(s[0]) + EscapeText(s[1..])
  }

  function Quote(s: string): string { "\"" + EscapeText(s) + "\"" }

  /** The text `CanonicalJSON` returns: object keys in increasing order, no white space. */
  ghost function Canon(v: Json): string
    decreases v, 1, 0
  {
    match v
    case Null => "null"
    case Bool(b) => if b then "true" else "false"
    case Num(token) => token
    case Str(s) => Quote(s)
    case Arr(items) => "[" + CanonItems(items) + "]"
    case Obj(fields) => "{" + CanonFields(v, SortedKeys(fields.Keys)) + "}"
  }

  ghost function CanonItems(items: seq<Json>): string
    decreases items, 0, 0
  {
    if items == [] then ""
    else if |items| == 1 then Canon(items[0])
    else Canon(items[0]) + "," + CanonItems(items[1..])
  }

  ghost function CanonFields(v: Json, keys: seq<string>): string
    requires v.Obj? && forall k :: k in keys ==> k in v.fields
    decreases v, 0, |keys|
  {
    if keys == [] then ""
    else
      var field := Quote(keys[0]) + ":" + Canon(v.fields[keys[0]]);
      if |keys| == 1 then field else field + "," + CanonFields(v, keys[1..])
  }

  // ---------------------------------------------------------------- number tokens

  predicate IsDigit(c: char) { '0' <= c <= '9' }

  predicate NumberChar(c: char) { IsDigit(c) || c in "+-.eE" }

  function DigitRun(s: string): (n: nat)
    ensures n <= |s| && forall i :: 0 <= i < n ==> IsDigit(s[i])
  {
    if s != [] && IsDigit(s[0]) then 1 + DigitRun(s[1..]) else 0
  }

  predicate IsExponent(e: string) {
    e == [] ||
    (e[0] in "eE" &&
     var d := if |e| >= 2 && e[1] in "+-" then e[2..] else e[1..];
     d != [] && DigitRun(d) == |d|)
  }

  predicate IsFraction(f: string) {
    if f != [] && f[0] == '.' then
      var n := DigitRun(f[1..]);
      n >= 1 && IsExponent(f[1 + n..])
    else
      IsExponent(f)
  }

  predicate IsUnsigned(u: string) {
    var n := DigitRun(u);
    n >= 1 && (u[0] == '0' ==> n == 1) && IsFraction(u[n..])
  }

  /** The number grammar of RFC 8259, section 6: the only tokens the decoder lets through. */
  predicate IsNumber(t: string) {
    if t != [] && t[0] == '-' then IsUnsigned(t[1..]) else IsUnsigned(t)
  }

  ghost predicate AllNumberChars(s: string) { forall i :: 0 <= i < |s| ==> NumberChar(s[i]) }

  lemma {:induction false} JoinNumberChars(s: string, n: nat)
    requires n <= |s| && AllNumberChars(s[..n]) && AllNumberChars(s[n..])
    ensures AllNumberChars(s)
  {
    forall i | 0 <= i < |s| ensures NumberChar(s[i]) {
      if i < n { assert s[i] == s[..n][i]; } else { assert s[i] == s[n..][i - n]; }
    }
  }

  lemma {:induction false} ExponentChars(e: string)
    requires IsExponent(e)
    ensures AllNumberChars(e)
  {
    if e != [] {
      JoinNumberChars(e, if |e| >= 2 && e[1] in "+-" then 2 else 1);
    }
  }

  lemma {:induction false} FractionChars(f: string)
    requires IsFraction(f)
    ensures AllNumberChars(f)
  {
    if f != [] && f[0] == '.' {
      FractionTail(f);
      DigitsAndExponentChars(f[1..]);
      FirstAndRest(f);
    } else {
      ExponentChars(f);
    }
  }

  lemma {:induction false} FractionTail(f: string)
    requires IsFraction(f) && f != [] && f[0] == '.'
    ensures IsExponent(f[1..][DigitRun(f[1..])..])
  {
    assert f[1..][DigitRun(f[1..])..] == f[1 + DigitRun(f[1..])..];
  }

  lemma {:induction false} FirstAndRest(s: string)
    requires s != [] && NumberChar(s[0]) && AllNumberChars(s[1..])
    ensures AllNumberChars(s)
  {
    forall i | 0 <= i < |s| ensures NumberChar(s[i]) {
      if i > 0 { assert s[i] == s[1..][i - 1]; }
    }
  }

  lemma {:induction false} DigitsAndExponentChars(s: string)
    requires IsExponent(s[DigitRun(s)..])
    ensures AllNumberChars(s)
  {
    ExponentChars(s[DigitRun(s)..]);
    JoinNumberChars(s, DigitRun(s));
  }

  lemma {:induction false} UnsignedChars(u: string)
    requires IsUnsigned(u)
    ensures u != [] && AllNumberChars(u)
  {
    var n := DigitRun(u);
    FractionChars(u[n..]);
    JoinNumberChars(u, n);
  }

  lemma {:induction false} NumberChars(t: string)
    requires IsNumber(t)
    ensures t != [] && AllNumberChars(t)
  {
    if t != [] && t[0] == '-' {
      UnsignedChars(t[1..]);
      JoinNumberChars(t, 1);
    } else {
      UnsignedChars(t);
    }
  }

  /** A value the strict decoder can deliver: every number token follows the grammar. */
  ghost predicate Decoded(v: Json) {
    match v
    case Num(token) => IsNumber(token)
    case Arr(items) => forall x :: x in items ==> Decoded(x)
    case Obj(fields) => forall k :: k in fields ==> Decoded(fields[k])
    case _ => true
  }

  // ---------------------------------------------------------------- a decoder

  function HexValue(c: char): Option<nat> {
    if '0' <= c <= '9' then Some(c as int - '0' as int)
    else if 'a' <= c <= 'f' then Some(c as int - 'a' as int + 10)
    else if 'A' <= c <= 'F' then Some(c as int - 'A' as int + 10)
    else None
  }

  /** Four hexadecimal digits naming a scalar value (surrogates are refused). */
  function ParseHex4(s: string): Option<char>
    requires |s| >= 4
  {
    match (HexValue(s[0]), HexValue(s[1]), HexValue(s[2]), HexValue(s[3]))
    case (Some(a), Some(b), Some(c), Some(d)) =>
      var n := a * 0x1000 + b * 0x100 + c * 0x10 + d;
      if 0 <= n < 0xD800 || 0xE000 <= n < 0x10000 then Some(n as char) else None
    case _ => None
  }

  /** One character of a string literal (sections 7 of RFC 8259): raw, or an escape. */
  function ParseChar(s: string): (r: Option<(char, string)>)
    requires s != [] && s[0] != '\"'
    ensures r.Some? ==> |r.value.1| < |s|
  {
    if s[0] != '\\' then
      if s[0] < ' ' then None else Some((s[0], s[1..]))
    else if |s| < 2 then None
    else
      match s[1]
      case '\"' => Some(('\"', s[2..]))
      case '\\' => Some(('\\', s[2..]))
      case '/' => Some(('/', s[2..]))
      case 'b' => Some(('\U{8}', s[2..]))
      case 'f' => Some(('\U{C}', s[2..]))
      case 'n' => Some(('\n', s[2..]))
      case 'r' => Some(('\r', s[2..]))
      case 't' => Some(('\t', s[2..]))
      case 'u' =>
        if |s| < 6 then None
        else match ParseHex4(s[2..]) { case Some(c) => Some((c, s[6..])) case None => None }
      case _ => None
  }

  /** The rest of a string literal, after its opening quote. */
  function ParseText(s: string): (r: Option<(string, string)>)
    ensures r.Some? ==> |r.value.1| < |s|
    decreases |s|
  {
    if s == [] then None
    else if s[0] == '\"' then Some(("", s[1..]))
    else
      match ParseChar(s)
      case None => None
      case Some((c, tail)) =>
        match ParseText(tail)
        case None => None
        case Some((text, rest)) => Some(([c] + text, rest))
  }

  function NumberRun(s: string): (n: nat)
    ensures n <= |s|
  {
    if s != [] && NumberChar(s[0]) then 1 + NumberRun(s[1..]) else 0
  }

  function ParseNumber(s: string): (r: Option<(Json, string)>)
    ensures r.Some? ==> |r.value.1| < |s|
  {
    var n := NumberRun(s);
    if n > 0 && IsNumber(s[..n]) then Some((Num(s[..n]), s[n..])) else None
  }

  /** One JSON value at the head of `s`, with the text left over. */
  function ParseValue(s: string): (r: Option<(Json, string)>)
    ensures r.Some? ==> |r.value.1| < |s|
    decreases |s|, 0
  {
    if s == [] then None
    else if s[0] == 'n' then if "null" <= s then Some((Null, s[4..])) else None
    else if s[0] == 't' then if "true" <= s then Some((Bool(true), s[4..])) else None
    else if s[0] == 'f' then if "false" <= s then Some((Bool(false), s[5..])) else None
    else if s[0] == '\"' then
      match ParseText(s[1..]) { case None => None case Some((t, rest)) => Some((Str(t), rest)) }
    else if s[0] == '[' then
      if |s| >= 2 && s[1] == ']' then Some((Arr([]), s[2..]))
      else match ParseItems(s[1..]) { case None => None case Some((items, rest)) => Some((Arr(items), rest)) }
    else if s[0] == '{' then
      if |s| >= 2 && s[1] == '}' then Some((Obj(map[]), s[2..]))
      else match ParseFields(s[1..]) { case None => None case Some((fields, rest)) => Some((Obj(fields), rest)) }
    else ParseNumber(s)
  }

  function ParseItems(s: string): (r: Option<(seq<Json>, string)>)
    ensures r.Some? ==> |r.value.1| < |s|
    decreases |s|, 1
  {
    match ParseValue(s)
    case None => None
    case Some((v, tail)) =>
      if tail == [] then None
      else if tail[0] == ']' then Some(([v], tail[1..]))
      else if tail[0] != ',' then None
      else
        match ParseItems(tail[1..])
        case None => None
        case Some((items, rest)) => Some(([v] + items, rest))
  }

  /** One `"key":value` member of an object. */
  function ParseField(s: string): (r: Option<(string, Json, string)>)
    ensures r.Some? ==> |r.value.2| < |s|
    decreases |s|, 1
  {
    if s == [] || s[0] != '\"' then None
    else
      match ParseText(s[1..])
      case None => None
      case Some((key, after)) =>
        if after == [] || after[0] != ':' then None
        else
          match ParseValue(after[1..])
          case None => None
          case Some((v, tail)) => Some((key, v, tail))
  }

  function ParseFields(s: string): (r: Option<(map<string, Json>, string)>)
    ensures r.Some? ==> |r.value.1| < |s|
    decreases |s|, 2
  {
    match ParseField(s)
    case None => None
    case Some((key, v, tail)) =>
      if tail == [] then None
      else if tail[0] == '}' then Some((map[key := v], tail[1..]))
      else if tail[0] != ',' then None
      else
        match ParseFields(tail[1..])
        case None => None
        case Some((fields, rest)) => Some((map[key := v] + fields, rest))
  }

  // ---------------------------------------------------------------- round trip

  lemma {:induction false} HexRoundTrip(n: nat)
    requires n < 16
    ensures HexValue(HexDigit(n)) == Some(n)
  {}

  lemma {:induction false} HexDigits(n: nat)
    requires n < 0x10000
    ensures n == n / 0x1000 * 0x1000 + n / 0x100 % 0x10 * 0x100 + n / 0x10 % 0x10 * 0x10 + n % 0x10
  {
    Quotients(n, 0x10);
    Quotients(n, 0x100);
    Split16(n);
    Split16(n / 0x10);
    Split16(n / 0x100);
  }

  lemma {:induction false} Quotients(n: nat, d: nat)
    requires d == 0x10 || d == 0x100
    ensures n / d / 0x10 == n / (d * 0x10)
  {
    if d == 0x10 { assert n / 0x10 / 0x10 == n / 0x100; } else { assert n / 0x100 / 0x10 == n / 0x1000; }
  }

  lemma {:induction false} Split16(n: nat)
    ensures n == n / 0x10 * 0x10 + n % 0x10
  {
  }

  lemma {:induction false} Hex4RoundTrip(c: char, s: string)
    requires c as int < 0x10000 && |s| >= 4
    requires s[0] == HexDigit(c as int / 0x1000) && s[1] == HexDigit(c as int / 0x100 % 0x10)
    requires s[2] == HexDigit(c as int / 0x10 % 0x10) && s[3] == HexDigit(c as int % 0x10)
    ensures ParseHex4(s) == Some(c)
  {
    var n := c as int;
    HexRoundTrip(n / 0x1000);
    HexRoundTrip(n / 0x100 % 0x10);
    HexRoundTrip(n / 0x10 % 0x10);
    HexRoundTrip(n % 0x10);
    HexDigits(n);
  }

  lemma {:induction false} UnicodeEscapeRoundTrip(c: char, rest: string)
    requires c as int < 0x10000
    ensures ParseChar(UnicodeEscape(c) + rest) == Some((c, rest))
  {
    var s := UnicodeEscape(c) + rest;
    assert s[2..][0] == s[2] && s[2..][1] == s[3] && s[2..][2] == s[4] && s[2..][3] == s[5];
    Hex4RoundTrip(c, s[2..]);
    assert s[6..] == rest;
  }

  lemma {:induction false} EscapeRoundTrip(c: char, rest: string)
    ensures EscapeChar(c) != [] && EscapeChar(c)[0] != '\"'
    ensures ParseChar(EscapeChar(c) + rest) == Some((c, rest))
  {
    var s := EscapeChar(c) + rest;
    if |EscapeChar(c)| == 1 {
      assert s[1..] == rest;
    } else if |EscapeChar(c)| == 2 {
      assert s[2..] == rest;
    } else {
      UnicodeEscapeRoundTrip(c, rest);
    }
  }

  lemma {:induction false} TextRoundTrip(text: string, rest: string)
    ensures ParseText(EscapeText(text) + "\"" + rest) == Some((text, rest))
  {
    if text == [] {
      assert EscapeText(text) + "\"" + rest == "\"" + rest;
    } else {
      var tail := EscapeText(text[1..]) + "\"" + rest;
      TextRoundTrip(text[1..], rest);
      EscapeRoundTrip(text[0], tail);
      TextStep(EscapeChar(text[0]) + tail, text[0], tail);
      CutText(EscapeChar(text[0]), EscapeText(text[1..]), rest);
      assert text == [text[0]] + text[1..];
    }
  }

  lemma {:induction false} CutText(first: string, others: string, rest: string)
    ensures first + others + "\"" + rest == first + (others + "\"" + rest)
  {
  }

  lemma {:induction false} TextStep(s: string, c: char, tail: string)
    requires s != [] && s[0] != '\"' && ParseChar(s) == Some((c, tail)) && ParseText(tail).Some?
    ensures ParseText(s) == Some(([c] + ParseText(tail).value.0, ParseText(tail).value.1))
  {
  }

  lemma {:induction false} QuoteRoundTrip(text: string, rest: string)
    ensures var s := Quote(text) + rest; s[0] == '\"' && ParseText(s[1..]) == Some((text, rest))
  {
    TextRoundTrip(text, rest);
    QuoteBody(text, rest);
  }

  lemma {:induction false} QuoteBody(text: string, rest: string)
    ensures var s := Quote(text) + rest; s[0] == '\"' && s[1..] == EscapeText(text) + "\"" + rest
  {
  }

  predicate EndsNumber(rest: string) { rest == [] || !NumberChar(rest[0]) }

  lemma {:induction false} NumberRunExact(t: string, rest: string)
    requires AllNumberChars(t) && EndsNumber(rest)
    ensures NumberRun(t + rest) == |t|
  {
    if t == [] {
      assert t + rest == rest;
    } else {
      assert (t + rest)[1..] == t[1..] + rest;
      NumberRunExact(t[1..], rest);
    }
  }

  lemma {:induction false} NumberHead(s: string)
    requires s != [] && NumberChar(s[0])
    ensures ParseValue(s) == ParseNumber(s)
  {
  }

  lemma {:induction false} NumberRoundTrip(t: string, rest: string)
    requires IsNumber(t) && EndsNumber(rest)
    ensures ParseValue(t + rest) == Some((Num(t), rest))
  {
    NumberChars(t);
    NumberRunExact(t, rest);
    var s := t + rest;
    assert NumberChar(s[0]);
    NumberHead(s);
    assert s[..|t|] == t && s[|t|..] == rest;
  }

  /** No printed value starts with a closing bracket. */
  lemma {:induction false} CanonStart(v: Json)
    requires Decoded(v)
    ensures Canon(v) != [] && Canon(v)[0] !in "]}"
  {
    if v.Num? { NumberChars(v.token); }
  }

  /**
   The decoder undoes the printer, whatever follows the printed value.  A number has no end
   marker of its own, so what follows a bare number must not continue it.
   */
  lemma {:induction false} RoundTrip(v: Json, rest: string)
    requires Decoded(v)
    requires v.Num? ==> EndsNumber(rest)
    ensures ParseValue(Canon(v) + rest) == Some((v, rest))
    decreases v, 2, 0
  {
    var s := Canon(v) + rest;
    match v
    case Null => assert s[4..] == rest;
    case Bool(b) =>
      if b { assert s[4..] == rest; } else { assert s[5..] == rest; }
    case Num(t) => NumberRoundTrip(t, rest);
    case Str(t) => QuoteRoundTrip(t, rest);
    case Arr(items) => ArrayRoundTrip(items, rest);
    case Obj(fields) => ObjectRoundTrip(v, rest);
  }

  /** What the decoder does with a bracketed text. */
  lemma {:induction false} BracketsOpen(body: string, rest: string)
    requires body == "" || (body[0] != ']' && ParseItems(body + "]" + rest).Some?)
    ensures ParseValue("[" + body + "]" + rest) ==
              if body == "" then Some((Arr([]), rest))
              else var r := ParseItems(body + "]" + rest).value; Some((Arr(r.0), r.1))
  {
    var s := "[" + body + "]" + rest;
    if body == "" {
      assert s[2..] == rest;
    } else {
      assert s[1..] == body + "]" + rest;
    }
  }

  lemma {:induction false} CanonItemsStart(items: seq<Json>)
    requires items != [] && Decoded(items[0])
    ensures CanonItems(items) != "" && CanonItems(items)[0] != ']'
  {
    CanonStart(items[0]);
    assert CanonItems(items)[0] == Canon(items[0])[0];
  }

  lemma {:induction false} ArrayRoundTrip(items: seq<Json>, rest: string)
    requires forall x :: x in items ==> Decoded(x)
    ensures ParseValue(Canon(Arr(items)) + rest) == Some((Arr(items), rest))
    decreases items, 1, 0
  {
    if items != [] {
      CanonItemsStart(items);
      ItemsRoundTrip(items, rest);
    }
    BracketsOpen(CanonItems(items), rest);
  }

  /** An item and the closing bracket. */
  lemma {:induction false} ItemsLast(s: string, tail: string, v: Json)
    requires ParseValue(s) == Some((v, tail)) && tail != [] && tail[0] == ']'
    ensures ParseItems(s) == Some(([v], tail[1..]))
  {
  }

  /** An item, a comma and the items after it. */
  lemma {:induction false} ItemsMore(s: string, tail: string, v: Json)
    requires ParseValue(s) == Some((v, tail)) && tail != [] && tail[0] == ',' && ParseItems(tail[1..]).Some?
    ensures var r := ParseItems(tail[1..]).value; ParseItems(s) == Some(([v] + r.0, r.1))
  {
  }

  /** `head` closed by `close`, or followed by a comma, `body` and `close`: the same text, grouped by its tail. */
  lemma {:induction false} Regroup(head: string, body: string, close: char, rest: string)
    ensures head + [close] + rest == head + ([close] + rest) && ([close] + rest)[1..] == rest
    ensures var tail := "," + body + [close] + rest;
            head + "," + body + [close] + rest == head + tail && tail[0] == ',' && tail[1..] == body + [close] + rest
  {
  }

  lemma {:induction false} ItemsRoundTrip(items: seq<Json>, rest: string)
    requires items != [] && forall x :: x in items ==> Decoded(x)
    ensures ParseItems(CanonItems(items) + "]" + rest) == Some((items, rest))
    decreases items, 0, 1
  {
    var first := items[0];
    if |items| == 1 {
      var tail := "]" + rest;
      RoundTrip(first, tail);
      Regroup(Canon(first), "", ']', rest);
      ItemsLast(Canon(first) + tail, tail, first);
      assert items == [first];
    } else {
      MoreItemsRoundTrip(items, rest);
    }
  }

  lemma {:induction false} CanonItemsMore(items: seq<Json>)
    requires |items| > 1
    ensures CanonItems(items) == Canon(items[0]) + "," + CanonItems(items[1..]) && items == [items[0]] + items[1..]
  {
  }

  lemma {:induction false} MoreItemsRoundTrip(items: seq<Json>, rest: string)
    requires |items| > 1 && forall x :: x in items ==> Decoded(x)
    ensures ParseItems(CanonItems(items) + "]" + rest) == Some((items, rest))
    decreases items, 0, 0
  {
    var first, others := items[0], items[1..];
    var body := CanonItems(others);
    CanonItemsMore(items);
    var tail := "," + body + "]" + rest;
    ItemsRoundTrip(others, rest);
    RoundTrip(first, tail);
    Regroup(Canon(first), body, ']', rest);
    ItemsMore(Canon(first) + tail, tail, first);
  }

  lemma {:induction false} ObjectRoundTrip(v: Json, rest: string)
    requires v.Obj? && Decoded(v)
    ensures ParseValue(Canon(v) + rest) == Some((v, rest))
    decreases v, 1, 0
  {
    var keys := SortedKeys(v.fields.Keys);
    NoElements(keys);
    if keys == [] {
      assert CanonFields(v, keys) == "" && v.fields == map[];
      BracesOpen("", rest);
    } else {
      var body := CanonFields(v, keys);
      CanonFieldsStart(v, keys);
      FieldsRoundTrip(v, keys, rest);
      RestrictAll(v.fields, keys);
      BracesOpen(body, rest);
    }
  }

  /** What the decoder does with a braced text. */
  lemma {:induction false} BracesOpen(body: string, rest: string)
    requires body == "" || (body[0] != '}' && ParseFields(body + "}" + rest).Some?)
    ensures ParseValue("{" + body + "}" + rest) ==
              if body == "" then Some((Obj(map[]), rest))
              else var r := ParseFields(body + "}" + rest).value; Some((Obj(r.0), r.1))
  {
    var s := "{" + body + "}" + rest;
    if body == "" {
      assert s[2..] == rest;
    } else {
      assert s[1..] == body + "}" + rest;
    }
  }

  lemma {:induction false} RestrictAll(fields: map<string, Json>, keys: seq<string>)
    requires Elements(keys) == fields.Keys
    ensures forall k :: k in keys ==> k in fields
    ensures (map k | k in keys :: fields[k]) == fields
  {
    assert forall k :: k in keys <==> k in Elements(keys);
  }

  lemma {:induction false} FieldAfterKey(s: string, key: string, text: string, value: Json, tail: string)
    requires s != [] && s[0] == '\"' && ParseText(s[1..]) == Some((key, ":" + text))
    requires ParseValue(text) == Some((value, tail))
    ensures ParseField(s) == Some((key, value, tail))
  {
    assert (":" + text)[1..] == text;
  }

  lemma {:induction false} FieldRoundTrip(key: string, printed: string, value: Json, tail: string)
    requires ParseValue(printed + tail) == Some((value, tail))
    ensures ParseField(Quote(key) + ":" + printed + tail) == Some((key, value, tail))
  {
    var text := printed + tail;
    CutField(Quote(key), printed, tail);
    QuoteRoundTrip(key, ":" + text);
    FieldAfterKey(Quote(key) + (":" + text), key, text, value, tail);
  }

  lemma {:induction false} CutField(key: string, printed: string, tail: string)
    ensures key + ":" + printed + tail == key + (":" + (printed + tail))
  {
  }

  lemma {:induction false} CanonFieldsStart(v: Json, keys: seq<string>)
    requires v.Obj? && keys != [] && forall k :: k in keys ==> k in v.fields
    ensures CanonFields(v, keys) != "" && CanonFields(v, keys)[0] == '\"'
  {}

  lemma {:induction false} FieldsRoundTrip(v: Json, keys: seq<string>, rest: string)
    requires v.Obj? && Decoded(v) && keys != [] && forall k :: k in keys ==> k in v.fields
    ensures ParseFields(CanonFields(v, keys) + "}" + rest) == Some((map k | k in keys :: v.fields[k], rest))
    decreases v, 0, |keys|
  {
    var k, value := keys[0], v.fields[keys[0]];
    var field := Quote(k) + ":" + Canon(value);
    SplitRestriction(v.fields, keys);
    if |keys| == 1 {
      var tail := "}" + rest;
      RoundTrip(value, tail);
      FieldRoundTrip(k, Canon(value), value, tail);
      Regroup(field, "", '}', rest);
      FieldsLast(field + tail, tail, k, value);
      assert CanonFields(v, keys) == field;
    } else {
      var body := CanonFields(v, keys[1..]);
      var tail := "," + body + "}" + rest;
      RoundTrip(value, tail);
      FieldRoundTrip(k, Canon(value), value, tail);
      FieldsRoundTrip(v, keys[1..], rest);
      Regroup(field, body, '}', rest);
      FieldsMore(field + tail, tail, k, value);
      assert CanonFields(v, keys) == field + "," + body;
    }
  }

  /** A member and the closing brace. */
  lemma {:induction false} FieldsLast(s: string, tail: string, key: string, value: Json)
    requires ParseField(s) == Some((key, value, tail)) && tail != [] && tail[0] == '}'
    ensures ParseFields(s) == Some((map[key := value], tail[1..]))
  {
  }

  /** A member, a comma and the members after it. */
  lemma {:induction false} FieldsMore(s: string, tail: string, key: string, value: Json)
    requires ParseField(s) == Some((key, value, tail)) && tail != [] && tail[0] == ',' && ParseFields(tail[1..]).Some?
    ensures var r := ParseFields(tail[1..]).value; ParseFields(s) == Some((map[key := value] + r.0, r.1))
  {
  }

  lemma {:induction false} SplitRestriction(fields: map<string, Json>, keys: seq<string>)
    requires keys != [] && forall k :: k in keys ==> k in fields
    ensures (map k | k in keys :: fields[k]) == map[keys[0] := fields[keys[0]]] + map k | k in keys[1..] :: fields[k]
    ensures |keys| == 1 ==> (map k | k in keys :: fields[k]) == map[keys[0] := fields[keys[0]]]
  {
    assert keys == [keys[0]] + keys[1..];
    assert |keys| == 1 ==> keys[1..] == [];
  }

  // ---------------------------------------------------------------- what the round trip gives

  /** Equal canonical texts come from equal values. */
  lemma {:induction false} CanonInjective(a: Json, b: Json)
    requires Decoded(a) && Decoded(b)
    requires Canon(a) == Canon(b)
    ensures a == b
  {
    RoundTrip(a, "");
    RoundTrip(b, "");
    assert Canon(a) + "" == Canon(a) && Canon(b) + "" == Canon(b);
  }

  /** A printed value ends where it ends: no text can be split as value-then-rest in two ways. */
  lemma {:induction false} CanonSelfDelimiting(a: Json, restA: string, b: Json, restB: string)
    requires Decoded(a) && Decoded(b)
    requires a.Num? ==> EndsNumber(restA)
    requires b.Num? ==> EndsNumber(restB)
    requires Canon(a) + restA == Canon(b) + restB
    ensures a == b && restA == restB
  {
    RoundTrip(a, restA);
    RoundTrip(b, restB);
  }

  /** The side condition on numbers is needed: `1` is printed as a prefix of `12`. */
  lemma {:induction false} BareNumbersAreNotPrefixFree()
    ensures Decoded(Num("1")) && Decoded(Num("12"))
    ensures Canon(Num("1")) + "2" == Canon(Num("12")) + ""
  {
    assert "12"[1..] == "2" && "2"[1..] == "" && "1"[1..] == "";
    assert DigitRun("1") == 1 && DigitRun("2") == 1 && DigitRun("12") == 2;
  }

  // ---------------------------------------------------------------- the writer

  /** `bytes.Buffer`, of which the writer uses only appending (and undoing its own newline). */
  class Buffer {
    var text: string
    constructor ()
      ensures text == ""
    {
      text := "";
    }
  }

  lemma {:induction false} SortedDistinctKeys(keys: seq<string>, sorted: seq<string>)
    requires Distinct(keys)
    requires IsSortOf(StrLess, sorted, keys)
    ensures sorted == SortedKeys(Elements(keys))
  {
    DistinctPermutation(keys, sorted);
    forall i, j | 0 <= i < j < |sorted| ensures StrLess(sorted[i], sorted[j]) {
      StrLessTotal(sorted[i], sorted[j]);
    }
    assert forall k :: k in sorted <==> k in multiset(sorted);
    assert forall k :: k in keys <==> k in multiset(keys);
    assert Elements(sorted) == Elements(keys);
    IncreasingUnique(sorted, SortedKeys(Elements(keys)));
  }

  ghost function RestOfFields(v: Json, keys: seq<string>, i: nat): string
    requires v.Obj? && i <= |keys| && forall k :: k in keys ==> k in v.fields
  {
    (if 0 < i < |keys| then "," else "") + CanonFields(v, keys[i..])
  }

  ghost function RestOfItems(items: seq<Json>, i: nat): string
    requires i <= |items|
  {
    (if 0 < i < |items| then "," else "") + CanonItems(items[i..])
  }

  ghost function FieldText(first: bool, key: string, value: Json): string {
    (if first then "" else ",") + Quote(key) + ":" + Canon(value)
  }

  /** The first member of a non-empty list, and what follows it. */
  lemma {:induction false} FieldsFromFirst(v: Json, keys: seq<string>)
    requires v.Obj? && keys != [] && forall k :: k in keys ==> k in v.fields
    ensures CanonFields(v, keys) == FieldText(true, keys[0], v.fields[keys[0]]) + RestOfFields(v, keys, 1)
  {
    JoinMember("", Quote(keys[0]), Canon(v.fields[keys[0]]), "");
    if |keys| > 1 { JoinMember("", Quote(keys[0]), Canon(v.fields[keys[0]]), CanonFields(v, keys[1..])); }
  }

  lemma {:induction false} JoinMember(comma: string, key: string, value: string, rest: string)
    ensures "" + key + ":" + value + "" == key + ":" + value
    ensures key + ":" + value + "," + rest == "" + key + ":" + value + ("," + rest)
    ensures comma + ("" + key + ":" + value + rest) == comma + key + ":" + value + rest
  {
  }

  lemma {:induction false} NextField(v: Json, keys: seq<string>, i: nat)
    requires v.Obj? && i < |keys| && forall k :: k in keys ==> k in v.fields
    ensures RestOfFields(v, keys, i) == FieldText(i == 0, keys[i], v.fields[keys[i]]) + RestOfFields(v, keys, i + 1)
  {
    FieldsFromFirst(v, keys[i..]);
    assert keys[i..][1..] == keys[i + 1..];
    JoinMember(if i == 0 then "" else ",", Quote(keys[i]), Canon(v.fields[keys[i]]), RestOfFields(v, keys, i + 1));
  }

  lemma {:induction false} FieldWritten(v: Json, keys: seq<string>, i: nat, before: string)
    requires v.Obj? && i < |keys| && forall k :: k in keys ==> k in v.fields
    ensures before + RestOfFields(v, keys, i) ==
            before + FieldText(i == 0, keys[i], v.fields[keys[i]]) + RestOfFields(v, keys, i + 1)
  {
    NextField(v, keys, i);
  }

  lemma {:induction false} FirstField(v: Json, keys: seq<string>)
    requires v.Obj? && forall k :: k in keys ==> k in v.fields
    ensures RestOfFields(v, keys, 0) == CanonFields(v, keys)
  {
    assert keys[0..] == keys;
  }

  lemma {:induction false} LastField(v: Json, keys: seq<string>)
    requires v.Obj? && forall k :: k in keys ==> k in v.fields
    ensures RestOfFields(v, keys, |keys|) == ""
  {}

  lemma {:induction false} AllFieldsWritten(v: Json, keys: seq<string>, before: string)
    requires v.Obj? && forall k :: k in keys ==> k in v.fields
    ensures before + RestOfFields(v, keys, |keys|) == before
  {
    LastField(v, keys);
  }

  lemma {:induction false} NextItem(items: seq<Json>, i: nat)
    requires i < |items|
    ensures RestOfItems(items, i) == (if i > 0 then "," else "") + Canon(items[i]) + RestOfItems(items, i + 1)
  {
    assert items[i..][1..] == items[i + 1..];
  }

  /**
   `writeCanonicalJSON`.  Go visits map keys in an arbitrary order; here each key is picked
   arbitrarily.  The text appended is a function of the value all the same.
   */
  method WriteCanonical(buf: Buffer, v: Json)
    modifies buf
    ensures buf.text == old(buf.text) + Canon(v)
    decreases v, 2
  {
    match v
    case Null => buf.text := buf.text + "null";
    case Bool(b) => buf.text := buf.text + if b then "true" else "false";
    case Num(token) => buf.text := buf.text + token;
    case Str(s) => buf.text := buf.text + Quote(s);
    case Arr(items) => WriteItems(buf, items);
    case Obj(fields) => WriteFields(buf, v);
  }

  lemma {:induction false} ItemWritten(items: seq<Json>, i: nat, before: string)
    requires i < |items|
    ensures before + RestOfItems(items, i) == before + (if i == 0 then ""
            else ",") + Canon(items[i]) + RestOfItems(items, i + 1)
  {
    NextItem(items, i);
  }

  lemma {:induction false} AllItemsWritten(items: seq<Json>, before: string)
    ensures before + RestOfItems(items, |items|) == before
  {
  }

  lemma {:induction false} ArrayWritten(items: seq<Json>, before: string)
    ensures before + "[" + CanonItems(items) + "]" == before + Canon(Arr(items))
  {
  }

  lemma {:induction false} AllItems(items: seq<Json>)
    ensures RestOfItems(items, 0) == CanonItems(items) && RestOfItems(items, |items|) == ""
  {
    assert items[0..] == items;
  }

  method WriteItem(buf: Buffer, first: bool, item: Json)
    modifies buf
    ensures buf.text == old(buf.text) + (if first then "" else ",") + Canon(item)
    decreases item, 3
  {
    if !first { buf.text := buf.text + ","; }
    WriteCanonical(buf, item);
  }

  method WriteItems(buf: Buffer, items: seq<Json>)
    modifies buf
    ensures buf.text == old(buf.text) + Canon(Arr(items))
    decreases items, 0
  {
    ghost var start := buf.text;
    buf.text := buf.text + "[";
    AllItems(items);
    for i := 0 to |items|
      invariant buf.text + RestOfItems(items, i) == start + "[" + CanonItems(items)
    {
      ItemWritten(items, i, buf.text);
      WriteItem(buf, i == 0, items[i]);
    }
    AllItemsWritten(items, buf.text);
    buf.text := buf.text + "]";
    ArrayWritten(items, start);
  }

  /** Texts separated by commas. */
  ghost function Commas(parts: seq<string>): string {
    if parts == [] then "" else if |parts| == 1 then parts[0] else parts[0] + "," + Commas(parts[1..])
  }

  lemma {:induction false} FieldsAreCommas(v: Json, keys: seq<string>, parts: seq<string>)
    requires v.Obj? && |parts| == |keys|
    requires forall i :: 0 <= i < |keys| ==>
               keys[i] in v.fields && parts[i] == Quote(keys[i]) + ":" + Canon(v.fields[keys[i]])
    ensures CanonFields(v, keys) == Commas(parts)
    decreases |keys|
  {
    if |keys| > 1 { FieldsAreCommas(v, keys[1..], parts[1..]); }
  }

  /** How an object is printed: its members between braces, each key once, a smaller key before a greater one. */
  lemma {:induction false} MembersInKeyOrder(fields: map<string, Json>)
    returns (keys: seq<string>, members: seq<string>)
    ensures |keys| == |fields| == |members| && forall k :: k in fields <==> k in keys
    ensures forall i, j :: 0 <= i < j < |keys| ==> StrLess(keys[i], keys[j])
    ensures forall i :: 0 <= i < |keys| ==> members[i] == Canon(Str(keys[i])) + ":" + Canon(fields[keys[i]])
    ensures Canon(Obj(fields)) == "{" + Commas(members) + "}"
  {
    var v := Obj(fields);
    keys := SortedKeys(fields.Keys);
    assert forall k :: k in keys <==> k in Elements(keys);
    members := seq(|keys|, i requires 0 <= i < |keys| => Quote(keys[i]) + ":" + Canon(fields[keys[i]]));
    FieldsAreCommas(v, keys, members);
    IncreasingIsDistinct(keys);
    DistinctSize(keys);
    assert |fields.Keys| == |fields|;
  }

  lemma {:induction false} IncreasingIsDistinct(keys: seq<string>)
    requires Increasing(keys)
    ensures Distinct(keys)
  {
    forall i, j | 0 <= i < j < |keys| ensures keys[i] != keys[j] { StrLessTotal(keys[i], keys[j]); }
  }

  lemma {:induction false} TwoKeys(keys: seq<string>)
    requires |keys| == 2 && Increasing(keys) && "a" in keys && "b" in keys
    ensures keys == ["a", "b"]
  {
    assert !StrLess("b", "a");
    var i :| 0 <= i < 2 && keys[i] == "a";
    var j :| 0 <= j < 2 && keys[j] == "b";
  }

  /** Values, letter by letter: literals, brackets, commas, and the escapes of `json.Marshal`. */
  lemma {:induction false} PrintedValues(a: Json, b: Json, token: string)
    ensures Canon(Null) == "null" && Canon(Bool(true)) == "true" && Canon(Bool(false)) == "false"
    ensures Canon(Num(token)) == token && Canon(Str("<\n")) == "\"\\u003c\\n\""
    ensures Canon(Arr([])) == "[]" && Canon(Arr([a, b])) == "[" + (Canon(a) + "," + Canon(b)) + "]"
  {
    PrintedText();
    assert [a, b][1..] == [b] && CanonItems([b]) == Canon(b);
    assert CanonItems([a, b]) == Canon(a) + "," + Canon(b);
  }

  /** Which characters are escaped, and the short escapes. */
  lemma {:induction false} EscapedExactly(c: char)
    ensures EscapeChar(c) == [c] <==> ' ' <= c && c !in ['\"', '\\', '<', '>', '&', '\U{2028}', '\U{2029}']
    ensures EscapeChar('\"') == "\\\"" && EscapeChar('\\') == "\\\\" && EscapeChar('\n') == "\\n"
    ensures EscapeChar('\r') == "\\r" && EscapeChar('\t') == "\\t"
    ensures EscapeChar('\U{8}') == "\\b" && EscapeChar('\U{C}') == "\\f"
    ensures EscapeChar('\U{1F}') == "\\u001f" && EscapeChar('\U{2029}') == "\\u2029"
  {
    assert |EscapeChar(c)| == 1 ==> EscapeChar(c) == [c];
    assert UnicodeEscape('\U{1F}') == "\\u001f" && UnicodeEscape('\U{2029}') == "\\u2029";
  }

  lemma {:induction false} PrintedText()
    ensures Canon(Str("<\n")) == "\"\\u003c\\n\""
  {
    assert "<\n"[1..] == "\n" && "\n"[1..] == "" && EscapeText("") == "";
    assert EscapeText("\n") == "\\n";
    assert UnicodeEscape('<') == "\\u003c";
    assert EscapeText("<\n") == "\\u003c\\n";
  }

  lemma {:induction false} TwoMembers(members: seq<string>)
    requires |members| == 2
    ensures Commas(members) == members[0] + "," + members[1]
  {
    assert Commas(members[1..]) == members[1];
  }

  lemma {:induction false} TwoFields(fields: map<string, Json>)
    requires fields.Keys == {"a", "b"}
    ensures |fields| == 2
  {
    assert "a" != "b" && |fields.Keys| == |fields|;
  }

  /** An object with two members prints the smaller key first, whatever the values. */
  lemma {:induction false} PrintedObject(fields: map<string, Json>)
    requires fields.Keys == {"a", "b"}
    ensures Canon(Obj(fields)) ==
            "{" + (Canon(Str("a")) + ":" + Canon(fields["a"]) + "," +
                   (Canon(Str("b")) + ":" + Canon(fields["b"]))) + "}"
  {
    var keys, members := MembersInKeyOrder(fields);
    TwoFields(fields);
    TwoKeys(keys);
    TwoMembers(members);
  }

  method CollectKeys(fields: map<string, Json>) returns (keys: seq<string>)
    ensures Elements(keys) == fields.Keys
    ensures Distinct(keys)
  {
    keys := [];
    var todo := fields.Keys;
    while todo != {}
      invariant todo <= fields.Keys && Elements(keys) == fields.Keys - todo
      invariant Distinct(keys)
      decreases |todo|
    {
      var k :| k in todo;
      assert k !in Elements(keys);
      AppendElement(keys, k);
      keys := keys + [k];
      todo := todo - {k};
    }
  }

  /** The sorted key list does not depend on the order in which the map was visited. */
  method KeysInOrder(fields: map<string, Json>) returns (sorted: seq<string>)
    ensures sorted == SortedKeys(fields.Keys)
  {
    var keys := CollectKeys(fields);
    StrLessWeakOrder();
    sorted := SortSlice(StrLess, keys);
    SortedDistinctKeys(keys, sorted);
  }

  lemma {:induction false} ObjectWritten(v: Json, sorted: seq<string>, before: string)
    requires v.Obj? && sorted == SortedKeys(v.fields.Keys) && forall k :: k in sorted ==> k in v.fields
    ensures before + "{" + CanonFields(v, sorted) + "}" == before + Canon(v)
  {
    assert Canon(v) == "{" + CanonFields(v, sorted) + "}";
  }

  method WriteFields(buf: Buffer, v: Json)
    requires v.Obj?
    modifies buf
    ensures buf.text == old(buf.text) + Canon(v)
    decreases v, 1
  {
    var sorted := KeysInOrder(v.fields);
    RestrictAll(v.fields, sorted);
    ObjectWritten(v, sorted, buf.text);
    buf.text := buf.text + "{";
    WriteSortedFields(buf, v, sorted);
    buf.text := buf.text + "}";
  }

  method WriteSortedFields(buf: Buffer, v: Json, sorted: seq<string>)
    requires v.Obj? && forall k :: k in sorted ==> k in v.fields
    modifies buf
    ensures buf.text == old(buf.text) + CanonFields(v, sorted)
    decreases v, 0, 2
  {
    ghost var whole := buf.text + CanonFields(v, sorted);
    FieldsPending(v, sorted, buf.text);
    for i := 0 to |sorted|
      invariant Pending(v, sorted, i, buf.text, whole)
    {
      WriteNext(buf, v, sorted, i, whole);
    }
    AllFieldsWritten(v, sorted, buf.text);
  }

  method WriteNext(buf: Buffer, v: Json, sorted: seq<string>, i: nat, ghost whole: string)
    requires v.Obj? && i < |sorted| && forall k :: k in sorted ==> k in v.fields
    requires Pending(v, sorted, i, buf.text, whole)
    modifies buf
    ensures Pending(v, sorted, i + 1, buf.text, whole)
    decreases v, 0, 1
  {
    FieldDone(v, sorted, i, buf.text, whole);
    WriteField(buf, v, i == 0, sorted[i]);
  }

  /** Of `whole` the members from `i` on are still to be written after `text`. */
  ghost predicate Pending(v: Json, keys: seq<string>, i: nat, text: string, whole: string)
    requires v.Obj? && i <= |keys| && forall k :: k in keys ==> k in v.fields
  {
    text + RestOfFields(v, keys, i) == whole
  }

  lemma {:induction false} FieldsPending(v: Json, keys: seq<string>, text: string)
    requires v.Obj? && forall k :: k in keys ==> k in v.fields
    ensures Pending(v, keys, 0, text, text + CanonFields(v, keys))
  {
    FirstField(v, keys);
  }

  lemma {:induction false} FieldDone(v: Json, keys: seq<string>, i: nat, text: string, whole: string)
    requires v.Obj? && i < |keys| && forall k :: k in keys ==> k in v.fields
    requires Pending(v, keys, i, text, whole)
    ensures Pending(v, keys, i + 1, text + FieldText(i == 0, keys[i], v.fields[keys[i]]), whole)
  {
    FieldWritten(v, keys, i, text);
  }

  method WriteField(buf: Buffer, v: Json, first: bool, key: string)
    requires v.Obj? && key in v.fields
    modifies buf
    ensures buf.text == old(buf.text) + FieldText(first, key, v.fields[key])
    decreases v, 0, 0
  {
    ghost var before := buf.text;
    if !first { buf.text := buf.text + ","; }
    buf.text := buf.text + Quote(key) + ":";
    WriteCanonical(buf, v.fields[key]);
    FieldJoined(before, first, key, v.fields[key]);
  }

  lemma {:induction false} FieldJoined(before: string, first: bool, key: string, value: Json)
    ensures (if first then before else before + ",") + Quote(key) + ":" + Canon(value)
            == before + FieldText(first, key, value)
  {
  }

  method CanonicalJSON(v: Json) returns (text: string)
    ensures text == Canon(v)
  {
    var buf := new Buffer();
    WriteCanonical(buf, v);
    text := buf.text;
  }
}
