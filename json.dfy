/**
 * The JSON text the cached model exchanges with the store: a JSON value
 * with integer numbers, `JSON.stringify`'s compact rendering of it, and a
 * `JSON.parse`-style reader that reports malformed text.
 */
module JsonText {
  import opened Wrappers
  import opened Decimal

  /**
   * A JSON value. Objects keep their members in insertion order; JavaScript's
   * rule that array-index names come first, in ascending order, is not modelled.
   */
  datatype Json =
    | Null
    | Bool(b: bool)
    | Num(n: int)
    | Str(s: string)
    | Arr(items: seq<Json>)
    | Obj(members: seq<Member>)

  datatype Member = Member(name: string, value: Json)

  /** The members of an object, such as the attribute set of a model. */
  type Fields = seq<Member>

  // ---------------------------------------------------------------------
  // Objects as JavaScript sees them: one member per name.

  predicate HasName(fs: Fields, name: string)
  {
    exists i | 0 <= i < |fs| :: fs[i].name == name
  }

  predicate DistinctNames(fs: Fields)
  {
    forall i, j | 0 <= i < j < |fs| :: fs[i].name != fs[j].name
  }

  /** The value of property `name`, if the object has one. */
  function Find(fs: Fields, name: string): (r: Option<Json>)
    ensures r.Some? <==> HasName(fs, name)
    ensures r.Some? ==> Member(name, r.value) in fs
  {
    if fs == [] then None
    else if fs[0].name == name then Some(fs[0].value)
    else Find(fs[1..], name)
  }

  /**
   * Assigning property `name`: an existing member keeps its place and takes
   * the new value; a new name is appended.
   */
  function Put(fs: Fields, name: string, v: Json): (r: Fields)
    ensures Find(r, name) == Some(v)
    ensures forall k | k != name :: Find(r, k) == Find(fs, k)
  {
    if fs == [] then [Member(name, v)]
    else if fs[0].name == name then [Member(name, v)] + fs[1..]
    else [fs[0]] + Put(fs[1..], name, v)
  }

  /** A name the object does not have yet goes at the end. */
  lemma {:induction false} PutAppends(fs: Fields, name: string, v: Json)
    requires !HasName(fs, name)
    ensures Put(fs, name, v) == fs + [Member(name, v)]
  {
    if fs != [] {
      assert !HasName(fs[1..], name) by {
        forall i | 0 <= i < |fs| - 1 ensures fs[1..][i].name != name {
          assert fs[1..][i] == fs[i + 1];
        }
      }
      PutAppends(fs[1..], name, v);
    }
  }

  /** Put never gives an object two members of the same name. */
  lemma {:induction false} PutDistinct(fs: Fields, name: string, v: Json)
    requires DistinctNames(fs)
    ensures DistinctNames(Put(fs, name, v))
  {
    if fs != [] && fs[0].name != name {
      var tail := Put(fs[1..], name, v);
      PutDistinct(fs[1..], name, v);
      assert !HasName(fs[1..], fs[0].name) by {
        forall i | 0 <= i < |fs| - 1 ensures fs[1..][i].name != fs[0].name {
          assert fs[1..][i] == fs[i + 1];
        }
      }
      assert Find(tail, fs[0].name) == Find(fs[1..], fs[0].name);
      assert !HasName(tail, fs[0].name);
      assert Put(fs, name, v) == [fs[0]] + tail;
    }
  }

  /** A value JavaScript can hold: no object has two members of the same name. */
  predicate WellFormed(v: Json)
  {
    match v
    case Arr(items) => forall i | 0 <= i < |items| :: WellFormed(items[i])
    case Obj(fs) => DistinctNames(fs) && forall i | 0 <= i < |fs| :: WellFormed(fs[i].value)
    case _ => true
  }

  predicate WellFormedFields(fs: Fields)
  {
    DistinctNames(fs) && forall i | 0 <= i < |fs| :: WellFormed(fs[i].value)
  }

  /** Put keeps an attribute set well formed. */
  lemma {:induction false} PutWellFormed(fs: Fields, name: string, v: Json)
    requires WellFormedFields(fs) && WellFormed(v)
    ensures WellFormedFields(Put(fs, name, v))
  {
    PutDistinct(fs, name, v);
    if fs != [] && fs[0].name != name {
      PutWellFormed(fs[1..], name, v);
    }
  }

  // ---------------------------------------------------------------------
  // JSON.stringify

  function HexDigit(d: nat): (c: char)
    requires d < 16
  {
    if d < 10 then DigitChar(d) else ('a' as int + d - 10) as char
  }

  /** The escape sequence JSON.stringify writes for c inside a string literal. */
  function Escape(c: char): string
  {
    if c == '"' then "\\\""
    else if c == '\\' then "\\\\"
    else if c as int == 0x08 then "\\b"
    else if c as int == 0x0C then "\\f"
    else if c == '\n' then "\\n"
    else if c == '\r' then "\\r"
    else if c == '\t' then "\\t"
    else if c as int < 0x20 then "\\u00" + [HexDigit(c as int / 16), HexDigit(c as int % 16)]
    else [c]
  }

  function EscapeAll(s: string): string
  {
    if s == [] then [] else Escape(s[0]) + EscapeAll(s[1..])
  }

  function Quote(s: string): string
  {
    "\"" + EscapeAll(s) + "\""
  }

  /** The compact text JSON.stringify produces for v. */
  function Encode(v: Json): (t: string)
    ensures |t| > 0
  {
    match v
    case Null => "null"
    case Bool(b) => if b then "true" else "false"
    case Num(n) => Render(n)
    case Str(s) => Quote(s)
    case Arr(items) => "[" + EncodeItems(items) + "]"
    case Obj(fs) => "{" + EncodeMembers(fs) + "}"
  }

  /** Array elements, separated by commas. */
  function EncodeItems(items: seq<Json>): string
  {
    if items == [] then ""
    else if |items| == 1 then Encode(items[0])
    else Encode(items[0]) + "," + EncodeItems(items[1..])
  }

  /** Object members as `"name":value`, separated by commas, in insertion order. */
  function EncodeMembers(fs: Fields): string
  {
    if fs == [] then ""
    else if |fs| == 1 then Quote(fs[0].name) + ":" + Encode(fs[0].value)
    else Quote(fs[0].name) + ":" + Encode(fs[0].value) + "," + EncodeMembers(fs[1..])
  }

  // ---------------------------------------------------------------------
  // JSON.parse

  /** What a reader returns: the value read and the text after it. */
  datatype Parsed<T> = Parsed(value: T, rest: string)

  predicate IsJsonWhiteSpace(c: char)
  {
    c == ' ' || c == '\t' || c == '\n' || c == '\r'
  }

  function SkipWs(s: string): (t: string)
    ensures |t| <= |s|
    ensures t == [] || !IsJsonWhiteSpace(t[0])
  {
    if s != [] && IsJsonWhiteSpace(s[0]) then SkipWs(s[1..]) else s
  }

  predicate IsHex(c: char)
  {
    IsDigit(c) || 'a' <= c <= 'f' || 'A' <= c <= 'F'
  }

  function HexValue(c: char): (d: nat)
    requires IsHex(c)
    ensures d < 16
  {
    if IsDigit(c) then DigitValue(c)
    else if 'a' <= c <= 'f' then c as int - 'a' as int + 10
    else c as int - 'A' as int + 10
  }

  /** The character an escape sequence stands for; e is the text after the backslash. */
  function Unescape(e: string): (r: Option<Parsed<char>>)
    ensures r.Some? ==> |r.value.rest| < |e|
  {
    if e == [] then None
    else if e[0] == '"' || e[0] == '\\' || e[0] == '/' then Some(Parsed(e[0], e[1..]))
    else if e[0] == 'b' then Some(Parsed(0x08 as char, e[1..]))
    else if e[0] == 'f' then Some(Parsed(0x0C as char, e[1..]))
    else if e[0] == 'n' then Some(Parsed('\n', e[1..]))
    else if e[0] == 'r' then Some(Parsed('\r', e[1..]))
    else if e[0] == 't' then Some(Parsed('\t', e[1..]))
    else if e[0] == 'u' && |e| >= 5 && IsHex(e[1]) && IsHex(e[2]) && IsHex(e[3]) && IsHex(e[4]) then
      var code := HexValue(e[1]) * 4096 + HexValue(e[2]) * 256 + HexValue(e[3]) * 16 + HexValue(e[4]);
      if 0xD800 <= code <= 0xDFFF then None else Some(Parsed(code as char, e[5..]))
    else None
  }

  /** The characters of a string literal up to its closing quote; s is the text after the opening quote. */
  function ParseChars(s: string): (r: Option<Parsed<string>>)
    ensures r.Some? ==> |r.value.rest| < |s|
  {
    if s == [] then None
    else if s[0] == '"' then Some(Parsed("", s[1..]))
    else if s[0] == '\\' then
      match Unescape(s[1..])
      case None => None
      case Some(e) =>
        match ParseChars(e.rest)
        case None => None
        case Some(p) => Some(Parsed([e.value] + p.value, p.rest))
    else if s[0] as int < 0x20 then None
    else
      match ParseChars(s[1..])
      case None => None
      case Some(p) => Some(Parsed([s[0]] + p.value, p.rest))
  }

  /**
   * An integer: an optional minus sign, then 0 or digits without a leading
   * zero. A fraction or exponent is not read: the text is reported malformed.
   */
  function ParseNumber(t: string): (r: Option<Parsed<Json>>)
    ensures r.Some? ==> |r.value.rest| < |t|
  {
    if t != [] && t[0] == '-' then
      match ParseMagnitude(t[1..])
      case None => None
      case Some(p) => Some(Parsed(Num(-p.value), p.rest))
    else
      match ParseMagnitude(t)
      case None => None
      case Some(p) => Some(Parsed(Num(p.value), p.rest))
  }

  /** The unsigned part of an integer: 0 or digits without a leading zero, not followed by a fraction or exponent. */
  function ParseMagnitude(u: string): (r: Option<Parsed<int>>)
    ensures r.Some? ==> |r.value.rest| < |u| && r.value.value >= 0
  {
    var k := DigitRun(u);
    var rest := u[k..];
    if k == 0 || (k > 1 && u[0] == '0') then None
    else if rest != [] && (rest[0] == '.' || rest[0] == 'e' || rest[0] == 'E') then None
    else Some(Parsed(DigitsValue(u[..k]) as int, rest))
  }

  predicate StartsWith(t: string, word: string)
  {
    |word| <= |t| && t[..|word|] == word
  }

  /** Turns the members read from an object literal into an object: a repeated name keeps its first place and its last value. */
  function Normalize(ms: Fields): (r: Fields)
    ensures DistinctNames(r)
  {
    if ms == [] then []
    else
      var last := ms[|ms| - 1];
      PutDistinct(Normalize(ms[..|ms| - 1]), last.name, last.value);
      Put(Normalize(ms[..|ms| - 1]), last.name, last.value)
  }

  lemma {:induction false} NormalizeWellFormed(ms: Fields)
    requires forall i | 0 <= i < |ms| :: WellFormed(ms[i].value)
    ensures WellFormedFields(Normalize(ms))
  {
    if ms != [] {
      var last := ms[|ms| - 1];
      NormalizeWellFormed(ms[..|ms| - 1]);
      PutWellFormed(Normalize(ms[..|ms| - 1]), last.name, last.value);
    }
  }

  /** One JSON value, after optional white space. */
  function ParseValue(s: string): (r: Option<Parsed<Json>>)
    ensures r.Some? ==> |r.value.rest| < |s| && WellFormed(r.value.value)
    decreases |s|, 1
  {
    var t := SkipWs(s);
    if t == [] then None
    else if t[0] == '{' then
      var u := SkipWs(t[1..]);
      if u != [] && u[0] == '}' then Some(Parsed(Obj([]), u[1..]))
      else
        match ParseMembers(t[1..])
        case None => None
        case Some(p) =>
          NormalizeWellFormed(p.value);
          Some(Parsed(Obj(Normalize(p.value)), p.rest))
    else if t[0] == '[' then
      var u := SkipWs(t[1..]);
      if u != [] && u[0] == ']' then Some(Parsed(Arr([]), u[1..]))
      else
        match ParseElements(t[1..])
        case None => None
        case Some(p) => Some(Parsed(Arr(p.value), p.rest))
    else if t[0] == '"' then
      match ParseChars(t[1..])
      case None => None
      case Some(p) => Some(Parsed(Str(p.value), p.rest))
    else if t[0] == '-' || IsDigit(t[0]) then ParseNumber(t)
    else if StartsWith(t, "null") then Some(Parsed(Null, t[4..]))
    else if StartsWith(t, "true") then Some(Parsed(Bool(true), t[4..]))
    else if StartsWith(t, "false") then Some(Parsed(Bool(false), t[5..]))
    else None
  }

  /** The elements of a non-empty array and its closing bracket; s is the text after `[`. */
  function ParseElements(s: string): (r: Option<Parsed<seq<Json>>>)
    ensures r.Some? ==> |r.value.rest| < |s|
    ensures r.Some? ==> forall i | 0 <= i < |r.value.value| :: WellFormed(r.value.value[i])
    decreases |s|, 2
  {
    match ParseValue(s)
    case None => None
    case Some(p) =>
      var w := SkipWs(p.rest);
      if w == [] then None
      else if w[0] == ']' then Some(Parsed([p.value], w[1..]))
      else if w[0] == ',' then
        match ParseElements(w[1..])
        case None => None
        case Some(q) => Some(Parsed([p.value] + q.value, q.rest))
      else None
  }

  /** The members of a non-empty object and its closing brace; s is the text after `{`. */
  function ParseMembers(s: string): (r: Option<Parsed<Fields>>)
    ensures r.Some? ==> |r.value.rest| < |s|
    ensures r.Some? ==> forall i | 0 <= i < |r.value.value| :: WellFormed(r.value.value[i].value)
    decreases |s|, 2
  {
    var t := SkipWs(s);
    if t == [] || t[0] != '"' then None
    else
      match ParseChars(t[1..])
      case None => None
      case Some(key) =>
        var u := SkipWs(key.rest);
        if u == [] || u[0] != ':' then None
        else
          match ParseValue(u[1..])
          case None => None
          case Some(p) =>
            var w := SkipWs(p.rest);
            if w == [] then None
            else if w[0] == '}' then Some(Parsed([Member(key.value, p.value)], w[1..]))
            else if w[0] == ',' then
              match ParseMembers(w[1..])
              case None => None
              case Some(q) => Some(Parsed([Member(key.value, p.value)] + q.value, q.rest))
            else None
  }

  /** JSON.parse: one value, surrounded by nothing but white space; None is a SyntaxError. */
  function Decode(text: string): (r: Option<Json>)
    ensures r.Some? ==> WellFormed(r.value)
  {
    match ParseValue(text)
    case None => None
    case Some(p) => if SkipWs(p.rest) == [] then Some(p.value) else None
  }
}
