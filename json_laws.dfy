/**
 * What the model relies on about its JSON text: reading back what
 * `JSON.stringify` wrote gives the same value, and malformed text is reported.
 */
module JsonLaws {
  import opened Wrappers
  import opened Decimal
  import opened JsonText

  /** Text that ends a value inside JSON text: a comma, a closing bracket or brace, or the end. */
  predicate Delimited(rest: string)
  {
    rest == [] || rest[0] == ',' || rest[0] == ']' || rest[0] == '}'
  }

  lemma HexRoundTrip(d: nat)
    requires d < 16
    ensures IsHex(HexDigit(d)) && HexValue(HexDigit(d)) == d
  {
  }

  /** The reader undoes one escaped character. */
  lemma EscapeThenParse(c: char, more: string)
    ensures ParseChars(Escape(c) + more) ==
      match ParseChars(more)
      case None => None
      case Some(p) => Some(Parsed([c] + p.value, p.rest))
  {
    var s := Escape(c) + more;
    if c == '"' || c == '\\' || c as int == 0x08 || c as int == 0x0C || c == '\n' || c == '\r' || c == '\t' {
      ShortEscape(c, more);
      EscapedChar(s, c, more);
    } else if c as int < 0x20 {
      ControlEscape(c, more);
      EscapedChar(s, c, more);
    } else {
      assert s[1..] == more;
    }
  }

  /** The characters with a two-character escape read back after the backslash. */
  lemma ShortEscape(c: char, more: string)
    requires c == '"' || c == '\\' || c as int == 0x08 || c as int == 0x0C || c == '\n' || c == '\r' || c == '\t'
    ensures var s := Escape(c) + more;
      s != [] && s[0] == '\\' && Unescape(s[1..]) == Some(Parsed(c, more))
  {
    var s := Escape(c) + more;
    assert s[1..] == Escape(c)[1..] + more;
  }

  /** The other control characters are written as \u00XX and read back after the backslash. */
  lemma ControlEscape(c: char, more: string)
    requires c as int < 0x20
    requires !(c as int == 0x08 || c as int == 0x0C || c == '\n' || c == '\r' || c == '\t')
    ensures var s := Escape(c) + more;
      s != [] && s[0] == '\\' && Unescape(s[1..]) == Some(Parsed(c, more))
  {
    var s := Escape(c) + more;
    var hi, lo := c as int / 16, c as int % 16;
    HexRoundTrip(hi);
    HexRoundTrip(lo);
    var e := s[1..];
    assert e == ['u', '0', '0', HexDigit(hi), HexDigit(lo)] + more;
    assert e[5..] == more;
  }

  /** The reader after an escape sequence that stands for c. */
  lemma EscapedChar(s: string, c: char, more: string)
    requires s != [] && s[0] == '\\' && Unescape(s[1..]) == Some(Parsed(c, more))
    ensures ParseChars(s) ==
      match ParseChars(more)
      case None => None
      case Some(p) => Some(Parsed([c] + p.value, p.rest))
  {
  }

  /** The reader undoes the escaping of a whole string literal. */
  lemma {:induction false} EscapeAllThenParse(s: string, rest: string)
    ensures ParseChars(EscapeAll(s) + "\"" + rest) == Some(Parsed(s, rest))
  {
    if s == [] {
      assert EscapeAll(s) + "\"" + rest == ['"'] + rest;
    } else {
      var tail := EscapeAll(s[1..]) + "\"" + rest;
      assert EscapeAll(s) + "\"" + rest == Escape(s[0]) + tail;
      EscapeAllThenParse(s[1..], rest);
      EscapeThenParse(s[0], tail);
      assert [s[0]] + s[1..] == s;
    }
  }

  lemma SkipNoWhiteSpace(s: string)
    requires s == [] || !IsJsonWhiteSpace(s[0])
    ensures SkipWs(s) == s
  {
  }

  /** The reader undoes the rendering of an integer. */
  lemma NumberRoundTrip(n: int, rest: string)
    requires Delimited(rest)
    ensures ParseNumber(Render(n) + rest) == Some(Parsed(Num(n), rest))
  {
    var m: nat := if n < 0 then -n else n;
    DigitsMagnitude(m, rest);
    RenderShape(n, rest);
    SignShape(Render(n) + rest, n < 0, Digits(m) + rest, m, rest);
  }

  /** The reader on the decimal text of a natural number followed by a delimiter. */
  lemma DigitsMagnitude(m: nat, rest: string)
    requires Delimited(rest)
    ensures ParseMagnitude(Digits(m) + rest) == Some(Parsed(m as int, rest))
  {
    var ds := Digits(m);
    DigitsValueOfDigits(m);
    assert |ds| > 1 ==> ds[0] != '0';
    MagnitudeShape(ds, rest);
  }

  /** The reader on an optional minus sign followed by text whose magnitude reads as v. */
  lemma SignShape(t: string, negative: bool, u: string, v: int, rest: string)
    requires t == if negative then "-" + u else u
    requires !negative ==> u != [] && u[0] != '-'
    requires ParseMagnitude(u) == Some(Parsed(v, rest))
    ensures ParseNumber(t) == Some(Parsed(Num(if negative then -v else v), rest))
  {
    if negative {
      DropFirst('-', u);
    }
  }

  /** The reader on a canonical run of digits followed by a delimiter. */
  lemma MagnitudeShape(ds: string, rest: string)
    requires ds != [] && AllDigits(ds) && (|ds| > 1 ==> ds[0] != '0')
    requires Delimited(rest)
    ensures ParseMagnitude(ds + rest) == Some(Parsed(DigitsValue(ds) as int, rest))
  {
    var u := ds + rest;
    DigitRunOfDigits(ds, rest);
    assert u[..|ds|] == ds;
    assert u[|ds|..] == rest;
  }

  /** Objects read back from stringified well-formed objects need no merging of repeated names. */
  lemma {:induction false} NormalizeDistinct(fs: Fields)
    requires DistinctNames(fs)
    ensures Normalize(fs) == fs
  {
    if fs != [] {
      var init := fs[..|fs| - 1];
      var last := fs[|fs| - 1];
      SplitLast(fs);
      NormalizeDistinct(init);
      PutAppends(init, last.name, last.value);
    }
  }

  /** A list with distinct names is its distinct front followed by a last member whose name is new. */
  lemma SplitLast(fs: Fields)
    requires DistinctNames(fs) && fs != []
    ensures DistinctNames(fs[..|fs| - 1]) && !HasName(fs[..|fs| - 1], fs[|fs| - 1].name)
    ensures fs[..|fs| - 1] + [fs[|fs| - 1]] == fs
  {
  }

  // One step of each reader, for the shapes the writer produces.

  lemma ElementsLast(s: string, v: Json, rest: string)
    requires ParseValue(s) == Some(Parsed(v, "]" + rest))
    ensures ParseElements(s) == Some(Parsed([v], rest))
  {
    assert ("]" + rest)[1..] == rest;
  }

  lemma ElementsNext(s: string, v: Json, more: string)
    requires ParseValue(s) == Some(Parsed(v, "," + more))
    ensures ParseElements(s) ==
      match ParseElements(more)
      case None => None
      case Some(q) => Some(Parsed([v] + q.value, q.rest))
  {
    assert ("," + more)[1..] == more;
  }

  lemma MembersLast(s: string, name: string, valueText: string, v: Json, rest: string)
    requires s != [] && s[0] == '"'
    requires ParseChars(s[1..]) == Some(Parsed(name, ":" + valueText))
    requires ParseValue(valueText) == Some(Parsed(v, "}" + rest))
    ensures ParseMembers(s) == Some(Parsed([Member(name, v)], rest))
  {
    assert (":" + valueText)[1..] == valueText;
    assert ("}" + rest)[1..] == rest;
  }

  lemma MembersNext(s: string, name: string, valueText: string, v: Json, more: string)
    requires s != [] && s[0] == '"'
    requires ParseChars(s[1..]) == Some(Parsed(name, ":" + valueText))
    requires ParseValue(valueText) == Some(Parsed(v, "," + more))
    ensures ParseMembers(s) ==
      match ParseMembers(more)
      case None => None
      case Some(q) => Some(Parsed([Member(name, v)] + q.value, q.rest))
  {
    assert (":" + valueText)[1..] == valueText;
    assert ("," + more)[1..] == more;
  }

  lemma ValueOpenBracket(s: string, body: string)
    requires s == "[" + body
    requires body != [] && body[0] != ']' && !IsJsonWhiteSpace(body[0])
    ensures ParseValue(s) ==
      match ParseElements(body)
      case None => None
      case Some(p) => Some(Parsed(Arr(p.value), p.rest))
  {
    assert s[1..] == body;
  }

  lemma ValueOpenBrace(s: string, body: string)
    requires s == "{" + body
    requires body != [] && body[0] == '"'
    ensures ParseValue(s) ==
      match ParseMembers(body)
      case None => None
      case Some(p) => Some(Parsed(Obj(Normalize(p.value)), p.rest))
  {
    assert s[1..] == body;
  }

  lemma ValueQuote(s: string, body: string)
    requires s == "\"" + body
    ensures ParseValue(s) ==
      match ParseChars(body)
      case None => None
      case Some(p) => Some(Parsed(Str(p.value), p.rest))
  {
    assert s[1..] == body;
  }

  lemma ValueEmptyBrackets(open: char, close: char, rest: string)
    requires (open == '[' && close == ']') || (open == '{' && close == '}')
    ensures ParseValue([open, close] + rest) == Some(Parsed(if open == '[' then Arr([]) else Obj([]), rest))
  {
    var s := [open, close] + rest;
    assert s[1..] == [close] + rest;
    assert s[1..][1..] == rest;
  }

  lemma ValueNumber(n: int, rest: string)
    requires Delimited(rest)
    ensures ParseValue(Render(n) + rest) == Some(Parsed(Num(n), rest))
  {
    FirstOfConcat(Render(n), rest);
    ValueOfNumberText(Render(n) + rest);
    NumberRoundTrip(n, rest);
  }

  /** Text that starts with a minus sign or a digit is read as a number. */
  lemma ValueOfNumberText(s: string)
    requires s != [] && (s[0] == '-' || IsDigit(s[0]))
    ensures ParseValue(s) == ParseNumber(s)
  {
    SkipNoWhiteSpace(s);
  }

  lemma FirstOfConcat(a: string, b: string)
    requires a != []
    ensures (a + b)[0] == a[0]
  {
  }

  lemma ValueLiteral(v: Json, rest: string)
    requires v.Null? || v.Bool?
    ensures ParseValue(Encode(v) + rest) == Some(Parsed(v, rest))
  {
    var s := Encode(v) + rest;
    if v.Null? {
      assert s[..4] == "null" && s[4..] == rest;
    } else if v.b {
      assert s[..4] == "true" && s[4..] == rest;
    } else {
      assert s[0] == 'f';
      assert s[..5] == "false" && s[5..] == rest;
    }
  }

  /** Reading back the text of a well-formed value gives the value and leaves the text after it. */
  lemma {:induction false} ValueRoundTrip(v: Json, rest: string)
    requires WellFormed(v) && Delimited(rest)
    ensures ParseValue(Encode(v) + rest) == Some(Parsed(v, rest))
    decreases v, 3
  {
    match v
    case Null => ValueLiteral(v, rest);
    case Bool(_) => ValueLiteral(v, rest);
    case Num(n) => ValueNumber(n, rest);
    case Str(str) => StringRoundTrip(str, rest);
    case Arr(items) => ArrayRoundTrip(items, rest);
    case Obj(fs) => ObjectRoundTrip(fs, rest);
  }

  lemma StringRoundTrip(str: string, rest: string)
    ensures ParseValue(Encode(Str(str)) + rest) == Some(Parsed(Str(str), rest))
  {
    var s := Encode(Str(str)) + rest;
    assert s == "\"" + (EscapeAll(str) + "\"" + rest);
    ValueQuote(s, EscapeAll(str) + "\"" + rest);
    EscapeAllThenParse(str, rest);
  }

  lemma {:induction false} ArrayRoundTrip(items: seq<Json>, rest: string)
    requires WellFormed(Arr(items)) && Delimited(rest)
    ensures ParseValue(Encode(Arr(items)) + rest) == Some(Parsed(Arr(items), rest))
    decreases Arr(items), 2
  {
    var s := Encode(Arr(items)) + rest;
    if items == [] {
      assert s == ['[', ']'] + rest;
      ValueEmptyBrackets('[', ']', rest);
    } else {
      var body := EncodeItems(items) + "]" + rest;
      assert s == "[" + body;
      ItemsStart(items);
      EncodeStart(items[0]);
      ValueOpenBracket(s, body);
      ElementsRoundTrip(items, rest);
    }
  }

  lemma {:induction false} ObjectRoundTrip(fs: Fields, rest: string)
    requires WellFormed(Obj(fs)) && Delimited(rest)
    ensures ParseValue(Encode(Obj(fs)) + rest) == Some(Parsed(Obj(fs), rest))
    decreases Obj(fs), 2
  {
    var s := Encode(Obj(fs)) + rest;
    if fs == [] {
      assert s == ['{', '}'] + rest;
      ValueEmptyBrackets('{', '}', rest);
    } else {
      var body := EncodeMembers(fs) + "}" + rest;
      assert s == "{" + body;
      MembersStart(fs);
      ValueOpenBrace(s, body);
      MembersRoundTrip(fs, rest);
      NormalizeDistinct(fs);
    }
  }

  lemma ItemsStart(items: seq<Json>)
    requires items != []
    ensures |EncodeItems(items)| > 0 && EncodeItems(items)[0] == Encode(items[0])[0]
  {
  }

  lemma MembersStart(fs: Fields)
    requires fs != []
    ensures |EncodeMembers(fs)| > 0 && EncodeMembers(fs)[0] == '"'
  {
  }

  /** Every encoding starts with a character that is not white space and not a closing bracket. */
  lemma EncodeStart(v: Json)
    ensures Encode(v)[0] != ']' && Encode(v)[0] != '}' && !IsJsonWhiteSpace(Encode(v)[0])
  {
  }

  /** Reading back the elements of a non-empty array. */
  lemma {:induction false} ElementsRoundTrip(items: seq<Json>, rest: string)
    requires items != []
    requires forall i | 0 <= i < |items| :: WellFormed(items[i])
    ensures ParseElements(EncodeItems(items) + "]" + rest) == Some(Parsed(items, rest))
    decreases items, 2
  {
    if |items| == 1 {
      LastElementRoundTrip(items, rest);
    } else {
      NextElementRoundTrip(items, rest);
    }
  }

  lemma {:induction false} LastElementRoundTrip(items: seq<Json>, rest: string)
    requires |items| == 1 && WellFormed(items[0])
    ensures ParseElements(EncodeItems(items) + "]" + rest) == Some(Parsed(items, rest))
    decreases items, 1
  {
    var s := EncodeItems(items) + "]" + rest;
    assert s == Encode(items[0]) + ("]" + rest);
    ValueRoundTrip(items[0], "]" + rest);
    ElementsLast(s, items[0], rest);
    assert items == [items[0]];
  }

  lemma {:induction false} NextElementRoundTrip(items: seq<Json>, rest: string)
    requires |items| > 1
    requires forall i | 0 <= i < |items| :: WellFormed(items[i])
    ensures ParseElements(EncodeItems(items) + "]" + rest) == Some(Parsed(items, rest))
    decreases items, 1
  {
    var s := EncodeItems(items) + "]" + rest;
    var more := EncodeItems(items[1..]) + "]" + rest;
    ItemsText(items, rest);
    ValueRoundTrip(items[0], "," + more);
    ElementsNext(s, items[0], more);
    TailWellFormedItems(items);
    ElementsRoundTrip(items[1..], rest);
    assert [items[0]] + items[1..] == items;
  }

  lemma ItemsText(items: seq<Json>, rest: string)
    requires |items| > 1
    ensures EncodeItems(items) + "]" + rest == Encode(items[0]) + ("," + (EncodeItems(items[1..]) + "]" + rest))
  {
    var v, t := Encode(items[0]), EncodeItems(items[1..]);
    assert EncodeItems(items) == v + "," + t;
    Assoc3(",", t + "]", rest);
    Assoc3(",", t, "]");
    Assoc3(v, "," + t + "]", rest);
    Assoc3(v, "," + t, "]");
    Assoc3(v, ",", t);
  }

  lemma TailWellFormedItems(items: seq<Json>)
    requires items != []
    requires forall i | 0 <= i < |items| :: WellFormed(items[i])
    ensures forall i | 0 <= i < |items[1..]| :: WellFormed(items[1..][i])
  {
    forall i | 0 <= i < |items[1..]| ensures WellFormed(items[1..][i]) {
      assert items[1..][i] == items[i + 1];
    }
  }

  lemma TailWellFormedMembers(fs: Fields)
    requires fs != []
    requires forall i | 0 <= i < |fs| :: WellFormed(fs[i].value)
    ensures forall i | 0 <= i < |fs[1..]| :: WellFormed(fs[1..][i].value)
  {
    forall i | 0 <= i < |fs[1..]| ensures WellFormed(fs[1..][i].value) {
      assert fs[1..][i] == fs[i + 1];
    }
  }

  /** What follows the first member of a non-empty object's text. */
  function AfterFirstMember(fs: Fields, rest: string): string
    requires fs != []
  {
    if |fs| == 1 then "}" + rest else "," + (EncodeMembers(fs[1..]) + "}" + rest)
  }

  lemma MembersText(fs: Fields, rest: string)
    requires fs != []
    ensures EncodeMembers(fs) + "}" + rest
      == "\"" + (EscapeAll(fs[0].name) + "\"" + (":" + (Encode(fs[0].value) + AfterFirstMember(fs, rest))))
  {
    var t := if |fs| == 1 then "" else "," + EncodeMembers(fs[1..]);
    FirstMemberText(fs);
    AfterFirstText(fs, rest);
    MemberShape(EscapeAll(fs[0].name), Encode(fs[0].value), t, rest);
  }

  /** The members' text: the first member, then a comma and the others' text if there are others. */
  lemma FirstMemberText(fs: Fields)
    requires fs != []
    ensures EncodeMembers(fs) == "\"" + EscapeAll(fs[0].name) + "\"" + ":" + Encode(fs[0].value)
      + (if |fs| == 1 then "" else "," + EncodeMembers(fs[1..]))
  {
    var head := Quote(fs[0].name) + ":" + Encode(fs[0].value);
    if |fs| == 1 {
      assert head + "" == head;
    } else {
      Assoc3(head, ",", EncodeMembers(fs[1..]));
    }
  }

  lemma AfterFirstText(fs: Fields, rest: string)
    requires fs != []
    ensures AfterFirstMember(fs, rest) == (if |fs| == 1 then "" else "," + EncodeMembers(fs[1..])) + "}" + rest
  {
    if |fs| == 1 {
      assert "" + "}" == "}";
    } else {
      Assoc3(",", EncodeMembers(fs[1..]) + "}", rest);
      Assoc3(",", EncodeMembers(fs[1..]), "}");
    }
  }

  lemma Assoc3(a: string, b: string, c: string)
    ensures a + (b + c) == a + b + c
  {
  }

  /** The text of a first member, regrouped the way the reader consumes it. */
  lemma MemberShape(e: string, v: string, t: string, rest: string)
    ensures "\"" + e + "\"" + ":" + v + t + "}" + rest
      == "\"" + (e + "\"" + (":" + (v + (t + "}" + rest))))
  {
  }

  /** Reading back the name and value of the first member of a non-empty object. */
  lemma {:induction false} FirstMemberParses(fs: Fields, rest: string)
    requires fs != [] && WellFormed(fs[0].value)
    ensures var s := EncodeMembers(fs) + "}" + rest;
      var valueText := Encode(fs[0].value) + AfterFirstMember(fs, rest);
      s != [] && s[0] == '"'
      && ParseChars(s[1..]) == Some(Parsed(fs[0].name, ":" + valueText))
      && ParseValue(valueText) == Some(Parsed(fs[0].value, AfterFirstMember(fs, rest)))
    decreases fs, 0
  {
    var after := AfterFirstMember(fs, rest);
    var valueText := Encode(fs[0].value) + after;
    var body := EscapeAll(fs[0].name) + "\"" + (":" + valueText);
    MembersText(fs, rest);
    DropFirst('"', body);
    EscapeAllThenParse(fs[0].name, ":" + valueText);
    ValueRoundTrip(fs[0].value, after);
  }

  lemma DropFirst(c: char, body: string)
    ensures ([c] + body)[1..] == body
  {
  }

  /** Reading back the members of a non-empty object. */
  lemma {:induction false} MembersRoundTrip(fs: Fields, rest: string)
    requires fs != []
    requires forall i | 0 <= i < |fs| :: WellFormed(fs[i].value)
    ensures ParseMembers(EncodeMembers(fs) + "}" + rest) == Some(Parsed(fs, rest))
    decreases fs, 2
  {
    if |fs| == 1 {
      LastMemberRoundTrip(fs, rest);
    } else {
      NextMemberRoundTrip(fs, rest);
    }
  }

  lemma {:induction false} LastMemberRoundTrip(fs: Fields, rest: string)
    requires |fs| == 1 && WellFormed(fs[0].value)
    ensures ParseMembers(EncodeMembers(fs) + "}" + rest) == Some(Parsed(fs, rest))
    decreases fs, 1
  {
    var s := EncodeMembers(fs) + "}" + rest;
    var valueText := Encode(fs[0].value) + AfterFirstMember(fs, rest);
    FirstMemberParses(fs, rest);
    assert AfterFirstMember(fs, rest) == "}" + rest;
    MembersLast(s, fs[0].name, valueText, fs[0].value, rest);
    assert fs == [fs[0]];
  }

  lemma {:induction false} NextMemberRoundTrip(fs: Fields, rest: string)
    requires |fs| > 1
    requires forall i | 0 <= i < |fs| :: WellFormed(fs[i].value)
    ensures ParseMembers(EncodeMembers(fs) + "}" + rest) == Some(Parsed(fs, rest))
    decreases fs, 1
  {
    var s := EncodeMembers(fs) + "}" + rest;
    var more := EncodeMembers(fs[1..]) + "}" + rest;
    var valueText := Encode(fs[0].value) + AfterFirstMember(fs, rest);
    FirstMemberParses(fs, rest);
    assert AfterFirstMember(fs, rest) == "," + more;
    MembersNext(s, fs[0].name, valueText, fs[0].value, more);
    TailWellFormedMembers(fs);
    MembersRoundTrip(fs[1..], rest);
    assert [fs[0]] + fs[1..] == fs;
  }

  /** JSON.parse(JSON.stringify(v)) gives v back for every value JavaScript can hold. */
  lemma DecodeEncode(v: Json)
    requires WellFormed(v)
    ensures Decode(Encode(v)) == Some(v)
  {
    ValueRoundTrip(v, "");
    assert Encode(v) + "" == Encode(v);
  }

  /** The characters a JSON value can begin with. */
  predicate OpensValue(c: char)
  {
    c == '{' || c == '[' || c == '"' || c == '-' || IsDigit(c) || c == 'n' || c == 't' || c == 'f'
  }

  /** Text that is empty or white space, or whose first other character cannot begin a value, is malformed. */
  lemma NoValueRejected(text: string)
    requires SkipWs(text) == [] || !OpensValue(SkipWs(text)[0])
    ensures Decode(text) == None
  {
    var t := SkipWs(text);
    if t != [] {
      assert !StartsWith(t, "null") && !StartsWith(t, "true") && !StartsWith(t, "false");
    }
  }

  /** Test vector: the malformed text `{{{` and the empty text are refused (see NoValueRejected for the general law). */
  lemma MalformedRejected()
    ensures Decode("{{{") == None
    ensures Decode("") == None
  {
    var s := "{{{";
    assert SkipWs(s[1..]) == "{{";
    assert SkipWs("{{") == "{{";
  }
}
