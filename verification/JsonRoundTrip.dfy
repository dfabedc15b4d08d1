/** Parsing what was printed gives the tree back, in both print modes. */
module JsonRoundTrip {
  import opened Bytes
  import opened Wrappers
  import opened Json
  import Utf8

  // -------------------------------------------------------------------------
  // Strings
  // -------------------------------------------------------------------------

  lemma HexDigitValue(n: nat)
    requires n < 16
    ensures HexValue(HexDigit(n)) == Some(n)
  {
  }

  /** The `\u00xx` form of a control character reads back as that character. */
  lemma ControlEscape(n: nat)
    requires n < 0x20
    ensures UnicodeEscape([0x30, 0x30, HexDigit(n / 16), HexDigit(n % 16)]) == Some(n as char)
  {
    var s := [0x30, 0x30, HexDigit(n / 16), HexDigit(n % 16)];
    HexDigitValue(n / 16);
    HexDigitValue(n % 16);
    assert s[..3] == [0x30, 0x30, HexDigit(n / 16)];
    assert s[..3][..2] == [0x30, 0x30];
    assert s[..3][..2][..1] == [0x30];
    assert HexNumber([0x30]) == Some(0);
    assert HexNumber([0x30, 0x30]) == Some(0);
    assert HexNumber(s[..3]) == Some(n / 16);
  }

  /** Each escaped character reads back, whatever follows it. */
  lemma CharRoundTrip(c: char, rest: seq<byte>)
    ensures var e := EscapeChar(c);
            && e != [] && e[0] != QUOTE
            && ParseChar(e + rest) == Parsed(c, rest)
  {
    var n := c as int;
    var e := EscapeChar(c);
    assert (e + rest)[|e|..] == rest;
    if e[0] == BACKSLASH && e[1] == 0x75 {
      ControlEscape(n);
      assert (e + rest)[2..6] == [0x30, 0x30, HexDigit(n / 16), HexDigit(n % 16)];
    } else if n >= 0x80 {
      Utf8.DecodeEncode(c);
      assert (e + rest)[..|e|] == e;
    }
  }

  lemma {:induction false} StringRoundTrip(s: string, rest: seq<byte>)
    ensures ParseString(EscapeBody(s) + rest) == Parsed(s, rest)
  {
    if s == [] {
      assert ([QUOTE] + rest)[1..] == rest;
    } else {
      var e := EscapeChar(s[0]);
      var tail := EscapeBody(s[1..]) + rest;
      assert EscapeBody(s) + rest == e + tail;
      CharRoundTrip(s[0], tail);
      StringRoundTrip(s[1..], rest);
      assert (e + tail)[0] == e[0];
      assert s == [s[0]] + s[1..];
    }
  }

  // -------------------------------------------------------------------------
  // Integers
  // -------------------------------------------------------------------------

  lemma {:induction false} DigitsRoundTrip(n: nat)
    ensures Digits(n) != [] && AllDigits(Digits(n)) && DecimalValue(Digits(n)) == n
  {
    if n >= 10 {
      DigitsRoundTrip(n / 10);
      var d := Digits(n);
      assert d[..|d| - 1] == Digits(n / 10);
    } else {
      assert Digits(n)[..0] == [];
    }
  }

  lemma {:induction false} SpanOfNumber(text: seq<byte>, rest: seq<byte>)
    requires forall i :: 0 <= i < |text| ==> IsNumberByte(text[i])
    requires rest != [] ==> !IsNumberByte(rest[0])
    ensures NumberSpan(text + rest) == |text|
  {
    if text == [] {
      assert text + rest == rest;
    } else {
      assert (text + rest)[1..] == text[1..] + rest;
      SpanOfNumber(text[1..], rest);
    }
  }

  lemma IntRoundTrip(i: int, rest: seq<byte>)
    requires IsI64(i)
    requires rest != [] ==> !IsNumberByte(rest[0])
    ensures ParseValue(PrintInt(i) + rest) == Parsed(Int(i), rest)
  {
    IntIsParsed(i);
    var text := PrintInt(i);
    hide PrintInt, ParseI64, AllDigits, Unsigned;
    SpanOfNumber(text, rest);
    assert (text + rest)[..|text|] == text && (text + rest)[|text|..] == rest;
    assert (text + rest)[0] == text[0];
  }

  lemma IntIsParsed(i: int)
    requires IsI64(i)
    ensures
      var text := PrintInt(i);
      && text != [] && (IsDigit(text[0]) || text[0] == MINUS)
      && (forall k :: 0 <= k < |text| ==> IsNumberByte(text[k]))
      && AllDigits(Unsigned(text)) && ParseI64(text) == Some(i)
  {
    var n := if i < 0 then -i else i;
    DigitsRoundTrip(n);
    hide Digits, DecimalValue;
    assert IsDigit(Digits(n)[0]);
    assert Unsigned(PrintInt(i)) == Digits(n);
  }

  // -------------------------------------------------------------------------
  // Floats
  // -------------------------------------------------------------------------

  lemma {:induction false} IndexOfNone(s: seq<byte>, p: byte -> bool)
    requires forall i :: 0 <= i < |s| ==> !p(s[i])
    ensures IndexOf(s, p) == |s|
  {
    if s != [] {
      IndexOfNone(s[1..], p);
    }
  }

  /** The bytes of a printed float. */
  lemma DecimalBytes(text: seq<byte>)
    requires IsDecimalText(text)
    ensures text != [] && (IsDigit(text[0]) || text[0] == MINUS)
    ensures forall i :: 0 <= i < |Unsigned(text)| ==> IsDigit(Unsigned(text)[i]) || Unsigned(text)[i] == DOT
    ensures Unsigned(text) == if text[0] == MINUS then text[1..] else text
  {
    var body := if text != [] && text[0] == MINUS then text[1..] else text;
    var dot := DotAt(body);
    assert IsDigit(body[..dot][0]);
    forall i | 0 <= i < |body| ensures IsDigit(body[i]) || body[i] == DOT {
      if i < dot { assert IsDigit(body[..dot][i]); } else if i > dot { assert IsDigit(body[dot + 1..][i - dot - 1]); }
    }
  }

  lemma DecimalIsFloatText(text: seq<byte>)
    requires IsDecimalText(text)
    ensures IsFloatText(text)
  {
    DecimalBytes(text);
    var body := Unsigned(text);
    IndexOfNone(body, b => b == 0x65 || b == 0x45);
    assert body[..|body|] == body;
  }

  /** A printed float is read back as that float exactly if the text is not also
      that of a 64-bit integer; whole-valued ones come back as integers. */
  lemma FloatRoundTrip(text: seq<byte>, rest: seq<byte>)
    requires IsDecimalText(text)
    requires rest != [] ==> !IsNumberByte(rest[0])
    ensures ParseValue(text + rest) ==
            Parsed(if ParseI64(text).Some? then Int(ParseI64(text).value) else Float(text), rest)
  {
    hide IsDecimalText, IsFloatText;
    DecimalBytes(text);
    DecimalIsFloatText(text);
    forall i | 0 <= i < |text| ensures IsNumberByte(text[i]) {
      if text[0] != MINUS || i > 0 {
        var body := Unsigned(text);
        var k := if text[0] == MINUS then i - 1 else i;
        assert text[i] == body[k];
      }
    }
    SpanOfNumber(text, rest);
    assert (text + rest)[..|text|] == text && (text + rest)[|text|..] == rest;
    assert (text + rest)[0] == text[0];
  }

  // -------------------------------------------------------------------------
  // White space between tokens
  // -------------------------------------------------------------------------

  lemma {:induction false} SkipsWs(ws: seq<byte>, rest: seq<byte>)
    requires forall i :: 0 <= i < |ws| ==> IsWs(ws[i])
    requires rest != [] ==> !IsWs(rest[0])
    ensures SkipWs(ws + rest) == rest
  {
    if ws == [] {
      assert ws + rest == rest;
    } else {
      assert (ws + rest)[1..] == ws[1..] + rest;
      SkipsWs(ws[1..], rest);
    }
  }

  lemma NothingToSkip(s: seq<byte>)
    requires s != [] ==> !IsWs(s[0])
    ensures SkipWs(s) == s
  {
  }

  lemma SkipsBreak(indent: Option<nat>, depth: nat, rest: seq<byte>)
    requires rest != [] ==> !IsWs(rest[0])
    ensures SkipWs(Break(indent, depth) + rest) == rest
  {
    SkipsWs(Break(indent, depth), rest);
  }

  /** What follows a value inside a container can belong neither to a number nor
      to white space already consumed. */
  predicate IsBoundary(s: seq<byte>) {
    s != [] ==> !IsNumberByte(s[0])
  }

  lemma FirstByte(j: Json, indent: Option<nat>, depth: nat)
    requires Exact(j)
    ensures var p := Print(j, indent, depth);
            p != [] && !IsWs(p[0]) && p[0] != RBRACKET && p[0] != RBRACE
  {
    if j.Int? {
      DigitsRoundTrip(if j.i < 0 then -j.i else j.i);
    } else if j.Float? {
      DecimalBytes(j.text);
    }
  }

  // -------------------------------------------------------------------------
  // Values
  // -------------------------------------------------------------------------

  /** A printed value is read back exactly, and reading stops where the printed
      text ends, whatever follows; only after a number must the next byte not
      continue it. */
  lemma {:induction false} ValueRoundTrip(j: Json, indent: Option<nat>, depth: nat, rest: seq<byte>)
    requires Exact(j)
    requires j.Int? || j.Float? ==> IsBoundary(rest)
    ensures ParseValue(Print(j, indent, depth) + rest) == Parsed(j, rest)
    decreases j, 1
  {
    hide ParseValue;
    match j
    case Int(i) => IntRoundTrip(i, rest);
    case Float(text) => FloatRoundTrip(text, rest);
    case Str(s) => StringValue(s, rest);
    case Arr(items) =>
      ArrayRoundTrip(items, indent, depth, rest);
    case Obj(members) =>
      ObjectRoundTrip(members, indent, depth, rest);
    case Null => NullValue(rest);
    case Bool(b) => BoolValue(b, rest);
  }

  lemma NullValue(rest: seq<byte>)
    ensures ParseValue(NULL_TEXT + rest) == Parsed(Null, rest)
  {
    assert (NULL_TEXT + rest)[4..] == rest;
  }

  lemma BoolValue(b: bool, rest: seq<byte>)
    ensures ParseValue((if b then TRUE_TEXT else FALSE_TEXT) + rest) == Parsed(Bool(b), rest)
  {
    assert (TRUE_TEXT + rest)[4..] == rest;
    assert (FALSE_TEXT + rest)[5..] == rest;
  }

  lemma StringValue(s: string, rest: seq<byte>)
    ensures ParseValue(PrintString(s) + rest) == Parsed(Str(s), rest)
  {
    hide ParseString, EscapeBody;
    StringRoundTrip(s, rest);
    assert (PrintString(s) + rest)[1..] == EscapeBody(s) + rest;
  }

  lemma Reassociate(a: seq<byte>, b: seq<byte>, c: seq<byte>, rest: seq<byte>)
    ensures (a + (b + c)) + rest == a + (b + (c + rest))
  {
  }

  lemma ArrayRoundTrip(items: seq<Json>, indent: Option<nat>, depth: nat, rest: seq<byte>)
    requires forall k :: 0 <= k < |items| ==> Exact(items[k])
    ensures ParseValue(Print(Arr(items), indent, depth) + rest) == Parsed(Arr(items), rest)
    decreases items, 2
  {
    hide ParseValue, ParseItems, PrintItems, Exact;
    if items == [] {
      EmptyContainers(rest);
    } else {
      var body := PrintItems(items, indent, depth);
      ItemsRoundTrip(items, indent, depth, rest);
      ItemsStart(items, indent, depth, rest);
      Regroup([LBRACKET], body, rest);
      ArrayStep([LBRACKET] + body + rest, body + rest, items, rest);
    }
  }

  lemma EmptyContainers(rest: seq<byte>)
    ensures ParseValue([LBRACKET] + [RBRACKET] + rest) == Parsed(Arr([]), rest)
    ensures ParseValue([LBRACE] + [RBRACE] + rest) == Parsed(Obj([]), rest)
  {
    assert ([LBRACKET] + [RBRACKET] + rest)[1..] == [RBRACKET] + rest;
    assert ([LBRACE] + [RBRACE] + rest)[1..] == [RBRACE] + rest;
  }

  lemma ArrayStep(s: seq<byte>, body: seq<byte>, items: seq<Json>, rest: seq<byte>)
    requires s == [LBRACKET] + body
    requires !StartsWith(SkipWs(body), RBRACKET)
    requires ParseItems(body) == Parsed(items, rest)
    ensures ParseValue(s) == Parsed(Arr(items), rest)
  {
    assert s[1..] == body;
    SkipAgain(body);
  }

  lemma ItemsStart(items: seq<Json>, indent: Option<nat>, depth: nat, rest: seq<byte>)
    requires items != [] && Exact(items[0])
    ensures !StartsWith(SkipWs(PrintItems(items, indent, depth) + rest), RBRACKET)
  {
    var value := Print(items[0], indent, depth + 1);
    var after := AfterItem(items[1..], indent, depth);
    Reassociate(Break(indent, depth + 1), value, after, rest);
    FirstByte(items[0], indent, depth + 1);
    SkipsBreak(indent, depth + 1, value + (after + rest));
  }

  lemma SkipAgain(s: seq<byte>)
    ensures SkipWs(SkipWs(s)) == SkipWs(s)
    ensures ParseItems(SkipWs(s)) == ParseItems(s)
    ensures ParseMembers(SkipWs(s)) == ParseMembers(s)
  {
  }

  lemma {:induction false} ItemsRoundTrip(items: seq<Json>, indent: Option<nat>, depth: nat, rest: seq<byte>)
    requires items != []
    requires forall k :: 0 <= k < |items| ==> Exact(items[k])
    ensures ParseItems(PrintItems(items, indent, depth) + rest) == Parsed(items, rest)
    decreases items, 1
  {
    hide ParseValue, ParseItems, ParseMembers, ParseMember, Print, PrintString, Exact, Break, SkipWs;
    var value := Print(items[0], indent, depth + 1);
    var after := AfterItem(items[1..], indent, depth);
    Reassociate(Break(indent, depth + 1), value, after, rest);
    FirstByte(items[0], indent, depth + 1);
    SkipsBreak(indent, depth + 1, value + (after + rest));
    AfterItemIsBoundary(items[1..], indent, depth, rest);
    ValueRoundTrip(items[0], indent, depth + 1, after + rest);
    var s := PrintItems(items, indent, depth) + rest;
    if |items| == 1 {
      Regroup(Break(indent, depth), [RBRACKET], rest);
      assert after + rest == Break(indent, depth) + ([RBRACKET] + rest);
      SkipsBreak(indent, depth, [RBRACKET] + rest);
      LastItem(s, items[0], after + rest, rest);
      assert items == [items[0]];
    } else {
      var more := PrintItems(items[1..], indent, depth) + rest;
      Regroup([COMMA], PrintItems(items[1..], indent, depth), rest);
      assert after + rest == [COMMA] + more;
      ItemsRoundTrip(items[1..], indent, depth, rest);
      NothingToSkip([COMMA] + more);
      NextItem(s, items[0], after + rest, more, items[1..], rest);
      assert items == [items[0]] + items[1..];
    }
  }

  lemma LastItem(s: seq<byte>, v: Json, after: seq<byte>, rest: seq<byte>)
    requires ParseValue(SkipWs(s)) == Parsed(v, after)
    requires SkipWs(after) == [RBRACKET] + rest
    ensures ParseItems(s) == Parsed([v], rest)
  {
    assert SkipWs(after)[1..] == rest;
  }

  lemma NextItem(s: seq<byte>, v: Json, after: seq<byte>, more: seq<byte>, vs: seq<Json>, rest: seq<byte>)
    requires ParseValue(SkipWs(s)) == Parsed(v, after)
    requires SkipWs(after) == [COMMA] + more
    requires ParseItems(more) == Parsed(vs, rest)
    ensures ParseItems(s) == Parsed([v] + vs, rest)
  {
    assert SkipWs(after)[1..] == more;
  }

  lemma AfterItemIsBoundary(items: seq<Json>, indent: Option<nat>, depth: nat, rest: seq<byte>)
    ensures IsBoundary(AfterItem(items, indent, depth) + rest)
  {
  }

  lemma ObjectRoundTrip(members: seq<Member>, indent: Option<nat>, depth: nat, rest: seq<byte>)
    requires forall k :: 0 <= k < |members| ==> Exact(members[k].value)
    ensures ParseValue(Print(Obj(members), indent, depth) + rest) == Parsed(Obj(members), rest)
    decreases members, 2
  {
    hide ParseValue, ParseMembers, PrintMembers, Exact;
    if members == [] {
      EmptyContainers(rest);
    } else {
      var body := PrintMembers(members, indent, depth);
      MembersRoundTrip(members, indent, depth, rest);
      MembersStart(members, indent, depth, rest);
      Regroup([LBRACE], body, rest);
      ObjectStep([LBRACE] + body + rest, body + rest, members, rest);
    }
  }

  lemma ObjectStep(s: seq<byte>, body: seq<byte>, members: seq<Member>, rest: seq<byte>)
    requires s == [LBRACE] + body
    requires !StartsWith(SkipWs(body), RBRACE)
    requires ParseMembers(body) == Parsed(members, rest)
    ensures ParseValue(s) == Parsed(Obj(members), rest)
  {
    assert s[1..] == body;
    SkipAgain(body);
  }

  lemma MembersStart(members: seq<Member>, indent: Option<nat>, depth: nat, rest: seq<byte>)
    requires members != []
    ensures !StartsWith(SkipWs(PrintMembers(members, indent, depth) + rest), RBRACE)
  {
    var key := PrintString(members[0].key);
    var after := [COLON] + Gap(indent)
                 + (Print(members[0].value, indent, depth + 1) + AfterMember(members[1..], indent, depth));
    Reassociate(Break(indent, depth + 1), key, after, rest);
    SkipsBreak(indent, depth + 1, key + (after + rest));
  }

  lemma {:induction false} MembersRoundTrip(members: seq<Member>, indent: Option<nat>, depth: nat, rest: seq<byte>)
    requires members != []
    requires forall k :: 0 <= k < |members| ==> Exact(members[k].value)
    ensures ParseMembers(PrintMembers(members, indent, depth) + rest) == Parsed(members, rest)
    decreases members, 1
  {
    hide ParseValue, ParseItems, ParseMembers, ParseMember, Print, PrintString, Exact, Break, SkipWs;
    var m := members[0];
    var value := Print(m.value, indent, depth + 1);
    var after := AfterMember(members[1..], indent, depth);
    Reassociate([COLON] + Gap(indent), value, after, rest);
    Reassociate(Break(indent, depth + 1), PrintString(m.key), [COLON] + Gap(indent) + (value + after), rest);
    AfterMemberIsBoundary(members[1..], indent, depth, rest);
    MemberRoundTrip(m, indent, depth, after + rest);
    var s := PrintMembers(members, indent, depth) + rest;
    if |members| == 1 {
      Regroup(Break(indent, depth), [RBRACE], rest);
      assert after + rest == Break(indent, depth) + ([RBRACE] + rest);
      SkipsBreak(indent, depth, [RBRACE] + rest);
      LastMember(s, m, after + rest, rest);
      assert members == [m];
    } else {
      var more := PrintMembers(members[1..], indent, depth) + rest;
      Regroup([COMMA], PrintMembers(members[1..], indent, depth), rest);
      assert after + rest == [COMMA] + more;
      MembersRoundTrip(members[1..], indent, depth, rest);
      NothingToSkip([COMMA] + more);
      NextMember(s, m, after + rest, more, members[1..], rest);
      assert members == [m] + members[1..];
    }
  }

  lemma LastMember(s: seq<byte>, m: Member, after: seq<byte>, rest: seq<byte>)
    requires ParseMember(s) == Parsed(m, after)
    requires SkipWs(after) == [RBRACE] + rest
    ensures ParseMembers(s) == Parsed([m], rest)
  {
    assert SkipWs(after)[1..] == rest;
  }

  lemma NextMember(s: seq<byte>, m: Member, after: seq<byte>, more: seq<byte>, ms: seq<Member>, rest: seq<byte>)
    requires ParseMember(s) == Parsed(m, after)
    requires SkipWs(after) == [COMMA] + more
    requires ParseMembers(more) == Parsed(ms, rest)
    ensures ParseMembers(s) == Parsed([m] + ms, rest)
  {
    assert SkipWs(after)[1..] == more;
  }

  lemma AfterMemberIsBoundary(members: seq<Member>, indent: Option<nat>, depth: nat, rest: seq<byte>)
    ensures IsBoundary(AfterMember(members, indent, depth) + rest)
  {
  }

  lemma MemberRoundTrip(m: Member, indent: Option<nat>, depth: nat, after: seq<byte>)
    requires Exact(m.value)
    requires IsBoundary(after)
    ensures ParseMember(Break(indent, depth + 1)
                        + (PrintString(m.key) + ([COLON] + Gap(indent) + (Print(m.value, indent, depth + 1) + after))))
         == Parsed(m, after)
    decreases m, 0
  {
    hide ParseValue, ParseString, ParseMember, Print, EscapeBody, SkipWs, Exact;
    var value := Print(m.value, indent, depth + 1) + after;
    var colon := [COLON] + Gap(indent) + value;
    var t := PrintString(m.key) + colon;
    SkipsBreak(indent, depth + 1, t);
    StringRoundTrip(m.key, colon);
    FirstByte(m.value, indent, depth + 1);
    assert value[0] == Print(m.value, indent, depth + 1)[0];
    SkipsWs(Gap(indent), value);
    ValueRoundTrip(m.value, indent, depth + 1, after);
    Regroup([QUOTE], EscapeBody(m.key), colon);
    Regroup([COLON], Gap(indent), value);
    NothingToSkip(colon);
    MemberStep(Break(indent, depth + 1) + t, m, EscapeBody(m.key) + colon, colon, Gap(indent) + value, after);
  }

  lemma MemberStep(s: seq<byte>, m: Member, key: seq<byte>, colon: seq<byte>, value: seq<byte>, after: seq<byte>)
    requires SkipWs(s) == [QUOTE] + key
    requires ParseString(key) == Parsed(m.key, colon)
    requires SkipWs(colon) == [COLON] + value
    requires ParseValue(SkipWs(value)) == Parsed(m.value, after)
    ensures ParseMember(s) == Parsed(m, after)
  {
    assert SkipWs(s)[1..] == key && SkipWs(colon)[1..] == value;
  }

  /** The round trip of `to_string` and `to_string_pretty`: every tree whose floats do
      not look like integers comes back unchanged, in compact form and at any
      indentation. */
  lemma PrintedTreeParses(j: Json, indent: Option<nat>)
    requires Exact(j)
    ensures Parse(Print(j, indent, 0)) == Ok(j)
  {
    var text := Print(j, indent, 0);
    FirstByte(j, indent, 0);
    ValueRoundTrip(j, indent, 0, []);
    assert text + [] == text;
  }
}
