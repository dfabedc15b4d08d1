/** JSON as people write it: every spelling of a value, with its meaning, independent
of the parser.  The parser (`src/util/json.rs`) is proved to read all of them as
they are meant, and nothing else. */
module JsonGrammar {
  import opened Bytes
  import opened Wrappers
  import opened Json
  import opened JsonRoundTrip
  import Utf8

  // -------------------------------------------------------------------------
  // Characters
  // -------------------------------------------------------------------------

  /** A character as itself, as a backslash and a letter, or by its number. */
  datatype Glyph = Raw(c: char) | Short(letter: byte) | Coded(digits: seq<byte>)

  predicate IsHex(b: byte) { 0x30 <= b <= 0x39 || 0x41 <= b <= 0x46 || 0x61 <= b <= 0x66 }

  /** The digits after `\u`: four, or a plus sign and three. */
  predicate IsCode(d: seq<byte>) {
    |d| == 4 && (IsHex(d[0]) || d[0] == PLUS) && IsHex(d[1]) && IsHex(d[2]) && IsHex(d[3])
  }

  /** The value of a digit, in either case. */
  function Nibble(b: byte): nat {
    if 0x30 <= b <= 0x39 then b - 0x30
    else if 0x41 <= b <= 0x46 then b - 0x41 + 10
    else if 0x61 <= b <= 0x66 then b - 0x61 + 10
    else 0
  }

  function CodePoint(d: seq<byte>): nat
    requires IsCode(d)
  {
    ((Nibble(d[0]) * 16 + Nibble(d[1])) * 16 + Nibble(d[2])) * 16 + Nibble(d[3])
  }

  /** What a letter after a backslash stands for. */
  function Escaped(letter: byte): Option<char> {
    match letter as int
    case 0x22 => Some('\"')
    case 0x5c => Some('\\')
    case 0x2f => Some('/')
    case 0x62 => Some(8 as char)
    case 0x66 => Some(12 as char)
    case 0x6e => Some('\n')
    case 0x72 => Some('\r')
    case 0x74 => Some('\t')
    case _ => None
  }

  predicate IsGlyph(g: Glyph) {
    match g
    case Raw(c) => c as int >= 0x20 && c != '\"' && c != '\\'
    case Short(letter) => Escaped(letter).Some?
    case Coded(digits) => IsCode(digits)
  }

  function GlyphText(g: Glyph): seq<byte> {
    match g
    case Raw(c) => Utf8.EncodeChar(c)
    case Short(letter) => [BACKSLASH, letter]
    case Coded(digits) => [BACKSLASH, 0x75] + digits
  }

  /** A number that is no character, such as half of a surrogate pair, stands for the
      replacement character. */
  function GlyphChar(g: Glyph): char
    requires IsGlyph(g)
  {
    match g
    case Raw(c) => c
    case Short(letter) => Escaped(letter).value
    case Coded(digits) =>
      if Utf8.IsScalar(CodePoint(digits)) then CodePoint(digits) as char else '\U{fffd}'
  }

  lemma OneMoreDigit(d: seq<byte>, b: byte)
    ensures HexNumber(d + [b]) ==
            if HexNumber(d).Some? && IsHex(b) then Some(HexNumber(d).value * 16 + Nibble(b)) else None
  {
    assert (d + [b])[..|d|] == d;
  }

  lemma ThreeDigits(a: byte, b: byte, c: byte)
    ensures HexNumber([a, b, c]) ==
            if IsHex(a) && IsHex(b) && IsHex(c) then Some((Nibble(a) * 16 + Nibble(b)) * 16 + Nibble(c)) else None
  {
    assert HexNumber([]) == Some(0);
    hide HexNumber, HexValue, Nibble, IsHex;
    OneMoreDigit([], a);
    OneMoreDigit([a], b);
    OneMoreDigit([a, b], c);
    assert [] + [a] == [a] && [a] + [b] == [a, b] && [a, b] + [c] == [a, b, c];
  }

  lemma CodeIsRead(d: seq<byte>)
    requires |d| == 4
    ensures UnicodeEscape(d).Some? <==> IsCode(d)
    ensures IsCode(d) ==> UnicodeEscape(d) == Some(GlyphChar(Coded(d)))
  {
    hide HexNumber, HexValue;
    PlusIsNoHex();
    ThreeDigits(d[1], d[2], d[3]);
    ThreeDigits(d[0], d[1], d[2]);
    OneMoreDigit([d[0], d[1], d[2]], d[3]);
    assert d[1..] == [d[1], d[2], d[3]] && d == [d[0], d[1], d[2]] + [d[3]];
  }

  lemma PlusIsNoHex()
    ensures HexValue(PLUS).None?
  {
  }

  lemma GlyphIsRead(g: Glyph, rest: seq<byte>)
    requires IsGlyph(g)
    ensures
      var t := GlyphText(g);
      t != [] && t[0] != QUOTE && ParseChar(t + rest) == Parsed(GlyphChar(g), rest)
  {
    var t := GlyphText(g);
    assert (t + rest)[|t|..] == rest;
    match g
    case Raw(c) =>
      if c as int >= 0x80 {
        Utf8.DecodeEncode(c);
        assert (t + rest)[..|t|] == t;
      }
    case Short(_) =>
    case Coded(digits) =>
      CodeIsRead(digits);
      assert (t + rest)[2..6] == digits;
  }

  /** The glyph a character that was read is written as. */
  lemma GlyphIsWritten(s: seq<byte>) returns (g: Glyph)
    requires s != [] && s[0] != QUOTE && ParseChar(s).Parsed?
    ensures IsGlyph(g) && GlyphChar(g) == ParseChar(s).value && s == GlyphText(g) + ParseChar(s).rest
  {
    hide Utf8.DecodeChunk, UnicodeEscape, IsCode, CodePoint;
    if s[0] == BACKSLASH && s[1] == 0x75 {
      g := Coded(s[2..6]);
      CodeIsRead(s[2..6]);
      assert s == s[..2] + (s[2..6] + s[6..]);
    } else if s[0] == BACKSLASH {
      g := Short(s[1]);
      assert s == s[..2] + s[2..];
    } else if s[0] < 0x80 {
      g := Raw(s[0] as char);
      assert s == s[..1] + s[1..];
    } else {
      var n := Utf8.LeadLength(s[0]);
      g := Raw(Utf8.DecodeChunk(s[..n]).value);
      Utf8.EncodeDecode(s[..n]);
      assert s == s[..n] + s[n..];
    }
  }

  // -------------------------------------------------------------------------
  // Strings
  // -------------------------------------------------------------------------

  predicate AreGlyphs(gs: seq<Glyph>) { forall i :: 0 <= i < |gs| ==> IsGlyph(gs[i]) }

  /** The characters of a string and its closing quote. */
  function Quoted(gs: seq<Glyph>): seq<byte> {
    if gs == [] then [QUOTE] else GlyphText(gs[0]) + Quoted(gs[1..])
  }

  function Chars(gs: seq<Glyph>): string
    requires AreGlyphs(gs)
  {
    if gs == [] then [] else [GlyphChar(gs[0])] + Chars(gs[1..])
  }

  lemma {:induction false} StringIsRead(gs: seq<Glyph>, rest: seq<byte>)
    requires AreGlyphs(gs)
    ensures ParseString(Quoted(gs) + rest) == Parsed(Chars(gs), rest)
  {
    hide ParseChar, IsGlyph, GlyphText, GlyphChar;
    if gs == [] {
      assert ([QUOTE] + rest)[1..] == rest;
    } else {
      var t, tail := GlyphText(gs[0]), Quoted(gs[1..]) + rest;
      Regroup(t, Quoted(gs[1..]), rest);
      GlyphIsRead(gs[0], tail);
      StringIsRead(gs[1..], rest);
      assert (t + tail)[0] == t[0];
    }
  }

  lemma {:induction false} StringIsWritten(s: seq<byte>) returns (gs: seq<Glyph>)
    requires ParseString(s).Parsed?
    ensures AreGlyphs(gs) && Chars(gs) == ParseString(s).value && s == Quoted(gs) + ParseString(s).rest
    decreases |s|
  {
    hide ParseChar, IsGlyph, GlyphText, GlyphChar;
    if s[0] == QUOTE {
      gs := [];
      assert s == [s[0]] + s[1..];
    } else {
      var g := GlyphIsWritten(s);
      var more := StringIsWritten(ParseChar(s).rest);
      gs := [g] + more;
      assert gs[1..] == more;
      Regroup(GlyphText(g), Quoted(more), ParseString(s).rest);
    }
  }

  // -------------------------------------------------------------------------
  // Numbers
  // -------------------------------------------------------------------------

  datatype Exponent = Exponent(letter: byte, sign: seq<byte>, digits: seq<byte>)

  /** A sign or none, digits, and perhaps a fraction and an exponent. */
  datatype Numeral = Numeral(sign: seq<byte>, whole: seq<byte>, fraction: Option<seq<byte>>, exponent: Option<Exponent>)

  predicate AreFigures(s: seq<byte>) { forall i :: 0 <= i < |s| ==> 0x30 <= s[i] <= 0x39 }

  predicate IsSigned(sign: seq<byte>) { sign == [] || sign == [MINUS] || sign == [PLUS] }

  predicate IsExponent(e: Exponent) {
    (e.letter == 0x65 || e.letter == 0x45) && IsSigned(e.sign) && e.digits != [] && AreFigures(e.digits)
  }

  predicate IsNumeral(n: Numeral) {
    && IsSigned(n.sign) && AreFigures(n.whole)
    && (n.fraction.Some? ==> AreFigures(n.fraction.value))
    && (n.whole != [] || (n.fraction.Some? && n.fraction.value != []))
    && (n.exponent.Some? ==> IsExponent(n.exponent.value))
  }

  function MantissaText(n: Numeral): seq<byte> {
    n.whole + if n.fraction.Some? then [DOT] + n.fraction.value else []
  }

  function ExponentText(n: Numeral): seq<byte> {
    if n.exponent.Some? then [n.exponent.value.letter] + (n.exponent.value.sign + n.exponent.value.digits) else []
  }

  function NumeralText(n: Numeral): seq<byte> { n.sign + (MantissaText(n) + ExponentText(n)) }

  /** A whole number that fits 64 bits is an integer; every other is a float. */
  function NumeralValue(n: Numeral): Json
    requires IsNumeral(n)
  {
    var size: int := DecimalValue(n.whole);
    var i := if n.sign == [MINUS] then -size else size;
    if n.fraction.None? && n.exponent.None? && IsI64(i) then Int(i) else Float(NumeralText(n))
  }

  lemma {:induction false} IndexOfFirst(s: seq<byte>, p: byte -> bool)
    ensures forall i :: 0 <= i < IndexOf(s, p) ==> !p(s[i])
  {
    if s != [] && !p(s[0]) {
      IndexOfFirst(s[1..], p);
      assert forall i :: 1 <= i < IndexOf(s, p) ==> s[i] == s[1..][i - 1];
    }
  }

  lemma {:induction false} IndexOfAt(a: seq<byte>, b: seq<byte>, p: byte -> bool)
    requires (forall i :: 0 <= i < |a| ==> !p(a[i])) && (b == [] || p(b[0]))
    ensures IndexOf(a + b, p) == |a|
  {
    if a == [] {
      assert a + b == b;
    } else {
      assert (a + b)[1..] == a[1..] + b;
      IndexOfAt(a[1..], b, p);
    }
  }

  predicate IsMantissaText(m: seq<byte>) {
    var dot := DotAt(m);
    && AllDigits(m[..dot])
    && (dot < |m| ==> AllDigits(m[dot + 1..]))
    && (dot > 0 || dot + 1 < |m|)
  }

  predicate IsExponentText(e: seq<byte>) {
    e != [] ==> var digits := Unsigned(e[1..]); digits != [] && AllDigits(digits)
  }

  lemma FloatTextParts(text: seq<byte>, m: seq<byte>, e: seq<byte>)
    requires Unsigned(text) == m + e && ExponentAt(m + e) == |m|
    ensures IsFloatText(text) <==> IsMantissaText(m) && IsExponentText(e)
  {
    hide ExponentAt, DotAt, Unsigned, AllDigits;
    assert (m + e)[..|m|] == m;
    assert e != [] ==> (m + e)[|m| + 1..] == e[1..];
  }

  /** The float parser finds the parts of a numeral. */
  lemma NumeralIsFloatText(n: Numeral)
    requires IsNumeral(n)
    ensures IsFloatText(NumeralText(n))
  {
    UnsignedNumeral(n);
    ExponentPart(n);
    FloatTextParts(NumeralText(n), MantissaText(n), ExponentText(n));
    MantissaParts(n);
    hide IsFloatText, ExponentAt, DotAt, MantissaText, NumeralText, Unsigned;
    if n.exponent.Some? {
      var x := n.exponent.value;
      assert ExponentText(n)[1..] == x.sign + x.digits;
      UnsignedDigits(x.sign, x.digits);
    }
  }

  lemma ExponentPart(n: Numeral)
    requires IsNumeral(n)
    ensures ExponentAt(MantissaText(n) + ExponentText(n)) == |MantissaText(n)|
  {
    UnsignedNumeral(n);
    IndexOfAt(MantissaText(n), ExponentText(n), b => b == 0x65 || b == 0x45);
  }

  lemma UnsignedDigits(sign: seq<byte>, digits: seq<byte>)
    requires IsSigned(sign) && digits != [] && !IsSign(digits[0])
    ensures Unsigned(sign + digits) == digits
  {
    if sign != [] {
      assert (sign + digits)[1..] == digits;
    } else {
      assert sign + digits == digits;
    }
  }

  lemma UnsignedNumeral(n: Numeral)
    requires IsNumeral(n)
    ensures
      var body := MantissaText(n) + ExponentText(n);
      && Unsigned(NumeralText(n)) == body && body != [] && (IsDigit(body[0]) || body[0] == DOT)
      && forall i :: 0 <= i < |MantissaText(n)| ==> IsDigit(MantissaText(n)[i]) || MantissaText(n)[i] == DOT
  {
    hide ExponentText;
    var m := MantissaText(n);
    if n.whole != [] {
      assert m[0] == n.whole[0];
    }
    UnsignedDigits(n.sign, m + ExponentText(n));
  }

  lemma MantissaParts(n: Numeral)
    requires IsNumeral(n)
    ensures
      var m := MantissaText(n);
      var dot := DotAt(m);
      && dot == |n.whole| && m[..dot] == n.whole
      && (dot < |m| <==> n.fraction.Some?)
      && (dot < |m| ==> m[dot + 1..] == n.fraction.value)
  {
    var tail := if n.fraction.Some? then [DOT] + n.fraction.value else [];
    IndexOfAt(n.whole, tail, b => b == DOT);
  }

  lemma NumeralBytes(n: Numeral)
    requires IsNumeral(n)
    ensures
      var text := NumeralText(n);
      && text != [] && (IsDigit(text[0]) || text[0] == DOT || IsSign(text[0]))
      && (text[0] == MINUS <==> n.sign == [MINUS])
      && forall i :: 0 <= i < |text| ==> IsNumberByte(text[i])
  {
    var m, e, text := MantissaText(n), ExponentText(n), NumeralText(n);
    UnsignedNumeral(n);
    ExponentBytes(n);
    hide IsNumeral, MantissaText, ExponentText;
    assert IsSigned(n.sign) by { NumeralSign(n); }
    assert forall i :: 0 <= i < |m| ==> IsNumberByte(m[i]);
    forall i | 0 <= i < |text| ensures IsNumberByte(text[i]) {
      if |n.sign| <= i {
        assert text[i] == (m + e)[i - |n.sign|];
      }
    }
  }

  lemma NumeralSign(n: Numeral)
    requires IsNumeral(n)
    ensures IsSigned(n.sign)
  {
  }

  lemma ExponentBytes(n: Numeral)
    requires IsNumeral(n)
    ensures forall i :: 0 <= i < |ExponentText(n)| ==> IsNumberByte(ExponentText(n)[i])
  {
  }

  /** Only a numeral that is all whole digits is tried as an integer. */
  lemma WholeNumeral(n: Numeral)
    requires IsNumeral(n)
    ensures
      var body, whole := MantissaText(n) + ExponentText(n), n.fraction.None? && n.exponent.None?;
      && (AllDigits(body) <==> whole) && (whole ==> body == n.whole)
  {
    var m, e := MantissaText(n), ExponentText(n);
    if n.fraction.Some? {
      assert (m + e)[|n.whole|] == DOT;
    } else if n.exponent.Some? {
      assert (m + e)[|m|] == n.exponent.value.letter;
    }
  }

  /** What a text that is a number reads as. */
  function TextValue(text: seq<byte>): Json {
    if AllDigits(Unsigned(text)) && ParseI64(text).Some? then Int(ParseI64(text).value) else Float(text)
  }

  lemma NumberTextIsRead(text: seq<byte>, rest: seq<byte>)
    requires text != [] && (IsDigit(text[0]) || text[0] == DOT || IsSign(text[0]))
    requires IsFloatText(text) && IsBoundary(rest)
    requires forall i :: 0 <= i < |text| ==> IsNumberByte(text[i])
    ensures ParseNumber(text + rest) == Parsed(TextValue(text), rest)
    ensures ParseValue(text + rest) == Parsed(TextValue(text), rest)
  {
    hide IsFloatText, Unsigned, ParseI64, AllDigits, NumberSpan;
    SpanOfNumber(text, rest);
    assert (text + rest)[..|text|] == text && (text + rest)[|text|..] == rest;
    assert (text + rest)[0] == text[0];
  }

  lemma NumeralReadsAs(n: Numeral)
    requires IsNumeral(n)
    ensures NumeralValue(n) == TextValue(NumeralText(n))
  {
    NumeralBytes(n);
    UnsignedNumeral(n);
    WholeNumeral(n);
    hide NumeralText, MantissaText, ExponentText, Unsigned, DecimalValue;
  }

  lemma NumberIsRead(n: Numeral, rest: seq<byte>)
    requires IsNumeral(n) && IsBoundary(rest)
    ensures ParseNumber(NumeralText(n) + rest) == Parsed(NumeralValue(n), rest)
    ensures ParseValue(NumeralText(n) + rest) == Parsed(NumeralValue(n), rest)
  {
    hide NumeralText, IsFloatText, IsNumeral, NumeralValue, TextValue, ParseNumber, ParseValue;
    NumeralBytes(n);
    NumeralIsFloatText(n);
    NumeralReadsAs(n);
    NumberTextIsRead(NumeralText(n), rest);
  }

  lemma SignAndRest(text: seq<byte>) returns (sign: seq<byte>)
    ensures IsSigned(sign) && text == sign + Unsigned(text)
  {
    if text != [] && IsSign(text[0]) {
      sign := [text[0]];
    } else {
      sign := [];
    }
  }

  /** Which numeral a text is that the reader takes. */
  lemma TextIsNumeral(text: seq<byte>) returns (n: Numeral)
    requires IsFloatText(text) || ParseI64(text).Some?
    ensures IsNumeral(n) && NumeralText(n) == text
  {
    var sign := SignAndRest(text);
    var body := Unsigned(text);
    if ParseI64(text).Some? {
      n := Numeral(sign, body, None, None);
      assert body + [] == body;
    } else {
      n := FloatIsNumeral(text, sign, body);
    }
  }

  lemma FloatIsNumeral(text: seq<byte>, sign: seq<byte>, body: seq<byte>) returns (n: Numeral)
    requires IsFloatText(text) && IsSigned(sign) && text == sign + body && body == Unsigned(text)
    ensures IsNumeral(n) && NumeralText(n) == text
  {
    hide IsFloatText, ExponentAt, Unsigned, IsMantissaText, IsExponentText, IsExponent, AreFigures;
    var at := ExponentAt(body);
    var m, e := body[..at], body[at..];
    assert body == m + e;
    FloatTextParts(text, m, e);
    ExponentLetter(body);
    var whole, fraction := MantissaIsWritten(m);
    var exponent := ExponentIsWritten(e);
    n := Numeral(sign, whole, fraction, exponent);
    assert MantissaText(n) == m && ExponentText(n) == e;
  }

  lemma ExponentIsWritten(e: seq<byte>) returns (x: Option<Exponent>)
    requires IsExponentText(e) && (e != [] ==> e[0] == 0x65 || e[0] == 0x45)
    ensures x.Some? ==> IsExponent(x.value)
    ensures e == if x.Some? then [x.value.letter] + (x.value.sign + x.value.digits) else []
  {
    hide Unsigned;
    if e == [] {
      x := None;
    } else {
      var s := SignAndRest(e[1..]);
      x := Some(Exponent(e[0], s, Unsigned(e[1..])));
      assert e == [e[0]] + e[1..];
    }
  }

  lemma ExponentLetter(s: seq<byte>)
    ensures ExponentAt(s) < |s| ==> s[ExponentAt(s)] == 0x65 || s[ExponentAt(s)] == 0x45
  {
  }

  lemma MantissaIsWritten(m: seq<byte>) returns (whole: seq<byte>, fraction: Option<seq<byte>>)
    requires IsMantissaText(m)
    ensures AreFigures(whole) && (fraction.Some? ==> AreFigures(fraction.value))
    ensures whole != [] || (fraction.Some? && fraction.value != [])
    ensures m == whole + if fraction.Some? then [DOT] + fraction.value else []
  {
    var dot := DotAt(m);
    whole := m[..dot];
    if dot < |m| {
      fraction := Some(m[dot + 1..]);
      assert m == m[..dot] + ([m[dot]] + m[dot + 1..]);
    } else {
      fraction := None;
    }
  }

  lemma NumberIsWritten(s: seq<byte>) returns (n: Numeral)
    requires ParseNumber(s).Parsed?
    ensures
      var p := ParseNumber(s);
      && IsNumeral(n) && IsBoundary(p.rest) && s == NumeralText(n) + p.rest && NumeralValue(n) == p.value
  {
    var span := NumberSpan(s);
    assert s == s[..span] + s[span..];
    n := TextIsNumeral(s[..span]);
    NumberIsRead(n, s[span..]);
  }

  // -------------------------------------------------------------------------
  // Documents
  // -------------------------------------------------------------------------

  datatype Doc =
    | NullDoc
    | BoolDoc(b: bool)
    | NumberDoc(n: Numeral)
    | TextDoc(gs: seq<Glyph>)
    | EmptyList(inner: seq<byte>)
    | ListDoc(items: seq<Item>)
    | EmptyRecord(inner: seq<byte>)
    | RecordDoc(pairs: seq<Pair>)

  /** A value, or a key and a value, with the white space around them. */
  datatype Item = Item(before: seq<byte>, doc: Doc, after: seq<byte>)

  datatype Pair = Pair(before: seq<byte>, key: seq<Glyph>, mid: seq<byte>, gap: seq<byte>, doc: Doc, after: seq<byte>)

  /** Space, tab, line feed and carriage return. */
  predicate IsBlank(ws: seq<byte>) {
    forall i :: 0 <= i < |ws| ==> ws[i] == 0x20 || ws[i] == 0x09 || ws[i] == 0x0a || ws[i] == 0x0d
  }

  predicate IsDoc(d: Doc)
    decreases d, 1
  {
    match d
    case NullDoc => true
    case BoolDoc(_) => true
    case NumberDoc(n) => IsNumeral(n)
    case TextDoc(gs) => AreGlyphs(gs)
    case EmptyList(inner) => IsBlank(inner)
    case ListDoc(items) => items != [] && AreItems(items)
    case EmptyRecord(inner) => IsBlank(inner)
    case RecordDoc(pairs) => pairs != [] && ArePairs(pairs)
  }

  predicate AreItems(items: seq<Item>)
    decreases items, 0
  {
    forall k :: 0 <= k < |items| ==> IsBlank(items[k].before) && IsDoc(items[k].doc) && IsBlank(items[k].after)
  }

  predicate ArePairs(pairs: seq<Pair>)
    decreases pairs, 0
  {
    forall k :: 0 <= k < |pairs| ==> IsFramed(pairs[k]) && IsDoc(pairs[k].doc)
  }

  predicate IsFramed(p: Pair) {
    IsBlank(p.before) && AreGlyphs(p.key) && IsBlank(p.mid) && IsBlank(p.gap) && IsBlank(p.after)
  }

  function Written(d: Doc): seq<byte>
    decreases d, 1
  {
    match d
    case NullDoc => NULL_TEXT
    case BoolDoc(b) => if b then TRUE_TEXT else FALSE_TEXT
    case NumberDoc(n) => NumeralText(n)
    case TextDoc(gs) => [QUOTE] + Quoted(gs)
    case EmptyList(inner) => [LBRACKET] + (inner + [RBRACKET])
    case ListDoc(items) => [LBRACKET] + WrittenItems(items)
    case EmptyRecord(inner) => [LBRACE] + (inner + [RBRACE])
    case RecordDoc(pairs) => [LBRACE] + WrittenPairs(pairs)
  }

  /** Elements, commas between them, and the closing bracket. */
  function WrittenItems(items: seq<Item>): seq<byte>
    decreases items, 0
  {
    if items == [] then [RBRACKET]
    else
      items[0].before + (Written(items[0].doc)
        + (items[0].after + if |items| == 1 then [RBRACKET] else [COMMA] + WrittenItems(items[1..])))
  }

  function WrittenPairs(pairs: seq<Pair>): seq<byte>
    decreases pairs, 0
  {
    if pairs == [] then [RBRACE]
    else
      WrittenPair(pairs[0]) + if |pairs| == 1 then [RBRACE] else [COMMA] + WrittenPairs(pairs[1..])
  }

  function WrittenPair(p: Pair): seq<byte>
    decreases p, 2
  {
    p.before + ([QUOTE] + Quoted(p.key) + (p.mid + ([COLON] + (p.gap + (Written(p.doc) + p.after)))))
  }

  function Meaning(d: Doc): Json
    requires IsDoc(d)
    decreases d, 1
  {
    match d
    case NullDoc => Null
    case BoolDoc(b) => Bool(b)
    case NumberDoc(n) => NumeralValue(n)
    case TextDoc(gs) => Str(Chars(gs))
    case EmptyList(_) => Arr([])
    case ListDoc(items) => Arr(Meanings(items))
    case EmptyRecord(_) => Obj([])
    case RecordDoc(pairs) => Obj(MemberMeanings(pairs))
  }

  function Meanings(items: seq<Item>): seq<Json>
    requires AreItems(items)
    decreases items, 0
  {
    if items == [] then [] else [Meaning(items[0].doc)] + Meanings(items[1..])
  }

  function MemberMeanings(pairs: seq<Pair>): seq<Member>
    requires ArePairs(pairs)
    decreases pairs, 0
  {
    if pairs == [] then []
    else [Member(Chars(pairs[0].key), Meaning(pairs[0].doc))] + MemberMeanings(pairs[1..])
  }

  // -------------------------------------------------------------------------
  // Every spelling is read
  // -------------------------------------------------------------------------

  lemma DocStart(d: Doc)
    requires IsDoc(d)
    ensures
      var t := Written(d);
      t != [] && !IsWs(t[0]) && t[0] != RBRACKET && t[0] != RBRACE
  {
    if d.NumberDoc? {
      NumeralBytes(d.n);
    }
  }

  /** White space can only end a number. */
  lemma BlankIsBoundary(ws: seq<byte>, rest: seq<byte>)
    requires IsBlank(ws) && rest != [] && !IsNumberByte(rest[0])
    ensures IsBoundary(ws + rest)
  {
  }

  lemma {:induction false} DocIsRead(d: Doc, rest: seq<byte>)
    requires IsDoc(d) && (d.NumberDoc? ==> IsBoundary(rest))
    ensures ParseValue(Written(d) + rest) == Parsed(Meaning(d), rest)
    decreases d, 1
  {
    hide ParseValue, ParseItems, ParseMembers, NumeralText, NumeralValue, IsNumeral, IsBlank;
    match d
    case NullDoc => NullValue(rest);
    case BoolDoc(b) => BoolValue(b, rest);
    case NumberDoc(n) => NumberIsRead(n, rest);
    case TextDoc(gs) => TextIsRead(gs, rest);
    case EmptyList(inner) => EmptyIsRead(inner, rest);
    case EmptyRecord(inner) => EmptyIsRead(inner, rest);
    case ListDoc(items) =>
      ItemsAreRead(items, rest);
      Regroup([LBRACKET], WrittenItems(items), rest);
      ArrayStep(Written(d) + rest, WrittenItems(items) + rest, Meanings(items), rest);
    case RecordDoc(pairs) =>
      PairsAreRead(pairs, rest);
      Regroup([LBRACE], WrittenPairs(pairs), rest);
      ObjectStep(Written(d) + rest, WrittenPairs(pairs) + rest, MemberMeanings(pairs), rest);
  }

  lemma TextIsRead(gs: seq<Glyph>, rest: seq<byte>)
    requires AreGlyphs(gs)
    ensures ParseValue([QUOTE] + Quoted(gs) + rest) == Parsed(Str(Chars(gs)), rest)
  {
    hide ParseString, Quoted, AreGlyphs;
    StringIsRead(gs, rest);
    assert ([QUOTE] + Quoted(gs) + rest)[1..] == Quoted(gs) + rest;
  }

  lemma EmptyIsRead(inner: seq<byte>, rest: seq<byte>)
    requires IsBlank(inner)
    ensures ParseValue([LBRACKET] + (inner + [RBRACKET]) + rest) == Parsed(Arr([]), rest)
    ensures ParseValue([LBRACE] + (inner + [RBRACE]) + rest) == Parsed(Obj([]), rest)
  {
    hide SkipWs, ParseItems, ParseMembers;
    var list, record := [RBRACKET] + rest, [RBRACE] + rest;
    assert ([LBRACKET] + (inner + [RBRACKET]) + rest)[1..] == inner + list;
    assert ([LBRACE] + (inner + [RBRACE]) + rest)[1..] == inner + record;
    SkipsWs(inner, list);
    SkipsWs(inner, record);
    assert list[1..] == rest && record[1..] == rest;
  }

  lemma {:induction false} ItemsAreRead(items: seq<Item>, rest: seq<byte>)
    requires items != [] && AreItems(items)
    ensures ParseItems(WrittenItems(items) + rest) == Parsed(Meanings(items), rest)
    ensures !StartsWith(SkipWs(WrittenItems(items) + rest), RBRACKET)
    decreases items, 0
  {
    hide ParseValue, ParseItems, ParseMembers, SkipWs, Written, IsDoc, Meaning, IsBlank;
    var i := items[0];
    var end := if |items| == 1 then [RBRACKET] else [COMMA] + WrittenItems(items[1..]);
    var value, after := Written(i.doc), i.after + (end + rest);
    var s := WrittenItems(items) + rest;
    assert IsBlank(i.before) && IsDoc(i.doc) && IsBlank(i.after);
    assert s == i.before + (value + after) by { ItemRegroups(i.before, value, i.after, end, rest); }
    DocStart(i.doc);
    SkipsBlank(i.before, value + after);
    SkipsBlank(i.after, end + rest);
    BlankIsBoundary(i.after, end + rest);
    DocIsRead(i.doc, after);
    ItemThen(i, items[1..]);
    assert items == [i] + items[1..];
    if |items| == 1 {
      LastItem(s, Meaning(i.doc), after, rest);
      assert [Meaning(i.doc)] + [] == [Meaning(i.doc)];
    } else {
      var more := WrittenItems(items[1..]);
      Regroup([COMMA], more, rest);
      ItemsAreRead(items[1..], rest);
      NextItem(s, Meaning(i.doc), after, more + rest, Meanings(items[1..]), rest);
    }
  }

  lemma SkipsBlank(ws: seq<byte>, rest: seq<byte>)
    requires IsBlank(ws) && (rest != [] ==> !IsWs(rest[0]))
    ensures SkipWs(ws + rest) == rest
  {
    SkipsWs(ws, rest);
  }

  lemma ItemRegroups(a: seq<byte>, b: seq<byte>, c: seq<byte>, d: seq<byte>, rest: seq<byte>)
    ensures a + (b + (c + d)) + rest == a + (b + (c + (d + rest)))
  {
  }

  lemma PairRegroups(p: Pair, end: seq<byte>)
    ensures
      var colon := p.mid + ([COLON] + (p.gap + (Written(p.doc) + (p.after + end))));
      WrittenPair(p) + end == p.before + ([QUOTE] + (Quoted(p.key) + colon))
  {
    hide Written, Quoted;
  }

  lemma PairIsRead(p: Pair, end: seq<byte>)
    requires IsFramed(p) && IsDoc(p.doc)
    requires end != [] && !IsNumberByte(end[0])
    ensures ParseMember(WrittenPair(p) + end) == Parsed(Member(Chars(p.key), Meaning(p.doc)), p.after + end)
    ensures StartsWith(SkipWs(WrittenPair(p) + end), QUOTE)
    decreases p, 1
  {
    hide ParseValue, ParseString, ParseMember, SkipWs, Written, IsDoc, Meaning, IsBlank, Quoted, AreGlyphs, Chars;
    var after := p.after + end;
    var value := p.gap + (Written(p.doc) + after);
    var colon := p.mid + ([COLON] + value);
    var key := Quoted(p.key) + colon;
    PairRegroups(p, end);
    SkipsBlank(p.before, [QUOTE] + key);
    StringIsRead(p.key, colon);
    SkipsBlank(p.mid, [COLON] + value);
    DocStart(p.doc);
    SkipsBlank(p.gap, Written(p.doc) + after);
    BlankIsBoundary(p.after, end);
    DocIsRead(p.doc, after);
    MemberStep(WrittenPair(p) + end, Member(Chars(p.key), Meaning(p.doc)), key, colon, value, after);
  }

  lemma {:induction false} PairsAreRead(pairs: seq<Pair>, rest: seq<byte>)
    requires pairs != [] && ArePairs(pairs)
    ensures ParseMembers(WrittenPairs(pairs) + rest) == Parsed(MemberMeanings(pairs), rest)
    ensures !StartsWith(SkipWs(WrittenPairs(pairs) + rest), RBRACE)
    decreases pairs, 0
  {
    hide ParseValue, ParseMember, ParseMembers, SkipWs, WrittenPair, IsDoc, IsFramed, Meaning, IsBlank, Chars;
    var p := pairs[0];
    var end := if |pairs| == 1 then [RBRACE] else [COMMA] + WrittenPairs(pairs[1..]);
    var s := WrittenPairs(pairs) + rest;
    assert IsFramed(p) && IsDoc(p.doc);
    FramedParts(p);
    Regroup(WrittenPair(p), end, rest);
    PairIsRead(p, end + rest);
    var m := Member(Chars(p.key), Meaning(p.doc));
    SkipsBlank(p.after, end + rest);
    PairThen(p, pairs[1..]);
    assert pairs == [p] + pairs[1..];
    if |pairs| == 1 {
      LastMember(s, m, p.after + (end + rest), rest);
      assert [m] + [] == [m];
    } else {
      var more := WrittenPairs(pairs[1..]);
      Regroup([COMMA], more, rest);
      PairsAreRead(pairs[1..], rest);
      NextMember(s, m, p.after + (end + rest), more + rest, MemberMeanings(pairs[1..]), rest);
    }
  }

  lemma FramedParts(p: Pair)
    requires IsFramed(p)
    ensures AreGlyphs(p.key) && IsBlank(p.after)
  {
  }

  // -------------------------------------------------------------------------
  // Nothing else is read
  // -------------------------------------------------------------------------

  /** The white space that was skipped. */
  lemma {:induction false} SkippedIsBlank(s: seq<byte>) returns (ws: seq<byte>)
    ensures IsBlank(ws) && s == ws + SkipWs(s)
    decreases |s|
  {
    if s != [] && IsWs(s[0]) {
      var more := SkippedIsBlank(s[1..]);
      ws := [s[0]] + more;
      assert s == [s[0]] + s[1..];
      Regroup([s[0]], more, SkipWs(s));
    } else {
      ws := [];
    }
  }

  lemma Headed(s: seq<byte>, b: byte)
    requires StartsWith(s, b)
    ensures s == [b] + s[1..]
  {
  }

  lemma LiteralIsWritten(s: seq<byte>) returns (d: Doc)
    requires s != [] && (s[0] == 0x74 || s[0] == 0x66 || s[0] == 0x6e) && ParseValue(s).Parsed?
    ensures IsDoc(d) && !d.NumberDoc? && Meaning(d) == ParseValue(s).value && s == Written(d) + ParseValue(s).rest
  {
    d := if s[0] == 0x74 then BoolDoc(true) else if s[0] == 0x66 then BoolDoc(false) else NullDoc;
    var n := |Written(d)|;
    assert s == s[..n] + s[n..];
  }

  /** What was read, was written so. */
  lemma {:induction false} ValueIsWritten(s: seq<byte>) returns (d: Doc)
    requires ParseValue(s).Parsed?
    ensures
      var p := ParseValue(s);
      && IsDoc(d) && Meaning(d) == p.value && s == Written(d) + p.rest
      && (d.NumberDoc? ==> IsBoundary(p.rest))
    decreases |s|, 1
  {
    if s[0] == LBRACE {
      d := RecordIsWritten(s);
    } else if s[0] == LBRACKET {
      d := ListIsWritten(s);
    } else if s[0] == QUOTE {
      hide ParseString, AreGlyphs, Quoted, Chars;
      var gs := StringIsWritten(s[1..]);
      d := TextDoc(gs);
      Headed(s, QUOTE);
      Regroup([QUOTE], Quoted(gs), ParseValue(s).rest);
    } else if s[0] == 0x74 || s[0] == 0x66 || s[0] == 0x6e {
      d := LiteralIsWritten(s);
    } else {
      hide IsNumeral, NumeralText, NumeralValue, ParseNumber;
      var n := NumberIsWritten(s);
      d := NumberDoc(n);
    }
  }

  lemma EmptyIsWritten(s: seq<byte>, open: byte, close: byte) returns (ws: seq<byte>)
    requires StartsWith(s, open) && StartsWith(SkipWs(s[1..]), close)
    ensures IsBlank(ws) && s == [open] + (ws + [close]) + SkipWs(s[1..])[1..]
  {
    hide SkipWs, IsBlank;
    Headed(s, open);
    Headed(SkipWs(s[1..]), close);
    ws := SkippedIsBlank(s[1..]);
    Regroup(ws, [close], SkipWs(s[1..])[1..]);
    Regroup([open], ws + [close], SkipWs(s[1..])[1..]);
  }

  lemma ArrayIsParsed(s: seq<byte>)
    requires StartsWith(s, LBRACKET)
    ensures ParseValue(s) ==
      var t, p := SkipWs(s[1..]), ParseItems(s[1..]);
      if StartsWith(t, RBRACKET) then Parsed(Arr([]), t[1..])
      else if p.Fail? then Fail else Parsed(Arr(p.value), p.rest)
  {
    SkipAgain(s[1..]);
    hide ParseItems, SkipWs;
  }

  lemma ObjectIsParsed(s: seq<byte>)
    requires StartsWith(s, LBRACE)
    ensures ParseValue(s) ==
      var t, p := SkipWs(s[1..]), ParseMembers(s[1..]);
      if StartsWith(t, RBRACE) then Parsed(Obj([]), t[1..])
      else if p.Fail? then Fail else Parsed(Obj(p.value), p.rest)
  {
    SkipAgain(s[1..]);
    hide ParseMembers, SkipWs;
  }

  lemma {:induction false} ListIsWritten(s: seq<byte>) returns (d: Doc)
    requires StartsWith(s, LBRACKET) && ParseValue(s).Parsed?
    ensures IsDoc(d) && !d.NumberDoc? && Meaning(d) == ParseValue(s).value && s == Written(d) + ParseValue(s).rest
    decreases |s|, 0
  {
    hide ParseValue, ParseItems, SkipWs, IsBlank;
    ArrayIsParsed(s);
    var rest := ParseValue(s).rest;
    Headed(s, LBRACKET);
    if StartsWith(SkipWs(s[1..]), RBRACKET) {
      var ws := EmptyIsWritten(s, LBRACKET, RBRACKET);
      d := EmptyList(ws);
    } else {
      hide AreItems, WrittenItems, Meanings;
      var items := ItemsAreWritten(s[1..]);
      d := ListDoc(items);
      Regroup([LBRACKET], WrittenItems(items), rest);
    }
  }

  lemma {:induction false} RecordIsWritten(s: seq<byte>) returns (d: Doc)
    requires StartsWith(s, LBRACE) && ParseValue(s).Parsed?
    ensures IsDoc(d) && !d.NumberDoc? && Meaning(d) == ParseValue(s).value && s == Written(d) + ParseValue(s).rest
    decreases |s|, 0
  {
    hide ParseValue, ParseMembers, SkipWs, IsBlank;
    ObjectIsParsed(s);
    var rest := ParseValue(s).rest;
    Headed(s, LBRACE);
    if StartsWith(SkipWs(s[1..]), RBRACE) {
      var ws := EmptyIsWritten(s, LBRACE, RBRACE);
      d := EmptyRecord(ws);
    } else {
      hide ArePairs, WrittenPairs, MemberMeanings;
      var pairs := PairsAreWritten(s[1..]);
      d := RecordDoc(pairs);
      Regroup([LBRACE], WrittenPairs(pairs), rest);
    }
  }

  lemma {:induction false} ItemsAreWritten(s: seq<byte>) returns (items: seq<Item>)
    requires ParseItems(s).Parsed?
    ensures
      var p := ParseItems(s);
      items != [] && AreItems(items) && Meanings(items) == p.value && s == WrittenItems(items) + p.rest
    decreases |s|, 2
  {
    var before := SkippedIsBlank(s);
    var v := ParseValue(SkipWs(s));
    var doc := ValueIsWritten(SkipWs(s));
    var after := SkippedIsBlank(v.rest);
    var t, rest := SkipWs(v.rest), ParseItems(s).rest;
    var i := Item(before, doc, after);
    if StartsWith(t, COMMA) {
      var more := ItemsAreWritten(t[1..]);
      items := [i] + more;
      Headed(t, COMMA);
      hide ParseValue, ParseItems, SkipWs, IsDoc, Written, Meaning, IsBlank;
      ItemThen(i, more);
      Regroup([COMMA], WrittenItems(more), rest);
      ItemRegroups(before, Written(doc), after, [COMMA] + WrittenItems(more), rest);
    } else {
      items := [i];
      Headed(t, RBRACKET);
      hide ParseValue, ParseItems, SkipWs, IsDoc, Written, Meaning, IsBlank;
      ItemThen(i, []);
      ItemRegroups(before, Written(doc), after, [RBRACKET], rest);
    }
  }

  lemma ItemThen(i: Item, more: seq<Item>)
    requires IsBlank(i.before) && IsDoc(i.doc) && IsBlank(i.after) && AreItems(more)
    ensures AreItems([i] + more) && Meanings([i] + more) == [Meaning(i.doc)] + Meanings(more)
    ensures WrittenItems([i] + more) == i.before + (Written(i.doc)
              + (i.after + if more == [] then [RBRACKET] else [COMMA] + WrittenItems(more)))
    ensures more == [] ==> [i] + more == [i] && Meanings(more) == []
  {
    hide IsBlank, IsDoc, Written, Meaning;
    assert ([i] + more)[1..] == more;
  }

  lemma {:induction false} PairIsWritten(s: seq<byte>, after: seq<byte>) returns (p: Pair)
    requires ParseMember(s).Parsed? && IsBlank(after)
    ensures
      var m := ParseMember(s);
      && IsFramed(p) && IsDoc(p.doc) && p.after == after
      && Member(Chars(p.key), Meaning(p.doc)) == m.value
      && forall end :: m.rest == after + end ==> s == WrittenPair(p) + end
    decreases |s|, 3
  {
    var before := SkippedIsBlank(s);
    var t := SkipWs(s);
    Headed(t, QUOTE);
    var k := ParseString(t[1..]);
    var key := StringIsWritten(t[1..]);
    var mid := SkippedIsBlank(k.rest);
    var c := SkipWs(k.rest);
    Headed(c, COLON);
    var gap := SkippedIsBlank(c[1..]);
    var doc := ValueIsWritten(SkipWs(c[1..]));
    p := Pair(before, key, mid, gap, doc, after);
    hide ParseValue, ParseString, SkipWs, IsDoc, Written, Meaning, IsBlank, Quoted, AreGlyphs, Chars;
    var rest := ParseMember(s).rest;
    forall end | rest == after + end ensures s == WrittenPair(p) + end {
      PairRegroups(p, end);
    }
  }

  lemma {:induction false} PairsAreWritten(s: seq<byte>) returns (pairs: seq<Pair>)
    requires ParseMembers(s).Parsed?
    ensures
      var p := ParseMembers(s);
      pairs != [] && ArePairs(pairs) && MemberMeanings(pairs) == p.value && s == WrittenPairs(pairs) + p.rest
    decreases |s|, 4
  {
    var m := ParseMember(s);
    var after := SkippedIsBlank(m.rest);
    var p := PairIsWritten(s, after);
    var t, rest := SkipWs(m.rest), ParseMembers(s).rest;
    if StartsWith(t, COMMA) {
      var more := PairsAreWritten(t[1..]);
      pairs := [p] + more;
      Headed(t, COMMA);
      hide ParseMember, ParseMembers, SkipWs, IsDoc, WrittenPair, Meaning, IsBlank, Chars, IsFramed;
      PairThen(p, more);
      Regroup([COMMA], WrittenPairs(more), rest);
      Regroup(WrittenPair(p), [COMMA] + WrittenPairs(more), rest);
    } else {
      pairs := [p];
      Headed(t, RBRACE);
      hide ParseMember, ParseMembers, SkipWs, IsDoc, WrittenPair, Meaning, IsBlank, Chars, IsFramed;
      PairThen(p, []);
      Regroup(WrittenPair(p), [RBRACE], rest);
    }
  }

  lemma PairThen(p: Pair, more: seq<Pair>)
    requires IsFramed(p) && IsDoc(p.doc) && ArePairs(more)
    ensures AreGlyphs(p.key) && ArePairs([p] + more)
    ensures MemberMeanings([p] + more) == [Member(Chars(p.key), Meaning(p.doc))] + MemberMeanings(more)
    ensures WrittenPairs([p] + more) == WrittenPair(p) + if more == [] then [RBRACE] else [COMMA] + WrittenPairs(more)
    ensures more == [] ==> [p] + more == [p] && MemberMeanings(more) == []
  {
    FramedParts(p);
    hide IsDoc, WrittenPair, Meaning, Chars, IsFramed;
    assert ([p] + more)[1..] == more;
  }

  // -------------------------------------------------------------------------
  // Whole texts
  // -------------------------------------------------------------------------

  ghost predicate Spells(s: seq<byte>, j: Json) {
    exists before, d, after ::
      IsBlank(before) && IsDoc(d) && IsBlank(after) && Meaning(d) == j && s == before + (Written(d) + after)
  }

  /** The parser accepts exactly the spellings of a value, and reads each as the value
      it spells. */
  lemma ReadExactlyAsSpelled(s: seq<byte>, j: Json)
    ensures Parse(s) == Ok(j) <==> Spells(s, j)
  {
    if Parse(s) == Ok(j) {
      hide ParseValue, SkipWs, IsDoc, Written, Meaning, IsBlank;
      var before := SkippedIsBlank(s);
      var d := ValueIsWritten(SkipWs(s));
      var after := SkippedIsBlank(ParseValue(SkipWs(s)).rest);
      assert after + [] == after;
      assert s == before + (Written(d) + after);
    }
    if Spells(s, j) {
      hide ParseValue, SkipWs, IsDoc, Written, Meaning, IsBlank;
      var before, d, after :|
        IsBlank(before) && IsDoc(d) && IsBlank(after) && Meaning(d) == j && s == before + (Written(d) + after);
      DocStart(d);
      SkipsBlank(before, Written(d) + after);
      assert IsBoundary(after) by { BlankEnds(after); }
      DocIsRead(d, after);
      SkipsBlank(after, []);
      assert after + [] == after;
    }
  }

  lemma BlankEnds(ws: seq<byte>)
    requires IsBlank(ws)
    ensures IsBoundary(ws)
  {
  }

  /** A character beyond the first plane that is written, as RFC 8259 (section 7) has
      it, as two coded surrogates is not put together again. */
  lemma SurrogatesAreLost(hi: seq<byte>, lo: seq<byte>, rest: seq<byte>)
    requires IsCode(hi) && 0xd800 <= CodePoint(hi) < 0xdc00
    requires IsCode(lo) && 0xdc00 <= CodePoint(lo) < 0xe000
    ensures ParseString(Quoted([Coded(hi), Coded(lo)]) + rest) == Parsed(['\U{fffd}', '\U{fffd}'], rest)
  {
    var gs := [Coded(hi), Coded(lo)];
    HalfIsReplaced(hi);
    HalfIsReplaced(lo);
    hide ParseString, IsCode, CodePoint, GlyphChar, Quoted;
    StringIsRead(gs, rest);
    TwoChars(Coded(hi), Coded(lo));
  }

  lemma HalfIsReplaced(d: seq<byte>)
    requires IsCode(d) && 0xd800 <= CodePoint(d) < 0xe000
    ensures IsGlyph(Coded(d)) && GlyphChar(Coded(d)) == '\U{fffd}'
  {
  }

  lemma TwoChars(g: Glyph, h: Glyph)
    requires IsGlyph(g) && IsGlyph(h)
    ensures Chars([g, h]) == [GlyphChar(g), GlyphChar(h)]
  {
    hide IsGlyph, GlyphChar;
    assert [g, h][1..] == [h] && [h][1..] == [];
    assert Chars([h]) == [GlyphChar(h)];
  }
}
