/** JSON values, their printed form and the parser's grammar
(`src/util/json.rs`), as functions on bytes. */
module Json {
  import opened Bytes
  import opened Wrappers
  import Utf8

  /** Objects keep insertion order and may repeat a key.  A float is kept as the
      text it is printed with: its value is not interpreted. */
  datatype Json =
    | Null
    | Bool(b: bool)
    | Int(i: int)
    | Float(text: seq<byte>)
    | Str(s: string)
    | Arr(items: seq<Json>)
    | Obj(members: seq<Member>)

  datatype Member = Member(key: string, value: Json)

  const I64_MIN := -0x8000_0000_0000_0000
  const I64_MAX := 0x7fff_ffff_ffff_ffff

  predicate IsI64(i: int) {
    I64_MIN <= i <= I64_MAX
  }

  /** A tree that its print tells exactly: integers are `i64`s, and floats print as
      numbers that do not look like one. */
  predicate Exact(j: Json) {
    match j
    case Int(i) => IsI64(i)
    case Float(text) => IsDecimalText(text) && ParseI64(text).None?
    case Arr(items) => forall k :: 0 <= k < |items| ==> Exact(items[k])
    case Obj(members) => forall k :: 0 <= k < |members| ==> Exact(members[k].value)
    case _ => true
  }

  // -------------------------------------------------------------------------
  // Accessors
  // -------------------------------------------------------------------------

  function Find(members: seq<Member>, key: string): Option<Json> {
    if members == [] then None
    else if members[0].key == key then Some(members[0].value)
    else Find(members[1..], key)
  }

  function Get(j: Json, key: string): Option<Json> {
    if j.Obj? then Find(j.members, key) else None
  }

  function GetStr(j: Json, key: string): Option<string> {
    var v := Get(j, key);
    if v.Some? && v.value.Str? then Some(v.value.s) else None
  }

  // -------------------------------------------------------------------------
  // The printer
  // -------------------------------------------------------------------------

  const QUOTE: byte := 0x22
  const BACKSLASH: byte := 0x5c
  const COMMA: byte := 0x2c
  const COLON: byte := 0x3a
  const LBRACKET: byte := 0x5b
  const RBRACKET: byte := 0x5d
  const LBRACE: byte := 0x7b
  const RBRACE: byte := 0x7d
  const MINUS: byte := 0x2d
  const PLUS: byte := 0x2b
  const DOT: byte := 0x2e
  const SPACE: byte := 0x20
  const NEWLINE: byte := 0x0a

  const NULL_TEXT: seq<byte> := [0x6e, 0x75, 0x6c, 0x6c]
  const TRUE_TEXT: seq<byte> := [0x74, 0x72, 0x75, 0x65]
  const FALSE_TEXT: seq<byte> := [0x66, 0x61, 0x6c, 0x73, 0x65]

  function Digits(n: nat): seq<byte> {
    if n < 10 then [0x30 + n] else Digits(n / 10) + [0x30 + n % 10]
  }

  function PrintInt(i: int): seq<byte> {
    if i < 0 then [MINUS] + Digits(-i) else Digits(i)
  }

  function HexDigit(n: nat): byte
    requires n < 16
  {
    if n < 10 then 0x30 + n else 0x61 + (n - 10)
  }

  function EscapeChar(c: char): seq<byte> {
    var n := c as int;
    if n == 0x22 then [BACKSLASH, QUOTE]
    else if n == 0x5c then [BACKSLASH, BACKSLASH]
    else if n == 0x0a then [BACKSLASH, 0x6e]
    else if n == 0x0d then [BACKSLASH, 0x72]
    else if n == 0x09 then [BACKSLASH, 0x74]
    else if n == 0x08 then [BACKSLASH, 0x62]
    else if n == 0x0c then [BACKSLASH, 0x66]
    else if n < 0x20 then [BACKSLASH, 0x75, 0x30, 0x30, HexDigit(n / 16), HexDigit(n % 16)]
    else Utf8.EncodeChar(c)
  }

  /** The escaped characters and the closing quote. */
  function EscapeBody(s: string): seq<byte> {
    if s == [] then [QUOTE] else EscapeChar(s[0]) + EscapeBody(s[1..])
  }

  function PrintString(s: string): seq<byte> {
    [QUOTE] + EscapeBody(s)
  }

  function Spaces(n: nat): seq<byte> {
    seq(n, _ => SPACE)
  }

  /** A line break and indentation, in pretty mode only. */
  function Break(indent: Option<nat>, depth: nat): seq<byte> {
    if indent.None? then [] else [NEWLINE] + Spaces(indent.value * depth)
  }

  /** `Json::write`. */
  function Print(j: Json, indent: Option<nat>, depth: nat): seq<byte>
    decreases j, 1
  {
    match j
    case Null => NULL_TEXT
    case Bool(b) => if b then TRUE_TEXT else FALSE_TEXT
    case Int(i) => PrintInt(i)
    case Float(text) => text
    case Str(s) => PrintString(s)
    case Arr(items) => [LBRACKET] + (if items == [] then [RBRACKET] else PrintItems(items, indent, depth))
    case Obj(members) => [LBRACE] + (if members == [] then [RBRACE] else PrintMembers(members, indent, depth))
  }

  /** The elements of a non-empty array and its closing bracket. */
  function PrintItems(items: seq<Json>, indent: Option<nat>, depth: nat): seq<byte>
    requires items != []
    decreases items, 0
  {
    Break(indent, depth + 1) + (Print(items[0], indent, depth + 1) + AfterItem(items[1..], indent, depth))
  }

  function AfterItem(items: seq<Json>, indent: Option<nat>, depth: nat): seq<byte>
    decreases items, 1
  {
    if items == [] then Break(indent, depth) + [RBRACKET] else [COMMA] + PrintItems(items, indent, depth)
  }

  /** The space after a colon, in pretty mode only. */
  function Gap(indent: Option<nat>): seq<byte> {
    if indent.None? then [] else [SPACE]
  }

  function PrintMembers(members: seq<Member>, indent: Option<nat>, depth: nat): seq<byte>
    requires members != []
    decreases members, 0
  {
    Break(indent, depth + 1)
    + (PrintString(members[0].key)
       + ([COLON] + Gap(indent)
          + (Print(members[0].value, indent, depth + 1) + AfterMember(members[1..], indent, depth))))
  }

  function AfterMember(members: seq<Member>, indent: Option<nat>, depth: nat): seq<byte>
    decreases members, 1
  {
    if members == [] then Break(indent, depth) + [RBRACE] else [COMMA] + PrintMembers(members, indent, depth)
  }

  // -------------------------------------------------------------------------
  // The parser's grammar
  // -------------------------------------------------------------------------

  /** A value read from the front of some bytes, and the bytes after it. */
  datatype Parsed<+T> = Fail | Parsed(value: T, rest: seq<byte>)

  predicate IsWs(b: byte) {
    b == 0x20 || b == 0x09 || b == 0x0a || b == 0x0d
  }

  function SkipWs(s: seq<byte>): (r: seq<byte>)
    ensures |r| <= |s|
    ensures r != [] ==> !IsWs(r[0])
  {
    if s != [] && IsWs(s[0]) then SkipWs(s[1..]) else s
  }

  predicate StartsWith(s: seq<byte>, b: byte) {
    s != [] && s[0] == b
  }

  function ParseLiteral(s: seq<byte>, text: seq<byte>, value: Json): (p: Parsed<Json>)
    ensures p.Parsed? ==> |p.rest| + |text| == |s|
  {
    if text <= s then Parsed(value, s[|text|..]) else Fail
  }

  function HexValue(b: byte): Option<nat> {
    if 0x30 <= b <= 0x39 then Some(b - 0x30)
    else if 0x61 <= b <= 0x66 then Some(b - 0x61 + 10)
    else if 0x41 <= b <= 0x46 then Some(b - 0x41 + 10)
    else None
  }

  /** `u32::from_str_radix(_, 16)`, digit by digit. */
  function HexNumber(s: seq<byte>): Option<nat> {
    if s == [] then Some(0)
    else
      var hi := HexNumber(s[..|s| - 1]);
      var lo := HexValue(s[|s| - 1]);
      if hi.Some? && lo.Some? then Some(hi.value * 16 + lo.value) else None
  }

  /** The four characters after `\u`: `from_str_radix` also takes a leading plus
      sign, and code points that are not characters become U+FFFD. */
  function UnicodeEscape(s: seq<byte>): Option<char>
    requires |s| == 4
  {
    var n := HexNumber(if s[0] == PLUS then s[1..] else s);
    if n.None? then None
    else if Utf8.IsScalar(n.value) then Some(n.value as char)
    else Some('\U{fffd}')
  }

  /** One character of a string and what follows it; the closing quote is not a
      character. */
  function ParseChar(s: seq<byte>): (p: Parsed<char>)
    requires s != []
    ensures p.Parsed? ==> |p.rest| < |s|
  {
    if s[0] == BACKSLASH then
      if |s| < 2 then Fail
      else if s[1] == 0x22 then Parsed(0x22 as char, s[2..])
      else if s[1] == 0x5c then Parsed(0x5c as char, s[2..])
      else if s[1] == 0x2f then Parsed(0x2f as char, s[2..])
      else if s[1] == 0x6e then Parsed(0x0a as char, s[2..])
      else if s[1] == 0x72 then Parsed(0x0d as char, s[2..])
      else if s[1] == 0x74 then Parsed(0x09 as char, s[2..])
      else if s[1] == 0x62 then Parsed(0x08 as char, s[2..])
      else if s[1] == 0x66 then Parsed(0x0c as char, s[2..])
      else if s[1] == 0x75 then
        if |s| < 6 then Fail
        else
          var c := UnicodeEscape(s[2..6]);
          if c.Some? then Parsed(c.value, s[6..]) else Fail
      else Fail
    else if s[0] < 0x20 then Fail
    else if s[0] < 0x80 then Parsed(s[0] as char, s[1..])
    else
      var n := Utf8.LeadLength(s[0]);
      if |s| < n then Fail
      else
        var c := Utf8.DecodeChunk(s[..n]);
        if c.Some? then Parsed(c.value, s[n..]) else Fail
  }

  /** The rest of a string, after its opening quote. */
  function ParseString(s: seq<byte>): (p: Parsed<string>)
    ensures p.Parsed? ==> |p.rest| < |s|
  {
    if s == [] then Fail
    else if s[0] == QUOTE then Parsed([], s[1..])
    else
      var c := ParseChar(s);
      if c.Fail? then Fail
      else
        var p := ParseString(c.rest);
        if p.Fail? then Fail else Parsed([c.value] + p.value, p.rest)
  }

  predicate IsDigit(b: byte) {
    0x30 <= b <= 0x39
  }

  predicate IsNumberByte(b: byte) {
    IsDigit(b) || b == DOT || b == 0x65 || b == 0x45 || b == MINUS || b == PLUS
  }

  predicate IsSign(b: byte) {
    b == MINUS || b == PLUS
  }

  /** How many bytes of `s`, from the front, can belong to a number. */
  function NumberSpan(s: seq<byte>): (n: nat)
    ensures n <= |s|
    ensures n < |s| ==> !IsNumberByte(s[n])
    ensures forall i :: 0 <= i < n ==> IsNumberByte(s[i])
  {
    if s != [] && IsNumberByte(s[0]) then 1 + NumberSpan(s[1..]) else 0
  }

  predicate AllDigits(s: seq<byte>) {
    forall i :: 0 <= i < |s| ==> IsDigit(s[i])
  }

  function DecimalValue(s: seq<byte>): nat
    requires AllDigits(s)
  {
    if s == [] then 0 else DecimalValue(s[..|s| - 1]) * 10 + (s[|s| - 1] - 0x30)
  }

  function Unsigned(text: seq<byte>): seq<byte> {
    if text != [] && IsSign(text[0]) then text[1..] else text
  }

  /** `str::parse::<i64>`. */
  function ParseI64(text: seq<byte>): Option<int> {
    var body := Unsigned(text);
    if body == [] || !AllDigits(body) then None
    else
      var n: int := DecimalValue(body);
      var i := if text[0] == MINUS then -n else n;
      if IsI64(i) then Some(i) else None
  }

  function IndexOf(s: seq<byte>, p: byte -> bool): (n: nat)
    ensures n <= |s|
    ensures n < |s| ==> p(s[n])
  {
    if s == [] || p(s[0]) then 0 else 1 + IndexOf(s[1..], p)
  }

  function ExponentAt(s: seq<byte>): (n: nat)
    ensures n <= |s|
  {
    IndexOf(s, b => b == 0x65 || b == 0x45)
  }

  function DotAt(s: seq<byte>): (n: nat)
    ensures n <= |s|
  {
    IndexOf(s, b => b == DOT)
  }

  /** The texts `str::parse::<f64>` takes among those the scanner produces. */
  predicate IsFloatText(text: seq<byte>) {
    var body := Unsigned(text);
    var e := ExponentAt(body);
    var mantissa := body[..e];
    var dot := DotAt(mantissa);
    && AllDigits(mantissa[..dot])
    && (dot < |mantissa| ==> AllDigits(mantissa[dot + 1..]))
    && (dot > 0 || dot + 1 < |mantissa|)
    && (e < |body| ==> var exp := Unsigned(body[e + 1..]); exp != [] && AllDigits(exp))
  }

  /** How a finite float is printed: digits, perhaps with a sign and a fraction. */
  predicate IsDecimalText(text: seq<byte>) {
    var body := if text != [] && text[0] == MINUS then text[1..] else text;
    var dot := DotAt(body);
    && dot > 0 && AllDigits(body[..dot])
    && (dot < |body| ==> dot + 1 < |body| && AllDigits(body[dot + 1..]))
  }

  function ParseNumber(s: seq<byte>): (p: Parsed<Json>)
    ensures p.Parsed? ==> |p.rest| < |s|
  {
    var n := NumberSpan(s);
    if n == 0 then Fail
    else
      var text := s[..n];
      var i := if AllDigits(Unsigned(text)) then ParseI64(text) else None;
      if i.Some? then Parsed(Int(i.value), s[n..])
      else if IsFloatText(text) then Parsed(Float(text), s[n..])
      else Fail
  }

  function ParseValue(s: seq<byte>): (p: Parsed<Json>)
    ensures p.Parsed? ==> |p.rest| < |s|
    decreases |s|, 0
  {
    if s == [] then Fail
    else if s[0] == LBRACE then
      var t := SkipWs(s[1..]);
      if StartsWith(t, RBRACE) then Parsed(Obj([]), t[1..])
      else
        var p := ParseMembers(t);
        if p.Fail? then Fail else Parsed(Obj(p.value), p.rest)
    else if s[0] == LBRACKET then
      var t := SkipWs(s[1..]);
      if StartsWith(t, RBRACKET) then Parsed(Arr([]), t[1..])
      else
        var p := ParseItems(t);
        if p.Fail? then Fail else Parsed(Arr(p.value), p.rest)
    else if s[0] == QUOTE then
      var p := ParseString(s[1..]);
      if p.Fail? then Fail else Parsed(Str(p.value), p.rest)
    else if s[0] == 0x74 then ParseLiteral(s, TRUE_TEXT, Bool(true))
    else if s[0] == 0x66 then ParseLiteral(s, FALSE_TEXT, Bool(false))
    else if s[0] == 0x6e then ParseLiteral(s, NULL_TEXT, Null)
    else ParseNumber(s)
  }

  /** Array elements up to and including the closing bracket. */
  function ParseItems(s: seq<byte>): (p: Parsed<seq<Json>>)
    ensures p.Parsed? ==> |p.rest| < |s|
    decreases |s|, 1
  {
    var v := ParseValue(SkipWs(s));
    if v.Fail? then Fail
    else
      var t := SkipWs(v.rest);
      if StartsWith(t, COMMA) then
        var p := ParseItems(t[1..]);
        if p.Fail? then Fail else Parsed([v.value] + p.value, p.rest)
      else if StartsWith(t, RBRACKET) then Parsed([v.value], t[1..])
      else Fail
  }

  /** A key, its colon and its value. */
  function ParseMember(s: seq<byte>): (p: Parsed<Member>)
    ensures p.Parsed? ==> |p.rest| < |s|
    decreases |s|, 1
  {
    var t := SkipWs(s);
    if !StartsWith(t, QUOTE) then Fail
    else
      var k := ParseString(t[1..]);
      if k.Fail? || !StartsWith(SkipWs(k.rest), COLON) then Fail
      else
        var v := ParseValue(SkipWs(SkipWs(k.rest)[1..]));
        if v.Fail? then Fail else Parsed(Member(k.value, v.value), v.rest)
  }

  /** Object members up to and including the closing brace. */
  function ParseMembers(s: seq<byte>): (p: Parsed<seq<Member>>)
    ensures p.Parsed? ==> |p.rest| < |s|
    decreases |s|, 2
  {
    var m := ParseMember(s);
    if m.Fail? then Fail
    else
      var t := SkipWs(m.rest);
      if StartsWith(t, COMMA) then
        var p := ParseMembers(t[1..]);
        if p.Fail? then Fail else Parsed([m.value] + p.value, p.rest)
      else if StartsWith(t, RBRACE) then Parsed([m.value], t[1..])
      else Fail
  }

  /** `json::parse`: one value, surrounded by white space, and nothing else. */
  function Parse(s: seq<byte>): Result<Json> {
    var p := ParseValue(SkipWs(s));
    if p.Parsed? && SkipWs(p.rest) == [] then Ok(p.value) else Err
  }
}
