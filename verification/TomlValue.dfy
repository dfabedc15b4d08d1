/** The value parser of the configuration file and the texts it understands:
integers, booleans, both kinds of one-line string, and arrays of these with any
white space and an optional trailing comma (TOML v1.0.0, section "Array"). */
module TomlValue {
  import opened Wrappers
  import opened Text
  import opened Toml
  import Json

  type Value = Json.Json

  // -------------------------------------------------------------------------
  // The parser
  // -------------------------------------------------------------------------

  /** The letters after a backslash that stand for one character. */
  function Unescape(c: char): Option<char> {
    if c == 'n' then Some('\n')
    else if c == 't' then Some('\t')
    else if c == 'r' then Some('\r')
    else if c == '"' then Some('"')
    else if c == '\\' then Some('\\')
    else if c == '0' then Some('\0')
    else None
  }

  /** The rest of a basic string, after its opening quote: the closing quote must
      be the last character.  What a `\u` escape stands for is asked of `unicode`. */
  function ParseBasic(s: string, unicode: string -> Option<char>): Option<string> {
    if s == [] then None
    else if s[0] == '"' then if |s| == 1 then Some([]) else None
    else if s[0] != '\\' then Consed(Some(s[0]), ParseBasic(s[1..], unicode))
    else if |s| < 2 then None
    else if s[1] == 'u' then
      if |s| < 6 then None else Consed(unicode(s[2..6]), ParseBasic(s[6..], unicode))
    else Consed(Unescape(s[1]), ParseBasic(s[2..], unicode))
  }

  function Consed(c: Option<char>, s: Option<string>): Option<string> {
    if c.Some? && s.Some? then Some([c.value] + s.value) else None
  }

  function WithoutUnderscores(s: string): string {
    if s == [] then []
    else (if s[0] == '_' then [] else [s[0]]) + WithoutUnderscores(s[1..])
  }

  /** `str::parse::<i64>`. */
  function ParseI64(s: string): Option<int> {
    var negative := s != [] && s[0] == '-';
    var body := if s != [] && (s[0] == '-' || s[0] == '+') then s[1..] else s;
    if body == [] || !AllDigits(body) then None
    else
      var n: int := if negative then -(Text.Value(body) as int) else Text.Value(body);
      if Json.IsI64(n) then Some(n) else None
  }

  /** What the model does not interpret: `\u` escapes, and numbers that are not
      decimal integers. */
  datatype Foreign = Foreign(unicode: string -> Option<char>, number: string -> Result<Value>)

  function ParseNumber(s: string, f: Foreign): Result<Value> {
    var i := ParseI64(WithoutUnderscores(s));
    if i.Some? then Ok(Json.Int(i.value)) else f.number(s)
  }

  function FromBasic(r: Option<string>): Result<Value> {
    if r.Some? then Ok(Json.Str(r.value)) else Err
  }

  lemma TrimShrinks(s: string)
    ensures |Trim(s)| <= |s|
  {
    StartShrinks(s);
    EndShrinks(TrimStart(s));
  }

  lemma StartShrinks(s: string)
    ensures |TrimStart(s)| <= |s|
  {
  }

  lemma EndShrinks(s: string)
    ensures |TrimEnd(s)| <= |s|
  {
  }

  lemma {:induction false} PartsShrink(st: Scan, s: string)
    ensures forall p :: p in SplitFrom(st, s) ==> |p| <= |s|
    decreases s
  {
    if s != [] {
      PartsShrink(Step(st, s[0]), s[1..]);
    }
  }

  predicate Tripled(s: string, c: char) {
    |s| >= 3 && s[0] == c && s[1] == c && s[2] == c
  }

  function ParseValue(s: string, f: Foreign): Result<Value>
    decreases |s|, 0
  {
    if s == [] || Tripled(s, '"') || Tripled(s, '\'') || s[0] == '{' then Err
    else if s[0] == '"' then FromBasic(ParseBasic(s[1..], f.unicode))
    else if s[0] == '\'' then
      if s[|s| - 1] != '\'' || |s| < 2 then Err else Ok(Json.Str(s[1..|s| - 1]))
    else if s[0] == '[' then
      if s[|s| - 1] != ']' then Err
      else
        PartsShrink(Plain(0), s[1..|s| - 1]);
        var items := ParseItems(SplitFrom(Plain(0), s[1..|s| - 1]), |s| - 2, f);
        if items.Ok? then Ok(Json.Arr(items.value)) else Err
    else if s == "true" then Ok(Json.Bool(true))
    else if s == "false" then Ok(Json.Bool(false))
    else ParseNumber(s, f)
  }

  /** Array elements, none longer than `size`; blank ones are skipped. */
  function ParseItems(parts: seq<string>, size: nat, f: Foreign): Result<seq<Value>>
    requires forall p :: p in parts ==> |p| <= size
    decreases size, 1 + |parts|
  {
    if parts == [] then Ok([])
    else
      TrimShrinks(parts[0]);
      var t := Trim(parts[0]);
      if t == [] then ParseItems(parts[1..], size, f)
      else
        var v := ParseValue(t, f);
        if v.Err? then Err
        else
          var rest := ParseItems(parts[1..], size, f);
          if rest.Err? then Err else Ok([v.value] + rest.value)
  }

  // -------------------------------------------------------------------------
  // The texts
  // -------------------------------------------------------------------------

  /** A value as somebody wrote it down. */
  datatype Doc =
    | DInt(i: int)
    | DBool(b: bool)
    | DBasic(s: string)
    | DLiteral(s: string)
    | DArray(items: seq<Item>, tail: Option<string>)

  /** An element with the white space around it. */
  datatype Item = Item(left: string, doc: Doc, right: string)

  predicate Blank(s: string) {
    forall i :: 0 <= i < |s| ==> IsSpace(s[i])
  }

  predicate WellFormed(d: Doc) {
    match d
    case DInt(i) => Json.IsI64(i)
    case DBool(_) => true
    case DBasic(_) => true
    case DLiteral(s) => '\'' !in s
    case DArray(items, tail) =>
      && (tail.Some? ==> Blank(tail.value))
      && forall k :: 0 <= k < |items| ==>
           Blank(items[k].left) && Blank(items[k].right) && WellFormed(items[k].doc)
  }

  function Meaning(d: Doc): Value {
    match d
    case DInt(i) => Json.Int(i)
    case DBool(b) => Json.Bool(b)
    case DBasic(s) => Json.Str(s)
    case DLiteral(s) => Json.Str(s)
    case DArray(items, _) => Json.Arr(Meanings(items))
  }

  function Meanings(items: seq<Item>): seq<Value> {
    if items == [] then [] else [Meaning(items[0].doc)] + Meanings(items[1..])
  }

  function Escape(c: char): string {
    if c == '\n' then "\\n"
    else if c == '\t' then "\\t"
    else if c == '\r' then "\\r"
    else if c == '"' then "\\\""
    else if c == '\\' then "\\\\"
    else if c == '\0' then "\\0"
    else [c]
  }

  /** Escaped characters and the closing quote. */
  function BasicBody(s: string): string {
    if s == [] then ['"'] else Escape(s[0]) + BasicBody(s[1..])
  }

  function IntText(i: int): string {
    if i < 0 then ['-'] + Decimal(-i) else Decimal(i)
  }

  function TextOf(d: Doc): string {
    match d
    case DInt(i) => IntText(i)
    case DBool(b) => if b then "true" else "false"
    case DBasic(s) => ['"'] + BasicBody(s)
    case DLiteral(s) => ['\''] + (s + ['\''])
    case DArray(items, tail) => ['['] + (JoinCommas(Parts(items, tail)) + [']'])
  }

  /** The padded elements, and what follows a trailing comma. */
  function Parts(items: seq<Item>, tail: Option<string>): seq<string> {
    if items == [] then if tail.Some? then [tail.value] else []
    else [items[0].left + (TextOf(items[0].doc) + items[0].right)] + Parts(items[1..], tail)
  }

  // -------------------------------------------------------------------------
  // A written value is one closed chunk
  // -------------------------------------------------------------------------

  /** Scanning `s` at depth `d` or deeper ends where it began and, outside
      brackets, meets no separating comma. */
  predicate Neutral(d: int, s: string) {
    Run(Plain(d), s) == Plain(d) && CutFree(Plain(d), s)
  }

  predicate Inert(c: char) {
    c != '"' && c != '\'' && c != '[' && c != ']' && c != ','
  }

  lemma NeutralConcat(d: int, a: string, b: string)
    requires Neutral(d, a) && Neutral(d, b)
    ensures Neutral(d, a + b)
  {
    RunConcat(Plain(d), a, b);
  }

  lemma {:induction false} InertIsNeutral(d: int, s: string)
    requires forall i :: 0 <= i < |s| ==> Inert(s[i])
    ensures Neutral(d, s)
  {
    if s != [] {
      InertIsNeutral(d, s[1..]);
    }
  }

  lemma BlankIsNeutral(d: int, s: string)
    requires Blank(s)
    ensures Neutral(d, s)
  {
    forall i | 0 <= i < |s| ensures Inert(s[i]) {
      assert IsSpace(s[i]);
    }
    InertIsNeutral(d, s);
  }

  lemma {:induction false} BasicBodyCloses(d: int, s: string)
    ensures Run(Scan(d, true, false, false), BasicBody(s)) == Plain(d)
    ensures CutFree(Scan(d, true, false, false), BasicBody(s))
  {
    var st := Scan(d, true, false, false);
    if s == [] {
      OneChar(st, '"');
    } else {
      BasicBodyCloses(d, s[1..]);
      EscapeStays(d, s[0]);
      RunConcat(st, Escape(s[0]), BasicBody(s[1..]));
    }
  }

  lemma EscapeStays(d: int, c: char)
    ensures Run(Scan(d, true, false, false), Escape(c)) == Scan(d, true, false, false)
    ensures CutFree(Scan(d, true, false, false), Escape(c))
  {
    var st := Scan(d, true, false, false);
    OneChar(st, c);
    var e := Escape(c);
    if |e| == 2 {
      OneChar(st, e[0]);
      OneChar(Step(st, e[0]), e[1]);
      RunConcat(st, [e[0]], [e[1]]);
      assert e == [e[0]] + [e[1]];
    }
  }

  lemma {:induction false} LiteralCloses(d: int, s: string)
    requires '\'' !in s
    ensures Run(Scan(d, false, true, false), s + ['\'']) == Plain(d)
    ensures CutFree(Scan(d, false, true, false), s + ['\''])
  {
    var st := Scan(d, false, true, false);
    if s == [] {
      assert s + ['\''] == ['\''];
      OneChar(st, '\'');
    } else {
      LiteralCloses(d, s[1..]);
      assert (s + ['\''])[1..] == s[1..] + ['\''];
      assert s[0] in s;
    }
  }

  lemma Opens(st: Scan, c: char, s: string)
    ensures Run(st, [c] + s) == Run(Step(st, c), s)
    ensures CutFree(st, [c] + s) <==> !Cuts(st, c) && CutFree(Step(st, c), s)
  {
    assert ([c] + s)[1..] == s;
  }

  lemma IntTextIsInert(i: int)
    ensures
      var t := IntText(i);
      t != [] && forall k :: 0 <= k < |t| ==> Inert(t[k]) && t[k] != '_' && !IsSpace(t[k])
  {
    var n := if i < 0 then -i else i;
    DecimalRoundTrip(n);
    assert forall k :: 0 <= k < |Decimal(n)| ==> IsDigit(Decimal(n)[k]);
  }

  lemma {:induction false} TextIsNeutral(depth: nat, d: Doc)
    requires WellFormed(d)
    ensures Neutral(depth, TextOf(d))
    decreases d, 1
  {
    match d
    case DInt(i) =>
      IntTextIsInert(i);
      InertIsNeutral(depth, IntText(i));
    case DBool(b) => InertIsNeutral(depth, TextOf(d));
    case DBasic(s) =>
      Opens(Plain(depth), '"', BasicBody(s));
      BasicBodyCloses(depth, s);
    case DLiteral(s) =>
      Opens(Plain(depth), '\'', s + ['\'']);
      LiteralCloses(depth, s);
    case DArray(items, tail) =>
      var inner := JoinCommas(Parts(items, tail));
      Opens(Plain(depth), '[', inner + [']']);
      PartsAreNeutral(depth + 1, items, tail);
      JoinIsNeutral(depth + 1, Parts(items, tail));
      RunConcat(Plain(depth + 1), inner, [']']);
      OneChar(Plain(depth + 1), ']');
  }

  lemma {:induction false} PartsAreNeutral(depth: nat, items: seq<Item>, tail: Option<string>)
    requires WellFormed(DArray(items, tail))
    ensures forall i :: 0 <= i < |Parts(items, tail)| ==> Neutral(depth, Parts(items, tail)[i])
    decreases items, 0
  {
    if items == [] {
      if tail.Some? { BlankIsNeutral(depth, tail.value); }
    } else {
      var it := items[0];
      TextIsNeutral(depth, it.doc);
      BlankIsNeutral(depth, it.left);
      BlankIsNeutral(depth, it.right);
      NeutralConcat(depth, TextOf(it.doc), it.right);
      NeutralConcat(depth, it.left, TextOf(it.doc) + it.right);
      PartsAreNeutral(depth, items[1..], tail);
      assert Parts(items, tail)[1..] == Parts(items[1..], tail);
    }
  }

  /** Inside brackets commas do not separate. */
  lemma {:induction false} JoinIsNeutral(depth: nat, parts: seq<string>)
    requires depth > 0 && forall i :: 0 <= i < |parts| ==> Neutral(depth, parts[i])
    ensures Neutral(depth, JoinCommas(parts))
  {
    if |parts| == 0 {
    } else if |parts| == 1 {
    } else {
      JoinIsNeutral(depth, parts[1..]);
      Opens(Plain(depth), ',', JoinCommas(parts[1..]));
      NeutralConcat(depth, parts[0], [','] + JoinCommas(parts[1..]));
    }
  }

  // -------------------------------------------------------------------------
  // Reading back what was written
  // -------------------------------------------------------------------------

  lemma {:induction false} TrimStartBlank(a: string, b: string)
    requires Blank(a) && (b != [] ==> !IsSpace(b[0]))
    ensures TrimStart(a + b) == b
  {
    if a == [] {
      assert a + b == b;
    } else {
      assert IsSpace(a[0]);
      assert (a + b)[1..] == a[1..] + b;
      TrimStartBlank(a[1..], b);
    }
  }

  lemma {:induction false} TrimEndBlank(a: string, b: string)
    requires Blank(b) && (a != [] ==> !IsSpace(a[|a| - 1]))
    ensures TrimEnd(a + b) == a
  {
    if b == [] {
      assert a + b == a;
    } else {
      var n := |b| - 1;
      assert IsSpace(b[n]);
      assert (a + b)[..|a + b| - 1] == a + b[..n];
      TrimEndBlank(a, b[..n]);
    }
  }

  lemma TrimPadded(left: string, text: string, right: string)
    requires Blank(left) && Blank(right) && text != [] && !IsSpace(text[0]) && !IsSpace(text[|text| - 1])
    ensures Trim(left + (text + right)) == text
  {
    TrimStartBlank(left, text + right);
    TrimEndBlank(text, right);
  }

  lemma TrimBlank(s: string)
    requires Blank(s)
    ensures Trim(s) == []
  {
    TrimStartBlank(s, []);
    assert s + [] == s;
  }

  lemma EscapeIsRead(c: char, rest: string, unicode: string -> Option<char>)
    ensures ParseBasic(Escape(c) + rest, unicode) == Consed(Some(c), ParseBasic(rest, unicode))
  {
    var e := Escape(c);
    assert (e + rest)[|e|..] == rest;
    assert (e + rest)[0] == e[0];
    if |e| == 2 {
      assert (e + rest)[1] == e[1];
      assert Unescape(e[1]) == Some(c);
    }
  }

  lemma {:induction false} BasicRoundTrip(s: string, unicode: string -> Option<char>)
    ensures ParseBasic(BasicBody(s), unicode) == Some(s)
  {
    if s != [] {
      BasicRoundTrip(s[1..], unicode);
      EscapeIsRead(s[0], BasicBody(s[1..]), unicode);
      assert [s[0]] + s[1..] == s;
    }
  }

  lemma {:induction false} BasicBodyEnds(s: string)
    ensures BasicBody(s) != [] && BasicBody(s)[|BasicBody(s)| - 1] == '"'
    ensures |BasicBody(s)| > 1 ==> BasicBody(s)[0] != '"'
  {
    if s != [] {
      BasicBodyEnds(s[1..]);
    }
  }

  lemma IntRoundTrip(i: int, f: Foreign)
    requires Json.IsI64(i)
    ensures ParseNumber(IntText(i), f) == Ok(Json.Int(i))
  {
    var n := if i < 0 then -i else i;
    IntTextIsInert(i);
    NoUnderscores(IntText(i));
    DecimalRoundTrip(n);
    assert i < 0 ==> IntText(i)[1..] == Decimal(n);
    assert IsDigit(Decimal(n)[0]);
  }

  lemma {:induction false} NoUnderscores(s: string)
    requires forall k :: 0 <= k < |s| ==> s[k] != '_'
    ensures WithoutUnderscores(s) == s
  {
    if s != [] {
      NoUnderscores(s[1..]);
      assert [s[0]] + s[1..] == s;
    }
  }

  /** How a written value begins and ends. */
  lemma TextEnds(d: Doc)
    requires WellFormed(d)
    ensures
      var t := TextOf(d);
      && t != [] && !IsSpace(t[0]) && !IsSpace(t[|t| - 1])
      && (d.DInt? ==> IsDigit(t[0]) || t[0] == '-')
      && !Tripled(t, '"') && !Tripled(t, '\'')
  {
    match d
    case DInt(i) =>
      IntTextIsInert(i);
      DecimalRoundTrip(if i < 0 then -i else i);
      assert i >= 0 ==> IsDigit(Decimal(i)[0]);
    case DBasic(s) => BasicBodyEnds(s);
    case _ =>
  }

  lemma {:induction false} ItemsRoundTrip(items: seq<Item>, tail: Option<string>, size: nat, f: Foreign)
    requires WellFormed(DArray(items, tail))
    requires forall p :: p in Parts(items, tail) ==> |p| <= size
    ensures ParseItems(Parts(items, tail), size, f) == Ok(Meanings(items))
    decreases items, 0
  {
    var parts := Parts(items, tail);
    if items == [] {
      if tail.Some? { TrimBlank(tail.value); }
    } else {
      var it := items[0];
      TextEnds(it.doc);
      TrimPadded(it.left, TextOf(it.doc), it.right);
      ValueRoundTrip(it.doc, f);
      assert parts[1..] == Parts(items[1..], tail);
      ItemsRoundTrip(items[1..], tail, size, f);
    }
  }

  lemma ArraySplits(items: seq<Item>, tail: Option<string>)
    requires WellFormed(DArray(items, tail))
    ensures
      var parts := Parts(items, tail);
      SplitFrom(Plain(0), JoinCommas(parts)) == if parts == [] then [[]] else parts
  {
    var parts := Parts(items, tail);
    if parts != [] {
      PartsAreNeutral(0, items, tail);
      forall i | 0 <= i < |parts| - 1 ensures Closed(parts[i]) {
        assert Neutral(0, parts[i]);
      }
      assert Neutral(0, parts[|parts| - 1]);
      SplitAfterJoin(parts);
    }
  }

  lemma ArrayIs(inner: string, f: Foreign)
    ensures forall p :: p in SplitFrom(Plain(0), inner) ==> |p| <= |inner|
    ensures ParseValue(['['] + (inner + [']']), f) ==
            var items := ParseItems(SplitFrom(Plain(0), inner), |inner|, f);
            if items.Ok? then Ok(Json.Arr(items.value)) else Err
  {
    hide SplitFrom, ParseItems;
    PartsShrink(Plain(0), inner);
    var s := ['['] + (inner + [']']);
    assert s[1..|s| - 1] == inner;
    assert s[0] == '[' && s[|s| - 1] == ']';
  }

  lemma BlankItem(size: nat, f: Foreign)
    ensures ParseItems([""], size, f) == Ok([])
  {
    assert Trim("") == "";
    assert [""][1..] == [];
    assert ParseItems([], size, f) == Ok([]);
  }

  // -------------------------------------------------------------------------
  // The parser's loops
  // -------------------------------------------------------------------------

  /** `parse_basic_string`, from after the opening quote. */
  method ParseBasicString(s: string, unicode: string -> Option<char>) returns (r: Option<string>)
    ensures r == ParseBasic(s, unicode)
  {
    var out, i := [], 0;
    assert s[0..] == s;
    AppendNothing(out, ParseBasic(s, unicode));
    while true
      invariant i <= |s|
      invariant ParseBasic(s, unicode) == Appended(out, ParseBasic(s[i..], unicode))
      decreases |s| - i
    {
      var c: Option<char>;
      var n;
      if i >= |s| {
        return None;
      } else if s[i] == '"' {
        AppendNothing(out, None);
        return if i + 1 != |s| then None else Some(out);
      } else if s[i] != '\\' {
        c, n := Some(s[i]), 1;
      } else if i + 1 >= |s| {
        return None;
      } else if s[i + 1] != 'u' {
        c, n := Unescape(s[i + 1]), 2;
      } else if i + 6 > |s| {
        return None;
      } else {
        assert s[i..][2..6] == s[i + 2..i + 6];
        c, n := unicode(s[i + 2..i + 6]), 6;
      }
      assert s[i..][n..] == s[i + n..];
      if c.None? {
        return None;
      }
      AppendOne(out, c.value, ParseBasic(s[i + n..], unicode));
      out := out + [c.value];
      i := i + n;
    }
  }

  function Appended(out: string, r: Option<string>): Option<string> {
    if r.Some? then Some(out + r.value) else None
  }

  lemma AppendNothing(out: string, r: Option<string>)
    ensures Appended([], r) == r && Appended(out, Some([])) == Some(out)
  {
    assert r.Some? ==> [] + r.value == r.value;
    assert out + [] == out;
  }

  lemma AppendOne(out: string, c: char, r: Option<string>)
    ensures Appended(out, Consed(Some(c), r)) == Appended(out + [c], r)
  {
    if r.Some? {
      assert out + ([c] + r.value) == out + [c] + r.value;
    }
  }

  /** `parse_value`. */
  method ParseText(s: string, f: Foreign) returns (r: Result<Value>)
    ensures r == ParseValue(s, f)
    decreases |s|
  {
    if s == [] || Tripled(s, '"') || Tripled(s, '\'') || s[0] == '{' {
      return Err;
    }
    if s[0] == '"' {
      var text := ParseBasicString(s[1..], f.unicode);
      return FromBasic(text);
    }
    if s[0] != '[' {
      return ParseValue(s, f);
    }
    if s[|s| - 1] != ']' {
      return Err;
    }
    var inner := s[1..|s| - 1];
    var parts := SplitTopLevel(inner);
    PartsShrink(Plain(0), inner);
    var out: seq<Value>, k := [], 0;
    assert parts[0..] == parts;
    NoItems(out, ParseItems(parts, |s| - 2, f));
    while k < |parts|
      invariant k <= |parts|
      invariant ParseItems(parts, |s| - 2, f) == ItemsAfter(out, ParseItems(parts[k..], |s| - 2, f))
    {
      var t := Trim(parts[k]);
      TrimShrinks(parts[k]);
      assert parts[k] in parts && parts[k..][1..] == parts[k + 1..];
      if t != [] {
        var v := ParseText(t, f);
        if v.Err? {
          return Err;
        }
        ItemAfter(out, v.value, ParseItems(parts[k + 1..], |s| - 2, f));
        out := out + [v.value];
      }
      k := k + 1;
    }
    NoItems(out, Err);
    return Ok(Json.Arr(out));
  }

  function ItemsAfter(out: seq<Value>, r: Result<seq<Value>>): Result<seq<Value>> {
    if r.Ok? then Ok(out + r.value) else Err
  }

  lemma NoItems(out: seq<Value>, r: Result<seq<Value>>)
    ensures ItemsAfter([], r) == r && ItemsAfter(out, Ok([])) == Ok(out)
  {
    assert r.Ok? ==> [] + r.value == r.value;
    assert out + [] == out;
  }

  lemma ItemAfter(out: seq<Value>, v: Value, r: Result<seq<Value>>)
    ensures ItemsAfter(out, if r.Err? then Err else Ok([v] + r.value)) == ItemsAfter(out + [v], r)
  {
    if r.Ok? {
      assert out + ([v] + r.value) == out + [v] + r.value;
    }
  }

  /** Every nested array of integers, booleans and strings is read back, however
      it is spaced. */
  lemma {:induction false} ValueRoundTrip(d: Doc, f: Foreign)
    requires WellFormed(d)
    ensures ParseValue(TextOf(d), f) == Ok(Meaning(d))
    decreases d, 1
  {
    hide Trim, Run, CutFree, Tripled;
    var t := TextOf(d);
    TextEnds(d);
    match d
    case DInt(i) => IntRoundTrip(i, f);
    case DBool(_) =>
    case DBasic(s) =>
      BasicRoundTrip(s, f.unicode);
      assert t[1..] == BasicBody(s);
    case DLiteral(s) => assert t[1..|t| - 1] == s;
    case DArray(items, tail) =>
      var parts := Parts(items, tail);
      ArrayIs(JoinCommas(parts), f);
      ArraySplits(items, tail);
      if parts == [] {
        BlankItem(|t| - 2, f);
      } else {
        ItemsRoundTrip(items, tail, |t| - 2, f);
      }
  }
}
