/** The cursor-driven parser and the appending printer of `src/util/json.rs`,
proved to compute the grammar and the printed form of module `Json`. */
module JsonParser {
  import opened Bytes
  import opened Wrappers
  import opened Json
  import JsonRoundTrip
  import Utf8

  /** What a parser method promises: it succeeds exactly when the grammar does,
      with the same value, and leaves the cursor where the grammar stops. */
  ghost predicate Follows<T>(p: Parsed<T>, r: Result<T>, b: seq<byte>, i: nat) {
    && i <= |b|
    && (r.Ok? <==> p.Parsed?)
    && (r.Ok? ==> r.value == p.value && b[i..] == p.rest)
  }

  /** Values already collected, before whatever is still to be read. */
  ghost function Prepend<T>(xs: seq<T>, p: Parsed<seq<T>>): (r: Parsed<seq<T>>)
    ensures xs == [] ==> r == p
  {
    if p.Fail? then Fail else assert [] + p.value == p.value; Parsed(xs + p.value, p.rest)
  }

  lemma PrependTwice<T>(xs: seq<T>, x: T, p: Parsed<seq<T>>)
    ensures Prepend(xs, Prepend([x], p)) == Prepend(xs + [x], p)
  {
    if p.Parsed? {
      assert xs + ([x] + p.value) == (xs + [x]) + p.value;
    }
  }

  lemma SpanStep(s: seq<byte>)
    ensures NumberSpan(s) == if s != [] && IsNumberByte(s[0]) then 1 + NumberSpan(s[1..]) else 0
    ensures AllDigits([])
  {
  }

  lemma OneMoreDigit(s: seq<byte>, b: byte)
    ensures AllDigits(s + [b]) <==> AllDigits(s) && IsDigit(b)
  {
    if AllDigits(s + [b]) {
      assert forall k :: 0 <= k < |s| ==> s[k] == (s + [b])[k];
      assert (s + [b])[|s|] == b;
    }
  }

  lemma Shift(a: seq<byte>, x: seq<byte>, y: seq<byte>, z: seq<byte>)
    ensures a + (x + (y + z)) == ((a + x) + y) + z
  {
  }

  class Parser {
    const b: seq<byte>
    var i: nat

    ghost predicate Valid()
      reads this
    {
      i <= |b|
    }

    constructor (input: seq<byte>)
      ensures Valid() && b == input && i == 0
    {
      b := input;
      i := 0;
    }

    function Peek(): Option<byte>
      requires Valid()
      reads this
    {
      if i < |b| then Some(b[i]) else None
    }

    method Ws()
      requires Valid()
      modifies this`i
      ensures Valid() && i >= old(i)
      ensures b[i..] == SkipWs(old(b[i..]))
    {
      while i < |b| && IsWs(b[i])
        invariant Valid() && i >= old(i)
        invariant SkipWs(b[i..]) == SkipWs(old(b[i..]))
      {
        assert b[i..][1..] == b[i + 1..];
        i := i + 1;
      }
    }

    method Lit(text: seq<byte>) returns (ok: bool)
      requires Valid() && text != []
      modifies this`i
      ensures Valid()
      ensures ok <==> text <= old(b[i..])
      ensures ok ==> b[i..] == old(b[i..])[|text|..]
    {
      ok := text <= b[i..];
      if ok {
        assert b[i..][|text|..] == b[i + |text|..];
        i := i + |text|;
      }
    }

    method Value() returns (r: Result<Json>)
      requires Valid()
      modifies this`i
      ensures Follows(ParseValue(old(b[i..])), r, b, i)
      decreases |b| - i, 1
    {
      hide ParseMembers, ParseItems, ParseString, ParseNumber, SkipWs;
      var c := Peek();
      if c.None? {
        return Err;
      }
      assert b[i..][0] == b[i];
      if c.value == LBRACE {
        r := Object();
      } else if c.value == LBRACKET {
        r := Array();
      } else if c.value == QUOTE {
        var s := String();
        r := if s.Ok? then Ok(Str(s.value)) else Err;
      } else if c.value == 0x74 {
        var ok := Lit(TRUE_TEXT);
        r := if ok then Ok(Bool(true)) else Err;
      } else if c.value == 0x66 {
        var ok := Lit(FALSE_TEXT);
        r := if ok then Ok(Bool(false)) else Err;
      } else if c.value == 0x6e {
        var ok := Lit(NULL_TEXT);
        r := if ok then Ok(Null) else Err;
      } else {
        r := Number();
      }
    }

    method Object() returns (r: Result<Json>)
      requires Valid() && i < |b| && b[i] == LBRACE
      modifies this`i
      ensures Follows(ParseValue(old(b[i..])), r, b, i)
      decreases |b| - i, 0
    {
      hide ParseMembers, SkipWs;
      ghost var s := b[i..];
      assert s[0] == LBRACE && s[1..] == b[i + 1..];
      i := i + 1;
      Ws();
      ghost var t := b[i..];
      if Peek() == Some(RBRACE) {
        assert t[1..] == b[i + 1..];
        i := i + 1;
        return Ok(Obj([]));
      }
      var m := Members();
      r := if m.Ok? then Ok(Obj(m.value)) else Err;
    }

    /** The loop of `object`. */
    method Members() returns (r: Result<seq<Member>>)
      requires Valid()
      modifies this`i
      ensures Follows(ParseMembers(old(b[i..])), r, b, i)
      decreases |b| - i, 3
    {
      hide ParseMember, SkipWs;
      var m: seq<Member> := [];
      while true
        invariant Valid() && i >= old(i)
        invariant ParseMembers(old(b[i..])) == Prepend(m, ParseMembers(b[i..]))
        decreases |b| - i
      {
        ghost var u := b[i..];
        var one := OneMember();
        if one.Err? {
          return Err;
        }
        Ws();
        ghost var t := b[i..];
        assert t != [] ==> t[0] == b[i] && t[1..] == b[i + 1..];
        if Peek() == Some(COMMA) {
          i := i + 1;
          assert ParseMembers(u) == Prepend([one.value], ParseMembers(b[i..]));
          PrependTwice(m, one.value, ParseMembers(b[i..]));
          m := m + [one.value];
        } else if Peek() == Some(RBRACE) {
          i := i + 1;
          assert ParseMembers(u) == Parsed([one.value], b[i..]);
          return Ok(m + [one.value]);
        } else {
          return Err;
        }
      }
    }

    method OneMember() returns (r: Result<Member>)
      requires Valid()
      modifies this`i
      ensures Follows(ParseMember(old(b[i..])), r, b, i)
      decreases |b| - i, 2
    {
      hide ParseValue, ParseString, SkipWs;
      ghost var s := b[i..];
      Ws();
      ghost var t := b[i..];
      assert t != [] ==> t[0] == b[i];
      if Peek() != Some(QUOTE) {
        return Err;
      }
      var k := String();
      if k.Err? {
        return Err;
      }
      Ws();
      ghost var u := b[i..];
      assert u != [] ==> u[0] == b[i] && u[1..] == b[i + 1..];
      if Peek() != Some(COLON) {
        return Err;
      }
      i := i + 1;
      Ws();
      var v := Value();
      assert v.Ok? <==> ParseValue(SkipWs(u[1..])).Parsed?;
      if v.Err? {
        return Err;
      }
      r := Ok(Member(k.value, v.value));
    }

    method Array() returns (r: Result<Json>)
      requires Valid() && i < |b| && b[i] == LBRACKET
      modifies this`i
      ensures Follows(ParseValue(old(b[i..])), r, b, i)
      decreases |b| - i, 0
    {
      hide ParseItems, SkipWs;
      ghost var s := b[i..];
      assert s[0] == LBRACKET && s[1..] == b[i + 1..];
      i := i + 1;
      Ws();
      ghost var t := b[i..];
      if Peek() == Some(RBRACKET) {
        assert t[1..] == b[i + 1..];
        i := i + 1;
        return Ok(Arr([]));
      }
      var a := Items();
      r := if a.Ok? then Ok(Arr(a.value)) else Err;
    }

    /** The loop of `array`. */
    method Items() returns (r: Result<seq<Json>>)
      requires Valid()
      modifies this`i
      ensures Follows(ParseItems(old(b[i..])), r, b, i)
      decreases |b| - i, 3
    {
      hide ParseValue, SkipWs;
      var a: seq<Json> := [];
      while true
        invariant Valid() && i >= old(i)
        invariant ParseItems(old(b[i..])) == Prepend(a, ParseItems(b[i..]))
        decreases |b| - i
      {
        ghost var u := b[i..];
        Ws();
        var v := Value();
        if v.Err? {
          return Err;
        }
        Ws();
        ghost var t := b[i..];
        assert t != [] ==> t[0] == b[i] && t[1..] == b[i + 1..];
        if Peek() == Some(COMMA) {
          i := i + 1;
          assert ParseItems(u) == Prepend([v.value], ParseItems(b[i..]));
          PrependTwice(a, v.value, ParseItems(b[i..]));
          a := a + [v.value];
        } else if Peek() == Some(RBRACKET) {
          i := i + 1;
          assert ParseItems(u) == Parsed([v.value], b[i..]);
          return Ok(a + [v.value]);
        } else {
          return Err;
        }
      }
    }

    method String() returns (r: Result<string>)
      requires Valid() && i < |b|
      modifies this`i
      ensures Follows(ParseString(old(b[i..])[1..]), r, b, i)
      ensures i > old(i)
    {
      assert b[i..][1..] == b[i + 1..];
      i := i + 1;
      var s: string := [];
      ghost var t := b[i..];
      while true
        invariant Valid() && i > old(i)
        invariant ParseString(t) == Prepend(s, ParseString(b[i..]))
        decreases |b| - i
      {
        ghost var u := b[i..];
        if i == |b| {
          return Err;
        }
        assert u[0] == b[i] && u[1..] == b[i + 1..];
        if b[i] == QUOTE {
          i := i + 1;
          assert ParseString(u) == Parsed([], b[i..]);
          assert s + [] == s;
          return Ok(s);
        }
        var c := Char();
        if c.Err? {
          return Err;
        }
        assert ParseString(u) == Prepend([c.value], ParseString(b[i..]));
        PrependTwice(s, c.value, ParseString(b[i..]));
        s := s + [c.value];
      }
    }

    /** One character of a string, escaped or not. */
    method Char() returns (r: Result<char>)
      requires Valid() && i < |b| && b[i] != QUOTE
      modifies this`i
      ensures Follows(ParseChar(old(b[i..])), r, b, i)
      ensures i > old(i)
    {
      ghost var s := b[i..];
      var c := b[i];
      assert s[0] == c;
      if c == BACKSLASH {
        i := i + 1;
        if i == |b| {
          return Err;
        }
        var e := b[i];
        assert s[1] == e && s[2..] == b[i + 1..];
        i := i + 1;
        if e == 0x22 || e == 0x5c || e == 0x2f {
          r := Ok(e as char);
        } else if e == 0x6e {
          r := Ok(0x0a as char);
        } else if e == 0x72 {
          r := Ok(0x0d as char);
        } else if e == 0x74 {
          r := Ok(0x09 as char);
        } else if e == 0x62 {
          r := Ok(0x08 as char);
        } else if e == 0x66 {
          r := Ok(0x0c as char);
        } else if e == 0x75 {
          if i + 4 > |b| {
            return Err;
          }
          assert b[i..i + 4] == s[2..6] && s[6..] == b[i + 4..];
          var u := UnicodeEscape(b[i..i + 4]);
          if u.None? {
            return Err;
          }
          i := i + 4;
          r := Ok(u.value);
        } else {
          r := Err;
        }
      } else if c < 0x20 {
        i := i + 1;
        r := Err;
      } else if c < 0x80 {
        assert s[1..] == b[i + 1..];
        i := i + 1;
        r := Ok(c as char);
      } else {
        var n := Utf8.LeadLength(c);
        if i + n > |b| {
          i := i + 1;
          return Err;
        }
        assert b[i..i + n] == s[..n] && s[n..] == b[i + n..];
        var ch := Utf8.DecodeChunk(b[i..i + n]);
        if ch.None? {
          i := i + 1;
          return Err;
        }
        i := i + n;
        r := Ok(ch.value);
      }
    }

    /** Pass over the bytes of a number; `float` reports a byte that an integer
        cannot contain. */
    method ScanNumber() returns (float: bool)
      requires Valid()
      modifies this`i
      ensures Valid() && old(i) <= i
      ensures NumberSpan(old(b[i..])) == i - old(i)
      ensures !float <==> AllDigits(b[old(i)..i])
    {
      hide NumberSpan, AllDigits;
      float := false;
      SpanStep(b[i..]);
      assert b[old(i)..i] == [];
      while i < |b| && IsNumberByte(b[i])
        invariant old(i) <= i <= |b|
        invariant NumberSpan(old(b[i..])) == (i - old(i)) + NumberSpan(b[i..])
        invariant !float <==> AllDigits(b[old(i)..i])
      {
        assert b[i..][0] == b[i] && b[i..][1..] == b[i + 1..];
        assert b[old(i)..i + 1] == b[old(i)..i] + [b[i]];
        OneMoreDigit(b[old(i)..i], b[i]);
        SpanStep(b[i..]);
        float := float || !IsDigit(b[i]);
        i := i + 1;
      }
      SpanStep(b[i..]);
    }

    method Number() returns (r: Result<Json>)
      requires Valid()
      modifies this`i
      ensures Follows(ParseNumber(old(b[i..])), r, b, i)
    {
      hide IsFloatText, ParseI64, NumberSpan, AllDigits;
      var start := i;
      ghost var s := b[i..];
      assert i < |b| ==> s[0] == b[i] && s[1..] == b[i + 1..];
      SpanStep(s);
      if i < |b| && IsSign(b[i]) {
        i := i + 1;
      }
      var digits := i;
      var float := ScanNumber();
      assert NumberSpan(s) == i - start;
      if start == i {
        return Err;
      }
      var text := b[start..i];
      assert text == s[..i - start] && b[i..] == s[i - start..];
      assert Unsigned(text) == b[digits..i];
      var n := if float then None else ParseI64(text);
      if n.Some? {
        r := Ok(Int(n.value));
      } else if IsFloatText(text) {
        r := Ok(Float(text));
      } else {
        r := Err;
      }
    }
  }

  /** `json::parse`. */
  method ParseText(input: seq<byte>) returns (r: Result<Json>)
    ensures r == Parse(input)
  {
    hide ParseValue;
    var p := new Parser(input);
    assert p.b[p.i..] == input;
    p.Ws();
    var v := p.Value();
    if v.Err? {
      return Err;
    }
    p.Ws();
    r := if p.i == |p.b| then v else Err;
  }

  lemma ArrayText(items: seq<Json>, indent: Option<nat>, depth: nat)
    ensures items == [] ==> Print(Arr(items), indent, depth) == [LBRACKET, RBRACKET]
    ensures items != [] ==> Print(Arr(items), indent, depth) == [LBRACKET] + PrintItems(items, indent, depth)
    ensures AfterItem([], indent, depth) == Break(indent, depth) + [RBRACKET]
  {
  }

  lemma ObjectText(members: seq<Member>, indent: Option<nat>, depth: nat)
    ensures members == [] ==> Print(Obj(members), indent, depth) == [LBRACE, RBRACE]
    ensures members != [] ==> Print(Obj(members), indent, depth) == [LBRACE] + PrintMembers(members, indent, depth)
    ensures AfterMember([], indent, depth) == Break(indent, depth) + [RBRACE]
  {
  }

  lemma ItemsUnfold(items: seq<Json>, k: nat, indent: Option<nat>, depth: nat)
    requires k < |items|
    ensures k > 0 ==> AfterItem(items[k..], indent, depth) == [COMMA] + PrintItems(items[k..], indent, depth)
    ensures k == 0 ==> items[k..] == items
    ensures PrintItems(items[k..], indent, depth)
         == Break(indent, depth + 1)
            + (Print(items[k], indent, depth + 1) + AfterItem(items[k + 1..], indent, depth))
  {
    assert items[k..][0] == items[k] && items[k..][1..] == items[k + 1..];
  }

  lemma MembersUnfold(members: seq<Member>, k: nat, indent: Option<nat>, depth: nat)
    requires k < |members|
    ensures k > 0 ==> AfterMember(members[k..], indent, depth) == [COMMA] + PrintMembers(members[k..], indent, depth)
    ensures k == 0 ==> members[k..] == members
    ensures PrintMembers(members[k..], indent, depth)
         == Break(indent, depth + 1)
            + (PrintString(members[k].key)
               + ([COLON] + Gap(indent)
                  + (Print(members[k].value, indent, depth + 1) + AfterMember(members[k + 1..], indent, depth))))
  {
    assert members[k..][0] == members[k] && members[k..][1..] == members[k + 1..];
  }

  /** The `String` that `write` appends to. */
  class Writer {
    var out: seq<byte>

    constructor ()
      ensures out == []
    {
      out := [];
    }

    method EscapeInto(s: string)
      modifies this
      ensures out == old(out) + PrintString(s)
    {
      hide EscapeChar;
      Regroup(out, [QUOTE], EscapeBody(s));
      out := out + [QUOTE];
      assert s[0..] == s;
      for k := 0 to |s|
        invariant out + EscapeBody(s[k..]) == old(out) + PrintString(s)
      {
        assert s[k..][1..] == s[k + 1..];
        Regroup(out, EscapeChar(s[k]), EscapeBody(s[k + 1..]));
        out := out + EscapeChar(s[k]);
      }
      assert s[|s|..] == [];
      out := out + [QUOTE];
    }

    method NewLine(indent: Option<nat>, depth: nat)
      modifies this
      ensures out == old(out) + Break(indent, depth)
    {
      if indent.Some? {
        out := out + [NEWLINE];
        for k := 0 to indent.value * depth
          invariant out == old(out) + [NEWLINE] + Spaces(k)
        {
          assert Spaces(k) + [SPACE] == Spaces(k + 1);
          out := out + [SPACE];
        }
      }
    }

    method Write(j: Json, indent: Option<nat>, depth: nat)
      modifies this
      ensures out == old(out) + Print(j, indent, depth)
      decreases j, 1
    {
      match j
      case Null => out := out + NULL_TEXT;
      case Bool(b) => out := out + if b then TRUE_TEXT else FALSE_TEXT;
      case Int(i) => out := out + PrintInt(i);
      case Float(text) => out := out + text;
      case Str(s) => EscapeInto(s);
      case Arr(items) => WriteArray(items, indent, depth);
      case Obj(members) => WriteObject(members, indent, depth);
    }

    /** An array element, before the text `after`. */
    method WriteItem(item: Json, indent: Option<nat>, depth: nat, ghost after: seq<byte>)
      modifies this
      ensures out + after == old(out) + (Break(indent, depth + 1) + (Print(item, indent, depth + 1) + after))
      decreases item, 2
    {
      hide Print;
      Shift(out, Break(indent, depth + 1), Print(item, indent, depth + 1), after);
      NewLine(indent, depth + 1);
      Write(item, indent, depth + 1);
    }

    method WriteArray(items: seq<Json>, indent: Option<nat>, depth: nat)
      modifies this
      ensures out == old(out) + Print(Arr(items), indent, depth)
      decreases items, 0
    {
      hide Print, PrintItems, AfterItem;
      ArrayText(items, indent, depth);
      if |items| == 0 {
        out := out + [LBRACKET, RBRACKET];
        return;
      }
      out := out + [LBRACKET];
      ghost var start := out;
      for k := 0 to |items|
        invariant k == 0 ==> out == start
        invariant k > 0 ==> out + AfterItem(items[k..], indent, depth) == start + PrintItems(items, indent, depth)
      {
        ItemsUnfold(items, k, indent, depth);
        ghost var before := out;
        if k > 0 {
          out := out + [COMMA];
          Regroup(before, [COMMA], PrintItems(items[k..], indent, depth));
        }
        WriteItem(items[k], indent, depth, AfterItem(items[k + 1..], indent, depth));
      }
      assert items[|items|..] == [];
      ghost var done := out;
      NewLine(indent, depth);
      out := out + [RBRACKET];
      Regroup(done, Break(indent, depth), [RBRACKET]);
      Regroup(old(out), [LBRACKET], PrintItems(items, indent, depth));
    }

    /** A key, its colon and its value, before the text `after`. */
    method WriteMember(m: Member, indent: Option<nat>, depth: nat, ghost after: seq<byte>)
      modifies this
      ensures out + after
           == old(out) + (Break(indent, depth + 1)
                          + (PrintString(m.key)
                             + ([COLON] + Gap(indent) + (Print(m.value, indent, depth + 1) + after))))
      decreases m, 2
    {
      hide Print, PrintString;
      ghost var value := Print(m.value, indent, depth + 1);
      Shift(out, Break(indent, depth + 1), PrintString(m.key), [COLON] + Gap(indent) + (value + after));
      NewLine(indent, depth + 1);
      EscapeInto(m.key);
      Shift(out, [COLON] + Gap(indent), value, after);
      ghost var before := out;
      out := out + [COLON];
      if indent.Some? {
        out := out + [SPACE];
      }
      assert out == before + ([COLON] + Gap(indent));
      Write(m.value, indent, depth + 1);
    }

    method WriteObject(members: seq<Member>, indent: Option<nat>, depth: nat)
      modifies this
      ensures out == old(out) + Print(Obj(members), indent, depth)
      decreases members, 0
    {
      hide Print, PrintMembers, AfterMember;
      ObjectText(members, indent, depth);
      if |members| == 0 {
        out := out + [LBRACE, RBRACE];
        return;
      }
      out := out + [LBRACE];
      ghost var start := out;
      for k := 0 to |members|
        invariant k == 0 ==> out == start
        invariant k > 0 ==>
          out + AfterMember(members[k..], indent, depth) == start + PrintMembers(members, indent, depth)
      {
        MembersUnfold(members, k, indent, depth);
        ghost var before := out;
        if k > 0 {
          out := out + [COMMA];
          Regroup(before, [COMMA], PrintMembers(members[k..], indent, depth));
        }
        WriteMember(members[k], indent, depth, AfterMember(members[k + 1..], indent, depth));
      }
      assert members[|members|..] == [];
      ghost var done := out;
      NewLine(indent, depth);
      out := out + [RBRACE];
      Regroup(done, Break(indent, depth), [RBRACE]);
      Regroup(old(out), [LBRACE], PrintMembers(members, indent, depth));
    }
  }

  /** Printing a tree and parsing the text, through the two implementations:
      nothing is lost, in either mode. */
  method PrintThenParse(j: Json, indent: Option<nat>) returns (r: Result<Json>)
    requires Exact(j)
    ensures r == Ok(j)
  {
    hide Print, Parse;
    var w := new Writer();
    w.Write(j, indent, 0);
    assert w.out == Print(j, indent, 0);
    JsonRoundTrip.PrintedTreeParses(j, indent);
    r := ParseText(w.out);
  }
}
