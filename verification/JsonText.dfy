/** Printed JSON is valid UTF-8, whatever strings it holds: a file written by one
process can be read as text by the next. */
module JsonText {
  import opened Bytes
  import opened Wrappers
  import opened Json
  import opened Utf8
  import JsonRoundTrip

  lemma DigitsAreText(n: nat)
    ensures IsText(Digits(n))
  {
    JsonRoundTrip.DigitsRoundTrip(n);
    var d := Digits(n);
    forall i | 0 <= i < |d| ensures d[i] < 0x80 { assert IsDigit(d[i]); }
    AsciiIsText(d);
  }

  lemma FloatIsText(text: seq<byte>)
    requires IsDecimalText(text)
    ensures IsText(text)
  {
    JsonRoundTrip.DecimalBytes(text);
    var body := Unsigned(text);
    forall i | 0 <= i < |text| ensures text[i] < 0x80 {
      if text[0] != MINUS || i > 0 {
        assert text[i] == body[if text[0] == MINUS then i - 1 else i];
      }
    }
    AsciiIsText(text);
  }

  lemma EscapeIsText(c: char)
    ensures IsText(EscapeChar(c))
  {
    CharIsText(c);
    if EscapeChar(c) != EncodeChar(c) {
      AsciiIsText(EscapeChar(c));
    }
  }

  lemma {:induction false} StringIsText(s: string)
    ensures IsText(EscapeBody(s)) && IsText(PrintString(s))
  {
    hide EscapeChar, IsText;
    AsciiIsText([QUOTE]);
    if s != [] {
      StringIsText(s[1..]);
      EscapeIsText(s[0]);
      TextConcat(EscapeChar(s[0]), EscapeBody(s[1..]));
    }
    TextConcat([QUOTE], EscapeBody(s));
  }

  lemma BreakIsText(indent: Option<nat>, depth: nat)
    ensures IsText(Break(indent, depth))
  {
    AsciiIsText(Break(indent, depth));
  }

  lemma LiteralsAreText()
    ensures IsText(NULL_TEXT) && IsText(TRUE_TEXT) && IsText(FALSE_TEXT)
  {
    AsciiIsText(NULL_TEXT);
    AsciiIsText(TRUE_TEXT);
    AsciiIsText(FALSE_TEXT);
  }

  lemma SignsAreText()
    ensures IsText([LBRACKET]) && IsText([RBRACKET]) && IsText([LBRACE]) && IsText([RBRACE])
    ensures IsText([COMMA]) && IsText([COLON]) && IsText([MINUS])
  {
    AsciiIsText([LBRACKET]);
    AsciiIsText([RBRACKET]);
    AsciiIsText([LBRACE]);
    AsciiIsText([RBRACE]);
    AsciiIsText([COMMA]);
    AsciiIsText([COLON]);
    AsciiIsText([MINUS]);
  }

  /** The print of an exact tree, in either mode, at any depth. */
  lemma {:induction false} PrintIsText(j: Json, indent: Option<nat>, depth: nat)
    requires Exact(j)
    ensures IsText(Print(j, indent, depth))
    decreases j, 1
  {
    hide IsText;
    LiteralsAreText();
    SignsAreText();
    match j
    case Null =>
    case Bool(_) =>
    case Int(i) =>
      DigitsAreText(if i < 0 then -i else i);
      if i < 0 { TextConcat([MINUS], Digits(-i)); }
    case Float(text) => FloatIsText(text);
    case Str(s) => StringIsText(s);
    case Arr(items) =>
      if items == [] {
        TextConcat([LBRACKET], [RBRACKET]);
      } else {
        ItemsAreText(items, indent, depth);
        TextConcat([LBRACKET], PrintItems(items, indent, depth));
      }
    case Obj(members) =>
      if members == [] {
        TextConcat([LBRACE], [RBRACE]);
      } else {
        MembersAreText(members, indent, depth);
        TextConcat([LBRACE], PrintMembers(members, indent, depth));
      }
  }

  lemma {:induction false} ItemsAreText(items: seq<Json>, indent: Option<nat>, depth: nat)
    requires items != [] && forall k :: 0 <= k < |items| ==> Exact(items[k])
    ensures IsText(PrintItems(items, indent, depth))
    decreases items, 0
  {
    hide IsText, Exact, Print, Break;
    SignsAreText();
    BreakIsText(indent, depth + 1);
    BreakIsText(indent, depth);
    PrintIsText(items[0], indent, depth + 1);
    var value, after := Print(items[0], indent, depth + 1), AfterItem(items[1..], indent, depth);
    if |items| == 1 {
      TextConcat(Break(indent, depth), [RBRACKET]);
    } else {
      ItemsAreText(items[1..], indent, depth);
      TextConcat([COMMA], PrintItems(items[1..], indent, depth));
    }
    TextConcat(value, after);
    TextConcat(Break(indent, depth + 1), value + after);
  }

  lemma {:induction false} MembersAreText(members: seq<Member>, indent: Option<nat>, depth: nat)
    requires members != [] && forall k :: 0 <= k < |members| ==> Exact(members[k].value)
    ensures IsText(PrintMembers(members, indent, depth))
    decreases members, 0
  {
    hide IsText, Exact, Print, PrintString, Break, Gap;
    SignsAreText();
    GapIsText(indent);
    BreakIsText(indent, depth + 1);
    BreakIsText(indent, depth);
    StringIsText(members[0].key);
    PrintIsText(members[0].value, indent, depth + 1);
    var key, value := PrintString(members[0].key), Print(members[0].value, indent, depth + 1);
    var after := AfterMember(members[1..], indent, depth);
    if |members| == 1 {
      TextConcat(Break(indent, depth), [RBRACE]);
    } else {
      MembersAreText(members[1..], indent, depth);
      TextConcat([COMMA], PrintMembers(members[1..], indent, depth));
    }
    var colon := [COLON] + Gap(indent);
    TextConcat([COLON], Gap(indent));
    TextConcat(value, after);
    TextConcat(colon, value + after);
    TextConcat(key, colon + (value + after));
    TextConcat(Break(indent, depth + 1), key + (colon + (value + after)));
  }

  lemma GapIsText(indent: Option<nat>)
    ensures IsText(Gap(indent))
  {
    AsciiIsText(Gap(indent));
  }
}
