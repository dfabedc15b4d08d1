/** Published ports as packet filter rules, and finding them again
(`src/runtime/nat.rs`).

A table is a sequence of rules, a rule the arguments that follow `-A`.  Running
`iptables` is replaced by operations on such tables; its listing is taken to be
faithful, quoting whichever arguments it likes.
*/
module Nat {
  import opened Wrappers
  import opened Text

  type Rule = seq<string>

  datatype Tables = Tables(natRules: seq<Rule>, filterRules: seq<Rule>)

  /** Which arguments the listing puts in double quotes. */
  type Quoting = string -> bool

  function Tag(id: string): string { "myrun:" + id }

  // -------------------------------------------------------------------------
  // The listing and `split_rule`
  // -------------------------------------------------------------------------

  /** An argument that the listing and the splitter agree on. */
  predicate Word(s: string) {
    s != [] && forall i :: 0 <= i < |s| ==> !IsSpace(s[i]) && s[i] != '"'
  }

  predicate Words(r: Rule) {
    forall i :: 0 <= i < |r| ==> Word(r[i])
  }

  function Printed(arg: string, q: Quoting): string {
    if q(arg) then ['"'] + (arg + ['"']) else arg
  }

  function Line(r: Rule, q: Quoting): string {
    if r == [] then []
    else if |r| == 1 then Printed(r[0], q)
    else Printed(r[0], q) + ([' '] + Line(r[1..], q))
  }

  function Flush(cur: string): seq<string> { if cur == [] then [] else [cur] }

  /** The words of a line, having read `cur` of the one under way. */
  function SplitFrom(cur: string, quoted: bool, line: string): seq<string>
    decreases line
  {
    if line == [] then Flush(cur)
    else if line[0] == '"' then SplitFrom(cur, !quoted, line[1..])
    else if IsSpace(line[0]) && !quoted then Flush(cur) + SplitFrom([], false, line[1..])
    else SplitFrom(cur + [line[0]], quoted, line[1..])
  }

  lemma {:induction false} SplitPlain(cur: string, quoted: bool, w: string, rest: string)
    requires forall i :: 0 <= i < |w| ==> !IsSpace(w[i]) && w[i] != '"'
    ensures SplitFrom(cur, quoted, w + rest) == SplitFrom(cur + w, quoted, rest)
    decreases w
  {
    if w == [] {
      assert w + rest == rest && cur + w == cur;
    } else {
      assert (w + rest)[1..] == w[1..] + rest;
      SplitPlain(cur + [w[0]], quoted, w[1..], rest);
      assert cur + [w[0]] + w[1..] == cur + w;
    }
  }

  /** One printed word is read as that word. */
  lemma SplitPrinted(arg: string, q: Quoting, rest: string)
    requires Word(arg)
    ensures SplitFrom([], false, Printed(arg, q) + rest) == SplitFrom(arg, false, rest)
  {
    assert [] + arg == arg;
    if q(arg) {
      var tail := ['"'] + rest;
      assert Printed(arg, q) + rest == ['"'] + (arg + tail);
      assert (['"'] + (arg + tail))[1..] == arg + tail;
      SplitPlain([], true, arg, tail);
      assert tail[1..] == rest;
    } else {
      SplitPlain([], false, arg, rest);
    }
  }

  /** The splitter recovers the arguments from the listing, however it is quoted. */
  lemma {:induction false} SplitRoundTrip(r: Rule, q: Quoting)
    requires Words(r)
    ensures SplitFrom([], false, Line(r, q)) == r
  {
    if |r| == 1 {
      SplitPrinted(r[0], q, []);
      assert Printed(r[0], q) + [] == Printed(r[0], q);
    } else if |r| > 1 {
      var tail := [' '] + Line(r[1..], q);
      SplitPrinted(r[0], q, tail);
      assert tail[1..] == Line(r[1..], q);
      SplitRoundTrip(r[1..], q);
      assert [r[0]] + r[1..] == r;
    }
  }

  method SplitRule(line: string) returns (words: seq<string>)
    ensures words == SplitFrom([], false, line)
  {
    words := [];
    var cur, quoted := [], false;
    assert line[0..] == line;
    for i := 0 to |line|
      invariant words + SplitFrom(cur, quoted, line[i..]) == SplitFrom([], false, line)
    {
      assert line[i..][1..] == line[i + 1..];
      if line[i] == '"' {
        quoted := !quoted;
      } else if IsSpace(line[i]) && !quoted {
        ghost var rest := SplitFrom([], false, line[i + 1..]);
        assert words + (Flush(cur) + rest) == words + Flush(cur) + rest;
        if cur != [] {
          words := words + [cur];
        } else {
          assert words + Flush(cur) == words;
        }
        cur := [];
      } else {
        cur := cur + [line[i]];
      }
    }
    if cur != [] {
      words := words + [cur];
    }
  }

  // -------------------------------------------------------------------------
  // Looking for a tag
  // -------------------------------------------------------------------------

  predicate Contains(s: string, t: string) {
    t <= s || (s != [] && Contains(s[1..], t))
  }

  const COMMENT_FLAG := "--comment"

  /** The two texts a listed rule is searched for. */
  predicate Mentions(line: string, id: string) {
    Contains(line, COMMENT_FLAG + ([' '] + Tag(id)))
      || Contains(line, COMMENT_FLAG + ([' '] + (['"'] + (Tag(id) + ['"']))))
  }

  predicate EndsWith(s: string, t: string) {
    |t| <= |s| && s[|s| - |t|..] == t
  }

  predicate SpaceFree(s: string) { forall i :: 0 <= i < |s| ==> s[i] != ' ' }

  lemma PrefixInFirst(a: string, b: string, y: string)
    requires SpaceFree(y) && y != []
    ensures y <= a + ([' '] + b) <==> y <= a
  {
    var s := a + ([' '] + b);
    assert s[|a|] == ' ' && (|y| > |a| ==> y[|a|] != s[|a|]);
    if |y| <= |a| {
      assert s[..|y|] == a[..|y|];
    }
  }

  /** A search text with one space matches across the first gap or later on. */
  lemma {:induction false} MatchAcross(a: string, b: string, x: string, y: string)
    requires SpaceFree(a) && SpaceFree(x) && SpaceFree(y) && x != []
    ensures Contains(a + ([' '] + b), x + ([' '] + y)) <==> (EndsWith(a, x) && y <= b) || Contains(b, x + ([' '] + y))
  {
    var s, t := a + ([' '] + b), x + ([' '] + y);
    if a == [] {
      assert s == [' '] + b && s[1..] == b;
      assert t[0] == x[0] != s[0];
    } else {
      assert s[1..] == a[1..] + ([' '] + b);
      MatchAcross(a[1..], b, x, y);
      MatchHere(a, b, x, y);
      assert EndsWith(a, x) <==> a == x || EndsWith(a[1..], x) by {
        if |x| <= |a[1..]| { assert a[1..][|a[1..]| - |x|..] == a[|a| - |x|..]; }
      }
    }
  }

  lemma MatchHere(a: string, b: string, x: string, y: string)
    requires SpaceFree(a) && SpaceFree(x)
    ensures x + ([' '] + y) <= a + ([' '] + b) <==> a == x && y <= b
  {
    var s, t := a + ([' '] + b), x + ([' '] + y);
    assert t[|x|] == ' ' && (|x| < |a| ==> s[|x|] == a[|x|] != ' ');
    assert s[|a|] == ' ' && (|a| < |x| ==> t[|a|] == x[|a|] != ' ');
    if t <= s {
      assert a == s[..|x|] == t[..|x|] == x;
      assert t[|x| + 1..] == y && s[|x| + 1..] == b;
    }
    if a == x && y <= b {
      assert s[..|t|] == t;
    }
  }

  lemma {:induction false} NoMatchWithoutSpace(a: string, x: string, y: string)
    requires SpaceFree(a)
    ensures !Contains(a, x + ([' '] + y))
  {
    var t := x + ([' '] + y);
    assert t[|x|] == ' ' && (|x| < |a| ==> a[|x|] != ' ');
    if a != [] {
      NoMatchWithoutSpace(a[1..], x, y);
    }
  }

  predicate PairAt(r: Rule, k: nat, q: Quoting, x: string, y: string) {
    k + 1 < |r| && EndsWith(Printed(r[k], q), x) && y <= Printed(r[k + 1], q)
  }

  lemma PairsShift(r: Rule, q: Quoting, x: string, y: string)
    requires r != []
    ensures (exists k: nat :: PairAt(r, k, q, x, y)) <==>
            PairAt(r, 0, q, x, y) || exists k: nat :: PairAt(r[1..], k, q, x, y)
  {
    if exists k: nat :: PairAt(r, k, q, x, y) {
      var k: nat :| PairAt(r, k, q, x, y);
      assert k > 0 ==> PairAt(r[1..], k - 1, q, x, y);
    }
    if exists k: nat :: PairAt(r[1..], k, q, x, y) {
      var k: nat :| PairAt(r[1..], k, q, x, y);
      assert PairAt(r, k + 1, q, x, y);
    }
  }

  lemma LineStarts(r: Rule, q: Quoting, y: string)
    requires r != [] && SpaceFree(y) && y != []
    ensures y <= Line(r, q) <==> y <= Printed(r[0], q)
  {
    if |r| > 1 {
      PrefixInFirst(Printed(r[0], q), Line(r[1..], q), y);
    }
  }

  /** With one space, the search text matches where one word ends and the next
      begins as wanted, and nowhere else. */
  lemma {:induction false} ContainsPair(r: Rule, q: Quoting, x: string, y: string)
    requires Words(r) && SpaceFree(x) && SpaceFree(y) && x != [] && y != []
    ensures Contains(Line(r, q), x + ([' '] + y)) <==> exists k: nat :: PairAt(r, k, q, x, y)
  {
    hide Contains, Printed;
    if r == [] {
      NoMatchWithoutSpace([], x, y);
    } else {
      PrintedIsSpaceFree(r[0], q);
      PairsShift(r, q, x, y);
      ContainsPair(r[1..], q, x, y);
      if |r| == 1 {
        NoMatchWithoutSpace(Printed(r[0], q), x, y);
      } else {
        MatchAcross(Printed(r[0], q), Line(r[1..], q), x, y);
        LineStarts(r[1..], q, y);
      }
    }
  }

  lemma PrintedIsSpaceFree(arg: string, q: Quoting)
    requires Word(arg)
    ensures SpaceFree(Printed(arg, q))
  {
    forall i | 0 <= i < |arg| ensures arg[i] != ' ' {
      assert !IsSpace(arg[i]);
    }
  }

  /** What the two searches find: a comment option and, listed in quotes, exactly
      the tag, or listed bare, anything that begins with it. */
  predicate TaggedAt(r: Rule, k: nat, q: Quoting, id: string) {
    && k + 1 < |r| && !q(r[k]) && EndsWith(r[k], COMMENT_FLAG)
    && if q(r[k + 1]) then r[k + 1] == Tag(id) else Tag(id) <= r[k + 1]
  }

  lemma PairIsTag(r: Rule, k: nat, q: Quoting, id: string)
    requires Words(r) && Word(id) && k + 1 < |r|
    ensures
      (PairAt(r, k, q, COMMENT_FLAG, Tag(id)) || PairAt(r, k, q, COMMENT_FLAG, ['"'] + (Tag(id) + ['"'])))
        <==> TaggedAt(r, k, q, id)
  {
    var p := Printed(r[k], q);
    assert Word(r[k]) && Word(r[k + 1]);
    assert q(r[k]) ==> p[|p| - 1] == '"' && COMMENT_FLAG[|COMMENT_FLAG| - 1] == 't';
    assert EndsWith(p, COMMENT_FLAG) ==> p[|p| - 1] == 't' by {
      if EndsWith(p, COMMENT_FLAG) {
        assert p[|p| - |COMMENT_FLAG|..][|COMMENT_FLAG| - 1] == COMMENT_FLAG[|COMMENT_FLAG| - 1];
      }
    }
    TagOrQuoted(r[k + 1], q, id);
  }

  lemma TagOrQuoted(arg: string, q: Quoting, id: string)
    requires Word(arg) && Word(id)
    ensures
      (Tag(id) <= Printed(arg, q) || ['"'] + (Tag(id) + ['"']) <= Printed(arg, q))
      <==> if q(arg) then arg == Tag(id) else Tag(id) <= arg
  {
    var t, p := Tag(id), Printed(arg, q);
    var tq := ['"'] + (t + ['"']);
    assert t[0] == 'm' && tq[0] == '"';
    if q(arg) {
      assert p[0] == '"';
      QuotedEqual(arg, t);
    } else {
      assert arg[0] != '"';
    }
  }

  lemma QuotedEqual(arg: string, t: string)
    requires Word(arg) && forall i :: 0 <= i < |t| ==> t[i] != '"'
    ensures ['"'] + (t + ['"']) <= ['"'] + (arg + ['"']) <==> arg == t
  {
    var tq, p := ['"'] + (t + ['"']), ['"'] + (arg + ['"']);
    assert tq[|t| + 1] == '"' && (|t| < |arg| ==> p[|t| + 1] == arg[|t|] != '"');
    if tq <= p {
      assert |t| == |arg|;
      assert tq[1..|t| + 1] == t && p[1..|t| + 1] == arg;
    }
  }

  lemma TagIsWord(id: string)
    requires Word(id)
    ensures SpaceFree(Tag(id)) && forall i :: 0 <= i < |Tag(id)| ==> Tag(id)[i] != '"'
  {
    var base := "myrun:";
    assert SpaceFree(base);
    forall i | 0 <= i < |Tag(id)| ensures Tag(id)[i] != ' ' && Tag(id)[i] != '"' {
      if i >= |base| {
        assert Tag(id)[i] == id[i - |base|];
        assert !IsSpace(id[i - |base|]);
      }
    }
  }

  /** Searching the listed text finds exactly the rules whose arguments carry the tag. */
  lemma MentionsExactly(r: Rule, q: Quoting, id: string)
    requires Words(r) && Word(id)
    ensures Mentions(Line(r, q), id) <==> exists k: nat :: TaggedAt(r, k, q, id)
  {
    hide Contains, Line, Printed, Tag;
    var t := Tag(id);
    var tq := ['"'] + (t + ['"']);
    TagIsWord(id);
    assert t != [] by { TagIsNotEmpty(id); }
    assert SpaceFree(tq) && SpaceFree(COMMENT_FLAG);
    ContainsPair(r, q, COMMENT_FLAG, t);
    ContainsPair(r, q, COMMENT_FLAG, tq);
    forall k: nat | k + 1 < |r|
      ensures (PairAt(r, k, q, COMMENT_FLAG, t) || PairAt(r, k, q, COMMENT_FLAG, tq)) <==> TaggedAt(r, k, q, id)
    {
      PairIsTag(r, k, q, id);
    }
    if exists k: nat :: PairAt(r, k, q, COMMENT_FLAG, t) {
      var k: nat :| PairAt(r, k, q, COMMENT_FLAG, t);
      assert TaggedAt(r, k, q, id);
    }
    if exists k: nat :: PairAt(r, k, q, COMMENT_FLAG, tq) {
      var k: nat :| PairAt(r, k, q, COMMENT_FLAG, tq);
      assert TaggedAt(r, k, q, id);
    }
  }

  lemma TagIsNotEmpty(id: string)
    ensures Tag(id) != []
  {
  }
}
