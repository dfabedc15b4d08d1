/** Values of the configuration file: the scanner that splits arrays and the
recursive value parser (`src/util/toml.rs`).

The source works on bytes; every byte it looks for is ASCII, so on valid UTF-8 it
does the same as this model does on characters.
*/
module Toml {

  // -------------------------------------------------------------------------
  // The quote and bracket scanner
  // -------------------------------------------------------------------------

  /** What the scanner knows at a character: bracket depth, inside which kind of
      quotes, and whether a backslash comes just before. */
  datatype Scan = Scan(depth: int, basic: bool, literal: bool, escaped: bool)

  /** Not inside quotes, at bracket depth `d`. */
  function Plain(d: int): Scan { Scan(d, false, false, false) }

  function Step(st: Scan, c: char): Scan {
    if st.escaped then st.(escaped := false)
    else if c == '\\' && st.basic then st.(escaped := true)
    else if c == '"' && !st.literal then st.(basic := !st.basic)
    else if c == '\'' && !st.basic then st.(literal := !st.literal)
    else if c == '[' && !st.basic && !st.literal then st.(depth := st.depth + 1)
    else if c == ']' && !st.basic && !st.literal then st.(depth := st.depth - 1)
    else st
  }

  /** A comma that separates elements of the outermost array. */
  predicate Cuts(st: Scan, c: char) {
    c == ',' && st == Plain(0)
  }

  function Run(st: Scan, s: string): Scan
    decreases s
  {
    if s == [] then st else Run(Step(st, s[0]), s[1..])
  }

  predicate CutFree(st: Scan, s: string)
    decreases s
  {
    s == [] || (!Cuts(st, s[0]) && CutFree(Step(st, s[0]), s[1..]))
  }

  /** `pre` in front of the first part. */
  function Prefixed(pre: string, parts: seq<string>): seq<string>
    requires parts != []
  {
    [pre + parts[0]] + parts[1..]
  }

  /** The parts of `s` between separating commas, scanning on from `st`. */
  function SplitFrom(st: Scan, s: string): (parts: seq<string>)
    ensures parts != []
    decreases s
  {
    if s == [] then [[]]
    else
      var rest := SplitFrom(Step(st, s[0]), s[1..]);
      if Cuts(st, s[0]) then [[]] + rest else Prefixed([s[0]], rest)
  }

  function JoinCommas(parts: seq<string>): string {
    if parts == [] then []
    else if |parts| == 1 then parts[0]
    else parts[0] + ([','] + JoinCommas(parts[1..]))
  }

  /** Brackets and quotes balance, and no comma is outside them. */
  predicate Closed(chunk: string) {
    Run(Plain(0), chunk) == Plain(0) && CutFree(Plain(0), chunk)
  }

  /** A way to cut a text: every part but the last is closed, the last has no
      separating comma. */
  predicate Cut(parts: seq<string>) {
    && parts != []
    && (forall i :: 0 <= i < |parts| - 1 ==> Closed(parts[i]))
    && CutFree(Plain(0), parts[|parts| - 1])
  }

  lemma {:induction false} RunConcat(st: Scan, a: string, b: string)
    ensures Run(st, a + b) == Run(Run(st, a), b)
    ensures CutFree(st, a + b) <==> CutFree(st, a) && CutFree(Run(st, a), b)
    decreases a
  {
    if a == [] {
      assert a + b == b;
    } else {
      RunConcat(Step(st, a[0]), a[1..], b);
      assert (a + b)[1..] == a[1..] + b;
    }
  }

  /** Joining the parts gives the text back, whatever the text. */
  lemma {:induction false} JoinAfterSplit(st: Scan, s: string)
    ensures JoinCommas(SplitFrom(st, s)) == s
    decreases s
  {
    if s != [] {
      var rest := SplitFrom(Step(st, s[0]), s[1..]);
      JoinAfterSplit(Step(st, s[0]), s[1..]);
      if Cuts(st, s[0]) {
        assert ([[]] + rest)[1..] == rest;
      } else {
        JoinPrefixed([s[0]], rest);
      }
    }
  }

  lemma NothingPrefixed(parts: seq<string>)
    requires parts != []
    ensures Prefixed([], parts) == parts
  {
    assert [] + parts[0] == parts[0];
  }

  lemma JoinPrefixed(pre: string, parts: seq<string>)
    requires parts != []
    ensures JoinCommas(Prefixed(pre, parts)) == pre + JoinCommas(parts)
  {
    var p := Prefixed(pre, parts);
    if |parts| > 1 {
      assert p[1..] == parts[1..];
      assert pre + parts[0] + ([','] + JoinCommas(parts[1..])) == pre + (parts[0] + ([','] + JoinCommas(parts[1..])));
    }
  }

  /** A cut-free text is one part, and what precedes a comma outside brackets and
      quotes is one part. */
  lemma {:induction false} SplitChunk(st: Scan, a: string, b: string)
    requires CutFree(st, a)
    ensures SplitFrom(st, a) == [a]
    ensures Run(st, a) == Plain(0) ==> SplitFrom(st, a + ([','] + b)) == [a] + SplitFrom(Plain(0), b)
    decreases a
  {
    if a == [] {
      assert a + ([','] + b) == [','] + b;
      assert ([','] + b)[1..] == b;
    } else {
      SplitChunk(Step(st, a[0]), a[1..], b);
      assert (a + ([','] + b))[1..] == a[1..] + ([','] + b);
      assert [a[0]] + a[1..] == a;
    }
  }

  lemma {:induction false} SplitAfterJoin(parts: seq<string>)
    requires Cut(parts)
    ensures SplitFrom(Plain(0), JoinCommas(parts)) == parts
  {
    SplitChunk(Plain(0), parts[0], JoinCommas(parts[1..]));
    if |parts| > 1 {
      assert Closed(parts[0]);
      CutRest(parts);
      SplitAfterJoin(parts[1..]);
      assert [parts[0]] + parts[1..] == parts;
    }
  }

  lemma CutRest(parts: seq<string>)
    requires Cut(parts) && |parts| > 1
    ensures Cut(parts[1..])
  {
    forall i | 0 <= i < |parts| - 2 ensures Closed(parts[1..][i]) {
      assert Closed(parts[i + 1]);
    }
  }

  /** The parts found by scanning on from `st`, after `pre` had brought the scanner there. */
  lemma {:induction false} SplitCuts(pre: string, s: string)
    requires CutFree(Plain(0), pre)
    ensures Cut(Prefixed(pre, SplitFrom(Run(Plain(0), pre), s)))
    decreases s
  {
    hide Cut;
    var st := Run(Plain(0), pre);
    var parts := SplitFrom(st, s);
    if s == [] {
      CutOne(pre);
      assert Prefixed(pre, parts) == [pre] by { assert pre + [] == pre; }
    } else if Cuts(st, s[0]) {
      var rest := SplitFrom(Plain(0), s[1..]);
      SplitCuts([], s[1..]);
      NothingPrefixed(rest);
      CutMore(pre, rest);
      assert parts[1..] == rest && pre + parts[0] == pre;
    } else {
      RunConcat(Plain(0), pre, [s[0]]);
      OneChar(st, s[0]);
      SplitCuts(pre + [s[0]], s[1..]);
      PrefixedOne(pre, s[0], SplitFrom(Step(st, s[0]), s[1..]));
    }
  }

  lemma CutOne(chunk: string)
    requires CutFree(Plain(0), chunk)
    ensures Cut([chunk])
  {
  }

  lemma CutMore(chunk: string, rest: seq<string>)
    requires Closed(chunk) && Cut(rest)
    ensures Cut([chunk] + rest)
  {
    var all := [chunk] + rest;
    forall i | 0 <= i < |all| - 1 ensures Closed(all[i]) {
      if i > 0 { assert Closed(rest[i - 1]); }
    }
  }

  lemma PrefixedOne(pre: string, c: char, rest: seq<string>)
    requires rest != []
    ensures Prefixed(pre, Prefixed([c], rest)) == Prefixed(pre + [c], rest)
  {
    assert pre + ([c] + rest[0]) == pre + [c] + rest[0];
  }

  lemma OneChar(st: Scan, c: char)
    ensures Run(st, [c]) == Step(st, c) && (CutFree(st, [c]) <==> !Cuts(st, c))
  {
    assert [c][1..] == [];
    assert Run(Step(st, c), []) == Step(st, c);
  }

  /** The parts are the one way to cut the text. */
  lemma SplitIsTheCut(s: string, parts: seq<string>)
    ensures parts == SplitFrom(Plain(0), s) <==> Cut(parts) && JoinCommas(parts) == s
  {
    JoinAfterSplit(Plain(0), s);
    SplitCuts([], s);
    NothingPrefixed(SplitFrom(Plain(0), s));
    if Cut(parts) {
      SplitAfterJoin(parts);
    }
  }

  // -------------------------------------------------------------------------
  // `split_top_level`
  // -------------------------------------------------------------------------

  lemma ScanOn(st: Scan, s: string, start: nat, i: nat)
    requires start <= i < |s| && !Cuts(st, s[i])
    ensures Prefixed(s[start..i], SplitFrom(st, s[i..]))
            == Prefixed(s[start..i + 1], SplitFrom(Step(st, s[i]), s[i + 1..]))
  {
    assert s[i..][1..] == s[i + 1..];
    var rest := SplitFrom(Step(st, s[i]), s[i + 1..]);
    assert s[start..i] + ([s[i]] + rest[0]) == s[start..i + 1] + rest[0];
  }

  lemma ScanPast(s: string, start: nat, i: nat)
    requires start <= i < |s| && s[i] == ','
    ensures Prefixed(s[start..i], SplitFrom(Plain(0), s[i..]))
            == [s[start..i]] + Prefixed(s[i + 1..i + 1], SplitFrom(Plain(0), s[i + 1..]))
  {
    assert s[i..][1..] == s[i + 1..];
    var rest := SplitFrom(Plain(0), s[i + 1..]);
    NothingPrefixed(rest);
    assert s[i + 1..i + 1] == [] && s[start..i] + [] == s[start..i];
  }

  /** The parts once the scan has reached `i`, which an escape at the very end
      takes one past the text. */
  ghost function Pending(st: Scan, s: string, start: nat, i: nat): seq<string>
    requires start <= |s| && start <= i <= |s| + 1
  {
    if i <= |s| then Prefixed(s[start..i], SplitFrom(st, s[i..])) else [s[start..]]
  }

  /** One turn of the loop. */
  lemma Advance(st: Scan, s: string, start: nat, i: nat)
    requires start <= i < |s| && !st.escaped
    ensures
      if Cuts(st, s[i]) then Pending(st, s, start, i) == [s[start..i]] + Pending(st, s, i + 1, i + 1)
      else if Step(st, s[i]).escaped then Pending(st, s, start, i) == Pending(st, s, start, i + 2)
      else Pending(st, s, start, i) == Pending(Step(st, s[i]), s, start, i + 1)
  {
    hide SplitFrom, Prefixed;
    if Cuts(st, s[i]) {
      ScanPast(s, start, i);
    } else {
      ScanOn(st, s, start, i);
      if Step(st, s[i]).escaped {
        if i + 1 < |s| {
          ScanOn(Step(st, s[i]), s, start, i + 1);
        } else {
          ScanEnd(Step(st, s[i]), s, start);
        }
      }
    }
  }

  lemma LoopTurn(depth: int, basic: bool, literal: bool, s: string, start: nat, i: nat)
    requires start <= i < |s|
    ensures
      var c, now := s[i], Pending(Scan(depth, basic, literal, false), s, start, i);
      if c == '\\' && basic then now == Pending(Scan(depth, basic, literal, false), s, start, i + 2)
      else if c == '"' && !literal then now == Pending(Scan(depth, !basic, literal, false), s, start, i + 1)
      else if c == '\'' && !basic then now == Pending(Scan(depth, basic, !literal, false), s, start, i + 1)
      else if c == '[' && !basic && !literal then
        now == Pending(Scan(depth + 1, basic, literal, false), s, start, i + 1)
      else if c == ']' && !basic && !literal then
        now == Pending(Scan(depth - 1, basic, literal, false), s, start, i + 1)
      else if c == ',' && depth == 0 && !basic && !literal then
        now == [s[start..i]] + Pending(Scan(depth, basic, literal, false), s, i + 1, i + 1)
      else now == Pending(Scan(depth, basic, literal, false), s, start, i + 1)
  {
    hide Pending;
    Advance(Scan(depth, basic, literal, false), s, start, i);
  }

  lemma ScanEnd(st: Scan, s: string, start: nat)
    requires start <= |s|
    ensures Prefixed(s[start..|s|], SplitFrom(st, s[|s|..])) == [s[start..]]
  {
    assert s[|s|..] == [] && s[start..|s|] + [] == s[start..];
  }

  lemma PendingAtStart(s: string)
    ensures Pending(Plain(0), s, 0, 0) == SplitFrom(Plain(0), s)
  {
    assert s[0..] == s && s[0..0] == [];
    NothingPrefixed(SplitFrom(Plain(0), s));
  }

  method SplitTopLevel(s: string) returns (parts: seq<string>)
    ensures parts == SplitFrom(Plain(0), s)
    ensures Cut(parts) && JoinCommas(parts) == s
  {
    hide SplitFrom, Prefixed, Pending, Cut, JoinCommas;
    parts := [];
    var start, depth := 0, 0;
    var inBasic, inLiteral := false, false;
    var i := 0;
    ghost var todo := SplitFrom(Plain(0), s);
    PendingAtStart(s);
    while i < |s|
      invariant start <= |s| && start <= i <= |s| + 1
      invariant todo == Pending(Scan(depth, inBasic, inLiteral, false), s, start, i)
      invariant parts + todo == SplitFrom(Plain(0), s)
    {
      var c := s[i];
      LoopTurn(depth, inBasic, inLiteral, s, start, i);
      if c == '\\' && inBasic {
        i := i + 1;
      } else if c == '"' && !inLiteral {
        inBasic := !inBasic;
      } else if c == '\'' && !inBasic {
        inLiteral := !inLiteral;
      } else if c == '[' && !inBasic && !inLiteral {
        depth := depth + 1;
      } else if c == ']' && !inBasic && !inLiteral {
        depth := depth - 1;
      } else if c == ',' && depth == 0 && !inBasic && !inLiteral {
        todo := Pending(Scan(depth, inBasic, inLiteral, false), s, i + 1, i + 1);
        PartsRegroup(parts, [s[start..i]], todo);
        parts := parts + [s[start..i]];
        start := i + 1;
      }
      i := i + 1;
    }
    PendingAtEnd(Scan(depth, inBasic, inLiteral, false), s, start, i);
    parts := parts + [s[start..]];
    SplitIsTheCut(s, parts);
  }

  lemma PartsRegroup(a: seq<string>, b: seq<string>, c: seq<string>)
    ensures (a + b) + c == a + (b + c)
  {
  }

  lemma PendingAtEnd(st: Scan, s: string, start: nat, i: nat)
    requires start <= |s| && start <= i && |s| <= i <= |s| + 1
    ensures Pending(st, s, start, i) == [s[start..]]
  {
    if i == |s| {
      ScanEnd(st, s, start);
    }
  }
}
