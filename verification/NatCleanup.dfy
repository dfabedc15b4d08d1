/** Adding the rules of published ports to the packet filter and taking them away
again (`publish` and `cleanup` in `src/runtime/nat.rs`). */
module NatCleanup {
  import opened Wrappers
  import opened Text
  import opened Nat

  // -------------------------------------------------------------------------
  // Tables
  // -------------------------------------------------------------------------

  /** `-C`, then `-A` or `-I`: a rule that is there is not added again. */
  function AppendUnique(t: seq<Rule>, r: Rule): seq<Rule> { if r in t then t else t + [r] }
  function InsertUnique(t: seq<Rule>, r: Rule): seq<Rule> { if r in t then t else [r] + t }

  /** `-D`: the first rule that is the same. */
  function Delete(t: seq<Rule>, r: Rule): seq<Rule> {
    if t == [] then [] else if t[0] == r then t[1..] else [t[0]] + Delete(t[1..], r)
  }

  function DeleteEach(t: seq<Rule>, rs: seq<Rule>): seq<Rule>
    decreases rs
  {
    if rs == [] then t else DeleteEach(Delete(t, rs[0]), rs[1..])
  }

  /** The rules of `t`, in order, whose listed line mentions `id`. */
  function Tagged(t: seq<Rule>, id: string, q: Quoting): seq<Rule> {
    if t == [] then []
    else (if Mentions(Line(t[0], q), id) then [SplitFrom([], false, Line(t[0], q))] else []) + Tagged(t[1..], id, q)
  }

  /** ... and those whose line does not. */
  function Untagged(t: seq<Rule>, id: string, q: Quoting): seq<Rule> {
    if t == [] then []
    else (if Mentions(Line(t[0], q), id) then [] else [t[0]]) + Untagged(t[1..], id, q)
  }

  predicate Readable(t: seq<Rule>) { forall i :: 0 <= i < |t| ==> Words(t[i]) }

  lemma {:induction false} DeleteElsewhere(x: Rule, t: seq<Rule>, rs: seq<Rule>)
    requires x !in rs
    ensures DeleteEach([x] + t, rs) == [x] + DeleteEach(t, rs)
    decreases rs
  {
    if rs != [] {
      assert ([x] + t)[1..] == t && rs[0] in rs;
      assert Delete([x] + t, rs[0]) == [x] + Delete(t, rs[0]);
      DeleteElsewhere(x, Delete(t, rs[0]), rs[1..]);
    }
  }

  lemma {:induction false} TaggedAreMentioned(t: seq<Rule>, id: string, q: Quoting)
    requires Readable(t)
    ensures forall r :: r in Tagged(t, id, q) ==> Mentions(Line(r, q), id)
  {
    if t != [] {
      SplitRoundTrip(t[0], q);
      TaggedAreMentioned(t[1..], id, q);
    }
  }

  /** Deleting what the listing shows as tagged, one rule at a time, leaves the
      untagged rules in their order, repeated rules included. */
  lemma {:induction false} DeletingTaggedLeavesUntagged(t: seq<Rule>, id: string, q: Quoting)
    requires Readable(t)
    ensures DeleteEach(t, Tagged(t, id, q)) == Untagged(t, id, q)
  {
    if t != [] {
      var x, rest := t[0], t[1..];
      assert t == [x] + rest;
      DeletingTaggedLeavesUntagged(rest, id, q);
      SplitRoundTrip(x, q);
      if Mentions(Line(x, q), id) {
        assert Tagged(t, id, q)[1..] == Tagged(rest, id, q);
      } else {
        TaggedAreMentioned(rest, id, q);
        DeleteElsewhere(x, rest, Tagged(rest, id, q));
        assert Tagged(t, id, q) == Tagged(rest, id, q);
      }
    }
  }

  lemma RulesRegroup(a: seq<Rule>, b: seq<Rule>, c: seq<Rule>)
    ensures (a + b) + c == a + (b + c)
  {
  }

  lemma {:induction false} UntaggedConcat(a: seq<Rule>, b: seq<Rule>, id: string, q: Quoting)
    ensures Untagged(a + b, id, q) == Untagged(a, id, q) + Untagged(b, id, q)
  {
    if a == [] {
      assert a + b == b;
    } else {
      UntaggedConcat(a[1..], b, id, q);
      assert (a + b)[1..] == a[1..] + b;
      var head := if Mentions(Line(a[0], q), id) then [] else [a[0]];
      RulesRegroup(head, Untagged(a[1..], id, q), Untagged(b, id, q));
    }
  }

  lemma AppendTagged(t: seq<Rule>, r: Rule, id: string, q: Quoting)
    requires Mentions(Line(r, q), id)
    ensures Untagged(AppendUnique(t, r), id, q) == Untagged(t, id, q)
  {
    UntaggedConcat(t, [r], id, q);
    assert Untagged([r], id, q) == [] by { assert [r][1..] == []; }
  }

  // -------------------------------------------------------------------------
  // Publishing
  // -------------------------------------------------------------------------

  datatype Mapping = Mapping(protocol: string, hostPort: nat, containerPort: nat)

  function Commented(body: Rule, id: string): Rule { body + ["-m", "comment"] + [COMMENT_FLAG, Tag(id)] }

  function Port(protocol: string, port: nat): Rule { ["-p", protocol, "--dport", Decimal(port)] }

  function Forward(id: string, ip: string, m: Mapping): Rule {
    Commented(["MYRUN-PRE"] + Port(m.protocol, m.hostPort)
              + ["-j", "DNAT"] + ["--to-destination", ip + [':'] + Decimal(m.containerPort)], id)
  }

  function Hairpin(id: string, ip: string, m: Mapping): Rule {
    Commented(["MYRUN-POST"] + ["-s", ip] + ["-d", ip] + Port(m.protocol, m.containerPort) + ["-j", "MASQUERADE"], id)
  }

  function Accept(id: string, bridge: string, ip: string, m: Mapping): Rule {
    Commented(["MYRUN-FWD"] + ["-o", bridge] + ["-d", ip] + Port(m.protocol, m.containerPort) + ["-j", "ACCEPT"], id)
  }

  /** `ensure_chains`: the jumps to our chains and the guard for loopback addresses. */
  function Hooked(t: Tables): Tables {
    Tables(InsertUnique(InsertUnique(InsertUnique(t.natRules,
             ["PREROUTING", "-j", "MYRUN-PRE"]), ["OUTPUT", "-j", "MYRUN-PRE"]), ["POSTROUTING", "-j", "MYRUN-POST"]),
           InsertUnique(InsertUnique(t.filterRules, ["FORWARD", "-j", "MYRUN-FWD"]), Guard()))
  }

  function Guard(): Rule {
    Commented(["INPUT", "!", "-i", "lo"] + ["-d", "127.0.0.0/8"] + ["-m", "conntrack"] + ["--ctstate", "NEW"]
              + ["-j", "DROP"], "base")
  }

  function Publish(t: Tables, id: string, bridge: string, ip: string, m: Mapping): Tables {
    var h := Hooked(t);
    Tables(AppendUnique(AppendUnique(h.natRules, Forward(id, ip, m)), Hairpin(id, ip, m)),
           AppendUnique(h.filterRules, Accept(id, bridge, ip, m)))
  }

  function PublishAll(t: Tables, id: string, bridge: string, ip: string, ms: seq<Mapping>): Tables {
    if ms == [] then t else Publish(PublishAll(t, id, bridge, ip, ms[..|ms| - 1]), id, bridge, ip, ms[|ms| - 1])
  }

  function Cleanup(t: Tables, id: string, q: Quoting): Tables {
    Tables(DeleteEach(t.natRules, Tagged(t.natRules, id, q)), DeleteEach(t.filterRules, Tagged(t.filterRules, id, q)))
  }

  /** Everything a publish adds is there. */
  predicate HasPublished(t: Tables, id: string, bridge: string, ip: string, m: Mapping) {
    && Hooked(t) == t
    && Forward(id, ip, m) in t.natRules && Hairpin(id, ip, m) in t.natRules
    && Accept(id, bridge, ip, m) in t.filterRules
  }

  lemma HookedStays(t: Tables, u: Tables)
    requires forall x :: x in Hooked(t).natRules ==> x in u.natRules
    requires forall x :: x in Hooked(t).filterRules ==> x in u.filterRules
    ensures Hooked(u) == u
  {
  }

  /** Publishing the same port again adds nothing. */
  lemma PublishTwiceIsOnce(t: Tables, id: string, bridge: string, ip: string, m: Mapping)
    ensures
      var u := Publish(t, id, bridge, ip, m);
      HasPublished(u, id, bridge, ip, m) && Publish(u, id, bridge, ip, m) == u
  {
    hide Forward, Hairpin, Accept, Guard;
    HookedStays(t, Publish(t, id, bridge, ip, m));
  }

  // -------------------------------------------------------------------------
  // Whose rules a cleanup removes
  // -------------------------------------------------------------------------

  predicate NoFlag(body: Rule) { forall i :: 0 <= i < |body| ==> !EndsWith(body[i], COMMENT_FLAG) }

  lemma CommentedTaggedAt(body: Rule, owner: string, id: string, q: Quoting, k: nat)
    requires NoFlag(body) && !q(COMMENT_FLAG)
    ensures TaggedAt(Commented(body, owner), k, q, id) <==>
            k == |body| + 2 && if q(Tag(owner)) then owner == id else id <= owner
  {
    var r := Commented(body, owner);
    var n := |body|;
    assert r[n] == "-m" && r[n + 1] == "comment" && r[n + 2] == COMMENT_FLAG && r[n + 3] == Tag(owner) && |r| == n + 4;
    assert k < n ==> r[k] == body[k];
    assert !EndsWith("-m", COMMENT_FLAG) && !EndsWith("comment", COMMENT_FLAG);
    assert EndsWith(COMMENT_FLAG, COMMENT_FLAG);
    TagPrefix(id, owner);
  }

  lemma TagPrefix(a: string, b: string)
    ensures Tag(a) <= Tag(b) <==> a <= b
    ensures Tag(a) == Tag(b) <==> a == b
  {
    var n := |"myrun:"|;
    assert Tag(a)[n..] == a && Tag(b)[n..] == b;
    if a <= b {
      assert Tag(b)[..|Tag(a)|] == Tag(a);
    }
    if Tag(a) <= Tag(b) {
      assert Tag(b)[..|Tag(a)|][n..] == b[..|a|];
    }
  }

  lemma CommentedIsWords(body: Rule, owner: string)
    requires Words(body) && Word(owner)
    ensures Words(Commented(body, owner))
  {
    var r := Commented(body, owner);
    assert Word("-m") && Word("comment") && Word(COMMENT_FLAG);
    TagIsWord(owner);
    assert Word(Tag(owner)) by {
      var base := "myrun:";
      assert Word(base);
      forall i | 0 <= i < |Tag(owner)| ensures !IsSpace(Tag(owner)[i]) {
        if i < |base| { assert Tag(owner)[i] == base[i]; } else { assert Tag(owner)[i] == owner[i - |base|]; }
      }
    }
    forall i | 0 <= i < |r| ensures Word(r[i]) {
      if i < |body| { assert r[i] == body[i]; }
    }
  }

  /** A rule tagged for `owner` is taken for one of `id` exactly if the two are the
      same or, where the listing leaves the tag unquoted, `id` is a prefix of
      `owner`: ids of one length are never confused. */
  lemma MentionsOwner(body: Rule, owner: string, id: string, q: Quoting)
    requires Words(body) && NoFlag(body) && Word(owner) && Word(id) && !q(COMMENT_FLAG)
    ensures Mentions(Line(Commented(body, owner), q), id) <==> if q(Tag(owner)) then owner == id else id <= owner
    ensures |id| == |owner| ==> (Mentions(Line(Commented(body, owner), q), id) <==> owner == id)
  {
    hide Mentions, Line, Commented, TaggedAt;
    var r := Commented(body, owner);
    CommentedIsWords(body, owner);
    MentionsExactly(r, q, id);
    CommentedTaggedAt(body, owner, id, q, |body| + 2);
    forall k: nat ensures TaggedAt(r, k, q, id) ==> k == |body| + 2 {
      CommentedTaggedAt(body, owner, id, q, k);
    }
    if |id| == |owner| && id <= owner {
      assert owner[..|id|] == owner;
    }
  }

  // -------------------------------------------------------------------------
  // Publish, then clean up
  // -------------------------------------------------------------------------

  /** What a configuration has to satisfy for its rules to be listed word by word. */
  predicate Plain(id: string, bridge: string, ip: string) {
    && Word(id) && Word(bridge) && Word(ip)
    && !EndsWith(bridge, COMMENT_FLAG) && !EndsWith(ip, COMMENT_FLAG)
  }

  predicate PlainMapping(m: Mapping) { Word(m.protocol) && !EndsWith(m.protocol, COMMENT_FLAG) }

  lemma EndsLikeFlag(s: string)
    requires EndsWith(s, COMMENT_FLAG)
    ensures s != [] && s[|s| - 1] == 't'
  {
    assert s[|s| - |COMMENT_FLAG|..][|COMMENT_FLAG| - 1] == COMMENT_FLAG[|COMMENT_FLAG| - 1];
  }

  lemma DecimalIsPlain(n: nat)
    ensures Filler(Decimal(n))
  {
    DecimalRoundTrip(n);
    var d := Decimal(n);
    forall i | 0 <= i < |d| ensures !IsSpace(d[i]) && d[i] != '"' { assert IsDigit(d[i]); }
    assert IsDigit(d[|d| - 1]);
    if EndsWith(d, COMMENT_FLAG) { EndsLikeFlag(d); }
  }

  lemma DestinationIsPlain(ip: string, n: nat)
    requires Word(ip)
    ensures Filler(ip + [':'] + Decimal(n))
  {
    DecimalIsPlain(n);
    var d, s := Decimal(n), ip + [':'] + Decimal(n);
    DecimalRoundTrip(n);
    assert IsDigit(d[|d| - 1]) && s[|s| - 1] == d[|d| - 1];
    if EndsWith(s, COMMENT_FLAG) { EndsLikeFlag(s); }
  }

  /** A word of a rule that is not the comment option. */
  predicate Filler(w: string) { Word(w) && !EndsWith(w, COMMENT_FLAG) }

  lemma FixedWords()
    ensures Filler("MYRUN-PRE") && Filler("MYRUN-POST") && Filler("MYRUN-FWD")
  {
    assert Filler("MYRUN-PRE");
    assert Filler("MYRUN-POST");
  }

  lemma FixedOptions()
    ensures Filler("-p") && Filler("-s") && Filler("-d") && Filler("-o") && Filler("-j") && Filler("--dport")
  {
  }

  lemma FixedTargets()
    ensures Filler("--to-destination") && Filler("DNAT")
  {
  }

  lemma FixedVerdicts()
    ensures Filler("MASQUERADE") && Filler("ACCEPT")
  {
  }

  predicate Fillers(body: Rule) { forall i :: 0 <= i < |body| ==> Filler(body[i]) }

  lemma FillersConcat(a: Rule, b: Rule)
    requires Fillers(a) && Fillers(b)
    ensures Fillers(a + b)
  {
  }

  /** A rule that is listed word by word and mentions `id`. */
  predicate Found(r: Rule, id: string, q: Quoting) { Words(r) && Mentions(Line(r, q), id) }

  lemma FillersAreFound(body: Rule, id: string, q: Quoting)
    requires Fillers(body) && Word(id) && !q(COMMENT_FLAG)
    ensures Found(Commented(body, id), id, q)
  {
    hide Mentions, Line, Commented;
    MentionsOwner(body, id, id, q);
    CommentedIsWords(body, id);
  }

  lemma PortIsFiller(protocol: string, port: nat)
    requires Filler(protocol)
    ensures Fillers(Port(protocol, port))
  {
    DecimalIsPlain(port);
    hide Filler, Decimal;
    FixedOptions();
  }

  /** The rules of a publish are all found again. */
  lemma PublishedAreMentioned(id: string, bridge: string, ip: string, m: Mapping, q: Quoting)
    requires Plain(id, bridge, ip) && PlainMapping(m) && !q(COMMENT_FLAG)
    ensures Found(Forward(id, ip, m), id, q) && Found(Hairpin(id, ip, m), id, q)
            && Found(Accept(id, bridge, ip, m), id, q)
  {
    assert Filler(bridge) && Filler(ip) && Filler(m.protocol);
    hide Found, Commented, Filler, Word, EndsWith;
    ForwardIsMentioned(id, ip, m, q);
    FixedWords();
    FixedOptions();
    FixedVerdicts();
    RestIsMentioned(["MYRUN-POST"], ["-s", ip], ip, m, "MASQUERADE", id, q);
    RestIsMentioned(["MYRUN-FWD"], ["-o", bridge], ip, m, "ACCEPT", id, q);
  }

  lemma ForwardIsMentioned(id: string, ip: string, m: Mapping, q: Quoting)
    requires Word(id) && Filler(ip) && Filler(m.protocol) && !q(COMMENT_FLAG)
    ensures Found(Forward(id, ip, m), id, q)
  {
    DestinationIsPlain(ip, m.containerPort);
    hide Found, Commented, Decimal, Filler, Port;
    FixedWords();
    FixedOptions();
    FixedTargets();
    PortIsFiller(m.protocol, m.hostPort);
    var dest := ["--to-destination", ip + [':'] + Decimal(m.containerPort)];
    var b1 := ["MYRUN-PRE"] + Port(m.protocol, m.hostPort);
    var b2 := b1 + ["-j", "DNAT"];
    FillersConcat(["MYRUN-PRE"], Port(m.protocol, m.hostPort));
    FillersConcat(b1, ["-j", "DNAT"]);
    FillersConcat(b2, dest);
    FillersAreFound(b2 + dest, id, q);
  }

  lemma RestIsMentioned(chain: Rule, from: Rule, ip: string, m: Mapping, target: string, id: string, q: Quoting)
    requires Word(id) && Fillers(chain) && Fillers(from) && Filler(ip) && Filler(m.protocol) && Filler(target)
             && !q(COMMENT_FLAG)
    ensures Found(Commented(chain + from + ["-d", ip] + Port(m.protocol, m.containerPort) + ["-j", target], id), id, q)
  {
    hide Found, Commented, Decimal, Filler, Port;
    FixedOptions();
    PortIsFiller(m.protocol, m.containerPort);
    var port := Port(m.protocol, m.containerPort);
    var b1 := chain + from;
    var b2 := b1 + ["-d", ip];
    var b3 := b2 + port;
    FillersConcat(chain, from);
    FillersConcat(b1, ["-d", ip]);
    FillersConcat(b2, port);
    FillersConcat(b3, ["-j", target]);
    FillersAreFound(b3 + ["-j", target], id, q);
  }

  lemma HooksAreWords()
    ensures Words(["PREROUTING", "-j", "MYRUN-PRE"]) && Words(["OUTPUT", "-j", "MYRUN-PRE"])
  {
  }

  lemma MoreHooksAreWords()
    ensures Words(["POSTROUTING", "-j", "MYRUN-POST"])
  {
  }

  lemma LastHookIsWords()
    ensures Words(["FORWARD", "-j", "MYRUN-FWD"])
  {
  }

  lemma WordsConcat(a: Rule, b: Rule)
    requires Words(a) && Words(b)
    ensures Words(a + b)
  {
  }

  lemma GuardPieces()
    ensures Words(["INPUT", "!", "-i", "lo"]) && Words(["-d", "127.0.0.0/8"])
  {
    assert Word("INPUT") && Word("!") && Word("-i") && Word("lo");
    assert Word("-d") && Word("127.0.0.0/8");
  }

  lemma MoreGuardPieces()
    ensures Words(["-m", "conntrack"]) && Words(["--ctstate", "NEW"]) && Words(["-j", "DROP"]) && Word("base")
  {
    assert Word("-m") && Word("conntrack") && Word("--ctstate") && Word("NEW");
    assert Word("-j") && Word("DROP");
  }

  lemma GuardIsWords()
    ensures Words(Guard())
  {
    hide Commented, Words, Word;
    GuardPieces();
    MoreGuardPieces();
    var g1 := ["INPUT", "!", "-i", "lo"] + ["-d", "127.0.0.0/8"];
    var g2 := g1 + ["-m", "conntrack"];
    var g3 := g2 + ["--ctstate", "NEW"];
    WordsConcat(["INPUT", "!", "-i", "lo"], ["-d", "127.0.0.0/8"]);
    WordsConcat(g1, ["-m", "conntrack"]);
    WordsConcat(g2, ["--ctstate", "NEW"]);
    WordsConcat(g3, ["-j", "DROP"]);
    CommentedIsWords(g3 + ["-j", "DROP"], "base");
  }

  lemma HookedIsReadable(t: Tables)
    requires Readable(t.natRules) && Readable(t.filterRules)
    ensures Readable(Hooked(t).natRules) && Readable(Hooked(t).filterRules)
  {
    HooksAreWords();
    MoreHooksAreWords();
    LastHookIsWords();
    GuardIsWords();
    hide Words, Guard;
  }

  lemma AppendIsReadable(t: seq<Rule>, r: Rule)
    requires Readable(t) && Words(r)
    ensures Readable(AppendUnique(t, r))
  {
  }

  /** What `cleanup` will leave of tables after some publishes. */
  ghost predicate Undoes(t: Tables, u: Tables, id: string, q: Quoting) {
    && Readable(u.natRules) && Readable(u.filterRules)
    && Untagged(u.natRules, id, q) == Untagged(t.natRules, id, q)
    && Untagged(u.filterRules, id, q) == Untagged(t.filterRules, id, q)
  }

  lemma PublishIsUndone(t: Tables, id: string, bridge: string, ip: string, m: Mapping, q: Quoting)
    requires Plain(id, bridge, ip) && PlainMapping(m) && !q(COMMENT_FLAG)
    requires Readable(t.natRules) && Readable(t.filterRules)
    ensures Undoes(Hooked(t), Publish(t, id, bridge, ip, m), id, q)
  {
    hide Untagged, Mentions, Forward, Hairpin, Accept, Hooked, Words;
    PublishedAreMentioned(id, bridge, ip, m, q);
    HookedIsReadable(t);
    var h := Hooked(t);
    var one := AppendUnique(h.natRules, Forward(id, ip, m));
    AppendTagged(h.natRules, Forward(id, ip, m), id, q);
    AppendTagged(one, Hairpin(id, ip, m), id, q);
    AppendTagged(h.filterRules, Accept(id, bridge, ip, m), id, q);
    AppendIsReadable(h.natRules, Forward(id, ip, m));
    AppendIsReadable(one, Hairpin(id, ip, m));
    AppendIsReadable(h.filterRules, Accept(id, bridge, ip, m));
  }

  lemma {:induction false} PublishesAreUndone(
    t: Tables, id: string, bridge: string, ip: string, ms: seq<Mapping>, q: Quoting)
    requires Plain(id, bridge, ip) && !q(COMMENT_FLAG) && forall i :: 0 <= i < |ms| ==> PlainMapping(ms[i])
    requires Readable(t.natRules) && Readable(t.filterRules)
    ensures
      var u := PublishAll(t, id, bridge, ip, ms);
      Undoes(if ms == [] then t else Hooked(t), u, id, q) && (ms != [] ==> Hooked(u) == u)
  {
    hide Untagged, Forward, Hairpin, Accept, Guard;
    if ms != [] {
      var n := |ms| - 1;
      var before := PublishAll(t, id, bridge, ip, ms[..n]);
      PublishesAreUndone(t, id, bridge, ip, ms[..n], q);
      PublishIsUndone(before, id, bridge, ip, ms[n], q);
      HookedStays(before, PublishAll(t, id, bridge, ip, ms));
    }
  }

  lemma CleanupLeavesNoTag(t: Tables, id: string, q: Quoting)
    requires Readable(t.natRules) && Readable(t.filterRules)
    ensures Cleanup(t, id, q) == Tables(Untagged(t.natRules, id, q), Untagged(t.filterRules, id, q))
    ensures Tagged(Cleanup(t, id, q).natRules, id, q) == [] && Tagged(Cleanup(t, id, q).filterRules, id, q) == []
  {
    DeletingTaggedLeavesUntagged(t.natRules, id, q);
    DeletingTaggedLeavesUntagged(t.filterRules, id, q);
    UntaggedHasNoTag(t.natRules, id, q);
    UntaggedHasNoTag(t.filterRules, id, q);
  }

  /** After any number of publishes for a container, cleaning up leaves exactly the
      rules that do not mention it, in their order: those that were there before,
      and the shared jumps and guard. */
  lemma CleanupUndoesPublish(t: Tables, id: string, bridge: string, ip: string, ms: seq<Mapping>, q: Quoting)
    requires Plain(id, bridge, ip) && !q(COMMENT_FLAG) && forall i :: 0 <= i < |ms| ==> PlainMapping(ms[i])
    requires Readable(t.natRules) && Readable(t.filterRules)
    ensures
      var h := if ms == [] then t else Hooked(t);
      Cleanup(PublishAll(t, id, bridge, ip, ms), id, q)
      == Tables(Untagged(h.natRules, id, q), Untagged(h.filterRules, id, q))
  {
    hide Untagged, Hooked, Cleanup;
    PublishesAreUndone(t, id, bridge, ip, ms, q);
    CleanupLeavesNoTag(PublishAll(t, id, bridge, ip, ms), id, q);
  }

  lemma {:induction false} UntaggedHasNoTag(t: seq<Rule>, id: string, q: Quoting)
    ensures Tagged(Untagged(t, id, q), id, q) == []
  {
    if t != [] {
      UntaggedHasNoTag(t[1..], id, q);
      if !Mentions(Line(t[0], q), id) {
        assert Untagged(t, id, q)[1..] == Untagged(t[1..], id, q);
      } else {
        assert Untagged(t, id, q) == Untagged(t[1..], id, q);
      }
    }
  }

  // -------------------------------------------------------------------------
  // The tables as they change
  // -------------------------------------------------------------------------

  /** `tagged_rules` for one table. */
  method TaggedRules(t: seq<Rule>, id: string, q: Quoting) returns (found: seq<Rule>)
    ensures found == Tagged(t, id, q)
  {
    found := [];
    assert t[0..] == t;
    for i := 0 to |t|
      invariant found + Tagged(t[i..], id, q) == Tagged(t, id, q)
    {
      var line := Line(t[i], q);
      ghost var rest := Tagged(t[i + 1..], id, q);
      assert t[i..][1..] == t[i + 1..];
      if Mentions(line, id) {
        var args := SplitRule(line);
        RulesRegroup(found, [args], rest);
        found := found + [args];
      } else {
        assert [] + rest == rest;
      }
    }
  }

  class Firewall {
    var natRules: seq<Rule>
    var filterRules: seq<Rule>

    function View(): Tables
      reads this
    {
      Tables(natRules, filterRules)
    }

    method PublishPort(id: string, bridge: string, ip: string, m: Mapping)
      modifies this
      ensures View() == Publish(old(View()), id, bridge, ip, m)
    {
      var hooked := Hooked(View());
      natRules, filterRules := hooked.natRules, hooked.filterRules;
      if Forward(id, ip, m) !in natRules { natRules := natRules + [Forward(id, ip, m)]; }
      if Hairpin(id, ip, m) !in natRules { natRules := natRules + [Hairpin(id, ip, m)]; }
      if Accept(id, bridge, ip, m) !in filterRules { filterRules := filterRules + [Accept(id, bridge, ip, m)]; }
    }

    method CleanUp(id: string, q: Quoting) returns (removed: nat)
      modifies this
      ensures View() == Cleanup(old(View()), id, q)
      ensures removed == |Tagged(old(natRules), id, q)| + |Tagged(old(filterRules), id, q)|
    {
      var inNat := TaggedRules(natRules, id, q);
      var inFilter := TaggedRules(filterRules, id, q);
      removed := 0;
      var t := natRules;
      for k := 0 to |inNat|
        invariant removed == k && DeleteEach(t, inNat[k..]) == DeleteEach(natRules, inNat)
      {
        assert inNat[k..][1..] == inNat[k + 1..];
        t := Delete(t, inNat[k]);
        removed := removed + 1;
      }
      var u := filterRules;
      for k := 0 to |inFilter|
        invariant removed == |inNat| + k && DeleteEach(u, inFilter[k..]) == DeleteEach(filterRules, inFilter)
      {
        assert inFilter[k..][1..] == inFilter[k + 1..];
        u := Delete(u, inFilter[k]);
        removed := removed + 1;
      }
      natRules, filterRules := t, u;
    }
  }
}
