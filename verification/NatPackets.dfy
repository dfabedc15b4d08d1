/** What the rules of a published port do to packets: a reading of the options that
`src/runtime/nat.rs` writes, independent of how its rules are put together. */
module NatPackets {
  import opened Wrappers
  import opened Text
  import opened Ipv4
  import opened Nat
  import opened NatCleanup

  // -------------------------------------------------------------------------
  // Packets and rules
  // -------------------------------------------------------------------------

  /** `other` answers for options that none of our rules has. */
  datatype Packet = Packet(
    protocol: string, source: Ip, dest: Ip, port: nat, input: string, output: string, state: string,
    other: (string, string) -> bool)

  /** An address, or a subnet. */
  predicate Covers(arg: string, ip: Ip) {
    var cidr := ParseCidr(arg);
    if cidr.Ok? then cidr.value.1 <= 32 && InSubnet(ToU32(ip), ToU32(cidr.value.0), cidr.value.1)
    else ParseIpv4(arg) == Ok(ip)
  }

  predicate Fits(option: string, arg: string, p: Packet) {
    if option == "-p" then arg == p.protocol
    else if option == "--dport" then arg == Decimal(p.port)
    else if option == "-s" then Covers(arg, p.source)
    else if option == "-d" then Covers(arg, p.dest)
    else if option == "-i" then arg == p.input
    else if option == "-o" then arg == p.output
    else if option == "--ctstate" then p.state in Split(arg, ',')
    else IsNoTest(option) || p.other(option, arg)
  }

  predicate IsNoTest(option: string) {
    option == "-j" || option == "--to-destination" || option == "-m" || option == "--comment"
  }

  /** Every option of a rule fits, `!` turning the next one round. */
  predicate Matches(words: seq<string>, p: Packet) {
    if words == [] then true
    else if words[0] == "!" then |words| >= 3 && !Fits(words[1], words[2], p) && Matches(words[3..], p)
    else |words| >= 2 && Fits(words[0], words[1], p) && Matches(words[2..], p)
  }

  /** What an option of a rule says. */
  function Argument(words: seq<string>, option: string): Option<string> {
    if |words| < 2 then None
    else if words[0] == option then Some(words[1])
    else Argument(words[if words[0] == "!" then 1 else 2..], option)
  }

  predicate Hits(r: Rule, chain: string, p: Packet) { r != [] && r[0] == chain && Matches(r[1..], p) }

  /** The rule of a chain that decides. */
  function FirstMatch(t: seq<Rule>, chain: string, p: Packet): Option<Rule> {
    if t == [] then None else if Hits(t[0], chain, p) then Some(t[0]) else FirstMatch(t[1..], chain, p)
  }

  function Target(r: Rule): Option<string> { if r == [] then None else Argument(r[1..], "-j") }

  /** The packet once a rule has sent it elsewhere, `a.b.c.d:port`. */
  function Redirected(r: Rule, p: Packet): Option<Packet> {
    var to := if r == [] then None else Argument(r[1..], "--to-destination");
    var parts := if to.Some? then SplitOnce(to.value, ':') else None;
    if parts.None? then None
    else
      var ip, port := ParseIpv4(parts.value.0), ParseUnsigned(parts.value.1, 65535);
      if ip.Err? || port.None? then None else Some(p.(dest := ip.value, port := port.value))
  }

  // -------------------------------------------------------------------------
  // Adding a rule
  // -------------------------------------------------------------------------

  function OrElse(r: Option<Rule>, s: Option<Rule>): Option<Rule> { if r.Some? then r else s }

  function Alone(r: Rule, chain: string, p: Packet): Option<Rule> { if Hits(r, chain, p) then Some(r) else None }

  lemma {:induction false} MatchOfConcat(t: seq<Rule>, u: seq<Rule>, chain: string, p: Packet)
    ensures FirstMatch(t + u, chain, p) == OrElse(FirstMatch(t, chain, p), FirstMatch(u, chain, p))
  {
    hide Hits;
    if t == [] {
      assert t + u == u;
    } else {
      assert (t + u)[1..] == t[1..] + u;
      MatchOfConcat(t[1..], u, chain, p);
    }
  }

  lemma {:induction false} MatchIfThere(t: seq<Rule>, r: Rule, chain: string, p: Packet)
    requires r in t && Hits(r, chain, p)
    ensures FirstMatch(t, chain, p).Some?
  {
    hide Hits;
    if t[0] != r {
      MatchIfThere(t[1..], r, chain, p);
    }
  }

  lemma MatchOfOne(r: Rule, chain: string, p: Packet)
    ensures FirstMatch([r], chain, p) == Alone(r, chain, p)
  {
    hide Hits;
    assert [r][1..] == [];
  }

  /** A rule that is appended decides where no other does. */
  lemma MatchOfAppended(t: seq<Rule>, r: Rule, chain: string, p: Packet)
    ensures FirstMatch(AppendUnique(t, r), chain, p) == OrElse(FirstMatch(t, chain, p), Alone(r, chain, p))
  {
    hide Hits, FirstMatch;
    if r !in t {
      MatchOfConcat(t, [r], chain, p);
      MatchOfOne(r, chain, p);
    } else if Hits(r, chain, p) {
      MatchIfThere(t, r, chain, p);
    }
  }

  /** One that is inserted decides where it matches, unless it is there already. */
  lemma MatchOfInserted(t: seq<Rule>, r: Rule, chain: string, p: Packet)
    ensures FirstMatch(InsertUnique(t, r), chain, p)
         == if r in t then FirstMatch(t, chain, p) else OrElse(Alone(r, chain, p), FirstMatch(t, chain, p))
  {
    hide Hits, FirstMatch;
    if r !in t {
      MatchOfConcat([r], t, chain, p);
      MatchOfOne(r, chain, p);
    }
  }

  // -------------------------------------------------------------------------
  // Reading our rules
  // -------------------------------------------------------------------------

  lemma OneOption(option: string, arg: string, rest: seq<string>, p: Packet)
    requires option != "!"
    ensures Matches([option, arg] + rest, p) <==> Fits(option, arg, p) && Matches(rest, p)
  {
    hide Fits;
    assert ([option, arg] + rest)[2..] == rest;
  }

  lemma NextArgument(option: string, arg: string, rest: seq<string>, wanted: string)
    requires option != "!"
    ensures Argument([option, arg] + rest, wanted) == if option == wanted then Some(arg) else Argument(rest, wanted)
  {
    assert ([option, arg] + rest)[2..] == rest;
  }

  lemma NotNegations()
    ensures "-p" != "!" && "--dport" != "!" && "-s" != "!" && "-d" != "!" && "-o" != "!"
    ensures "-j" != "!" && "--to-destination" != "!" && "-m" != "!" && COMMENT_FLAG != "!"
  {
  }

  lemma FitsAddress(arg: string, p: Packet)
    ensures Fits("-s", arg, p) <==> Covers(arg, p.source)
    ensures Fits("-d", arg, p) <==> Covers(arg, p.dest)
    ensures Fits("-o", arg, p) <==> arg == p.output
  {
    hide Covers;
  }

  lemma FitsPort(arg: string, p: Packet)
    ensures Fits("-p", arg, p) <==> arg == p.protocol
    ensures Fits("--dport", arg, p) <==> arg == Decimal(p.port)
  {
  }

  lemma FitsAlways(arg: string, p: Packet)
    ensures Fits("-j", arg, p) && Fits("-m", arg, p)
  {
  }

  lemma FitsAlwaysToo(arg: string, p: Packet)
    ensures Fits("--to-destination", arg, p) && Fits(COMMENT_FLAG, arg, p)
  {
  }

  lemma DecimalIsInjective(m: nat, n: nat)
    ensures Decimal(m) == Decimal(n) <==> m == n
  {
    DecimalRoundTrip(m);
    DecimalRoundTrip(n);
  }

  /** A written address covers itself and no other. */
  lemma AddressCoversItself(addr: Ip, ip: Ip)
    ensures Covers(FormatIpv4(addr), ip) <==> ip == addr
  {
    hide ParseIpv4, FormatIpv4, InSubnet;
    NoSlash(addr);
    CidrIsAddressAndPrefix(FormatIpv4(addr), addr, 0);
    Ipv4RoundTrip(addr);
  }

  function Comment(id: string): seq<string> { ["-m", "comment"] + ([COMMENT_FLAG, Tag(id)] + []) }

  lemma CommentMatches(id: string, p: Packet)
    ensures Matches(Comment(id), p)
  {
    hide Fits;
    NotNegations();
    FitsAlways("comment", p);
    FitsAlwaysToo(Tag(id), p);
    OneOption(COMMENT_FLAG, Tag(id), [], p);
    OneOption("-m", "comment", [COMMENT_FLAG, Tag(id)] + [], p);
  }

  /** A protocol, a port and a verdict. */
  function PortPart(protocol: string, port: nat, rest: seq<string>): seq<string> {
    ["-p", protocol] + (["--dport", Decimal(port)] + rest)
  }

  lemma PortPartMatches(protocol: string, port: nat, rest: seq<string>, p: Packet)
    ensures Matches(PortPart(protocol, port, rest), p) <==>
      p.protocol == protocol && p.port == port && Matches(rest, p)
  {
    hide Fits, Decimal, Matches;
    NotNegations();
    FitsPort(protocol, p);
    FitsPort(Decimal(port), p);
    DecimalIsInjective(port, p.port);
    OneOption("--dport", Decimal(port), rest, p);
    OneOption("-p", protocol, ["--dport", Decimal(port)] + rest, p);
  }

  function Destination(ip: string, port: nat): string { ip + [':'] + Decimal(port) }

  lemma ForwardReads(id: string, ip: string, m: Mapping)
    ensures
      var r := Forward(id, ip, m);
      var d := Destination(ip, m.containerPort);
      && r != [] && r[0] == "MYRUN-PRE"
      && r[1..] == PortPart(m.protocol, m.hostPort, ["-j", "DNAT"] + (["--to-destination", d] + Comment(id)))
  {
    hide Decimal, Tag;
  }

  lemma HairpinReads(id: string, ip: string, m: Mapping)
    ensures
      var r := Hairpin(id, ip, m);
      && r != [] && r[0] == "MYRUN-POST"
      && r[1..] == ["-s", ip] + (["-d", ip] +
           PortPart(m.protocol, m.containerPort, ["-j", "MASQUERADE"] + Comment(id)))
  {
    hide Decimal, Tag;
  }

  lemma AcceptReads(id: string, bridge: string, ip: string, m: Mapping)
    ensures
      var r := Accept(id, bridge, ip, m);
      && r != [] && r[0] == "MYRUN-FWD"
      && r[1..] == ["-o", bridge] + (["-d", ip] +
           PortPart(m.protocol, m.containerPort, ["-j", "ACCEPT"] + Comment(id)))
  {
    hide Decimal, Tag;
  }

  predicate IsFor(p: Packet, protocol: string, port: nat) { p.protocol == protocol && p.port == port }

  lemma ForwardHits(id: string, ip: string, m: Mapping, p: Packet)
    ensures Hits(Forward(id, ip, m), "MYRUN-PRE", p) <==> IsFor(p, m.protocol, m.hostPort)
  {
    hide Fits, Matches, Forward, PortPart;
    var to := Destination(ip, m.containerPort);
    ForwardReads(id, ip, m);
    NotNegations();
    CommentMatches(id, p);
    FitsAlways("DNAT", p);
    FitsAlwaysToo(to, p);
    OneOption("--to-destination", to, Comment(id), p);
    OneOption("-j", "DNAT", ["--to-destination", to] + Comment(id), p);
    PortPartMatches(m.protocol, m.hostPort, ["-j", "DNAT"] + (["--to-destination", to] + Comment(id)), p);
  }

  /** Two addresses of a packet, or an interface and one, then a port and a verdict. */
  lemma RestMatches(protocol: string, port: nat, verdict: string, id: string, p: Packet)
    ensures Matches(PortPart(protocol, port, ["-j", verdict] + Comment(id)), p) <==> IsFor(p, protocol, port)
  {
    hide Fits, Matches, PortPart;
    NotNegations();
    CommentMatches(id, p);
    FitsAlways(verdict, p);
    OneOption("-j", verdict, Comment(id), p);
    PortPartMatches(protocol, port, ["-j", verdict] + Comment(id), p);
  }

  lemma HairpinHits(id: string, addr: Ip, m: Mapping, p: Packet)
    ensures Hits(Hairpin(id, FormatIpv4(addr), m), "MYRUN-POST", p) <==>
      p.source == addr && p.dest == addr && IsFor(p, m.protocol, m.containerPort)
  {
    hide Fits, Matches, Hairpin, PortPart, FormatIpv4, Covers;
    var ip := FormatIpv4(addr);
    var rest := PortPart(m.protocol, m.containerPort, ["-j", "MASQUERADE"] + Comment(id));
    HairpinReads(id, ip, m);
    NotNegations();
    FitsAddress(ip, p);
    AddressCoversItself(addr, p.source);
    AddressCoversItself(addr, p.dest);
    RestMatches(m.protocol, m.containerPort, "MASQUERADE", id, p);
    OneOption("-d", ip, rest, p);
    OneOption("-s", ip, ["-d", ip] + rest, p);
  }

  lemma AcceptHits(id: string, bridge: string, addr: Ip, m: Mapping, p: Packet)
    ensures Hits(Accept(id, bridge, FormatIpv4(addr), m), "MYRUN-FWD", p) <==>
      p.output == bridge && p.dest == addr && IsFor(p, m.protocol, m.containerPort)
  {
    hide Fits, Matches, Accept, PortPart, FormatIpv4, Covers;
    var ip := FormatIpv4(addr);
    var rest := PortPart(m.protocol, m.containerPort, ["-j", "ACCEPT"] + Comment(id));
    AcceptReads(id, bridge, ip, m);
    NotNegations();
    FitsAddress(ip, p);
    FitsAddress(bridge, p);
    AddressCoversItself(addr, p.dest);
    RestMatches(m.protocol, m.containerPort, "ACCEPT", id, p);
    OneOption("-d", ip, rest, p);
    OneOption("-o", bridge, ["-d", ip] + rest, p);
  }

  lemma OptionsDiffer()
    ensures "-p" != "-j" && "--dport" != "-j" && "-s" != "-j" && "-d" != "-j" && "-o" != "-j"
    ensures "-p" != "--to-destination" && "--dport" != "--to-destination" && "-j" != "--to-destination"
  {
  }

  lemma PortPartArgument(protocol: string, port: nat, rest: seq<string>, wanted: string)
    requires wanted == "-j" || wanted == "--to-destination"
    ensures Argument(PortPart(protocol, port, rest), wanted) == Argument(rest, wanted)
  {
    hide Argument, Decimal;
    NotNegations();
    OptionsDiffer();
    NextArgument("--dport", Decimal(port), rest, wanted);
    NextArgument("-p", protocol, ["--dport", Decimal(port)] + rest, wanted);
  }

  /** The rule sends the packet to the container's own port. */
  lemma ForwardRedirects(id: string, addr: Ip, m: Mapping, p: Packet)
    requires m.containerPort < 65536
    ensures Target(Forward(id, FormatIpv4(addr), m)) == Some("DNAT")
    ensures Redirected(Forward(id, FormatIpv4(addr), m), p) == Some(p.(dest := addr, port := m.containerPort))
  {
    hide Argument, Forward, PortPart, Comment, Decimal, FormatIpv4, ParseIpv4, SplitOnce, ParseUnsigned;
    var ip := FormatIpv4(addr);
    var to := Destination(ip, m.containerPort);
    var end := ["--to-destination", to] + Comment(id);
    ForwardReads(id, ip, m);
    NotNegations();
    OptionsDiffer();
    NextArgument("--to-destination", to, Comment(id), "--to-destination");
    NextArgument("-j", "DNAT", end, "--to-destination");
    NextArgument("-j", "DNAT", end, "-j");
    PortPartArgument(m.protocol, m.hostPort, ["-j", "DNAT"] + end, "-j");
    PortPartArgument(m.protocol, m.hostPort, ["-j", "DNAT"] + end, "--to-destination");
    NoColon(addr);
    assert to == ip + ([':'] + Decimal(m.containerPort));
    SplitOnceAt(ip, ':', Decimal(m.containerPort));
    Ipv4RoundTrip(addr);
    ParseDecimal(m.containerPort, 65535);
  }

  lemma NoColon(ip: Ip)
    ensures ':' !in FormatIpv4(ip)
  {
    hide Decimal;
    DecimalRoundTrip(ip.a);
    DecimalRoundTrip(ip.b);
    DecimalRoundTrip(ip.c);
    DecimalRoundTrip(ip.d);
  }

  lemma Verdicts(id: string, bridge: string, ip: string, m: Mapping)
    ensures Target(Hairpin(id, ip, m)) == Some("MASQUERADE")
    ensures Target(Accept(id, bridge, ip, m)) == Some("ACCEPT")
  {
    hide Argument, Hairpin, Accept, PortPart, Comment, Decimal;
    HairpinReads(id, ip, m);
    AcceptReads(id, bridge, ip, m);
    NotNegations();
    OptionsDiffer();
    var masquerade := PortPart(m.protocol, m.containerPort, ["-j", "MASQUERADE"] + Comment(id));
    var accept := PortPart(m.protocol, m.containerPort, ["-j", "ACCEPT"] + Comment(id));
    NextArgument("-s", ip, ["-d", ip] + masquerade, "-j");
    NextArgument("-d", ip, masquerade, "-j");
    NextArgument("-o", bridge, ["-d", ip] + accept, "-j");
    NextArgument("-d", ip, accept, "-j");
    PortPartArgument(m.protocol, m.containerPort, ["-j", "MASQUERADE"] + Comment(id), "-j");
    PortPartArgument(m.protocol, m.containerPort, ["-j", "ACCEPT"] + Comment(id), "-j");
    NextArgument("-j", "MASQUERADE", Comment(id), "-j");
    NextArgument("-j", "ACCEPT", Comment(id), "-j");
  }

  // -------------------------------------------------------------------------
  // What a publish does to the chains
  // -------------------------------------------------------------------------

  predicate OfChain(r: Rule, chain: string) { r != [] && r[0] == chain }

  lemma OtherChain(r: Rule, chain: string, p: Packet)
    requires !OfChain(r, chain)
    ensures Alone(r, chain, p) == None
  {
  }

  function Jump(hook: string, chain: string): Rule { [hook, "-j", chain] }

  predicate OwnChain(chain: string) { chain == "MYRUN-PRE" || chain == "MYRUN-POST" || chain == "MYRUN-FWD" }

  /** The jumps and the guard are in chains that are not ours. */
  lemma HooksAreElsewhere(chain: string)
    requires OwnChain(chain)
    ensures !OfChain(Jump("PREROUTING", "MYRUN-PRE"), chain) && !OfChain(Jump("OUTPUT", "MYRUN-PRE"), chain)
    ensures !OfChain(Jump("POSTROUTING", "MYRUN-POST"), chain) && !OfChain(Jump("FORWARD", "MYRUN-FWD"), chain)
    ensures !OfChain(Guard(), chain)
  {
    GuardChain();
    hide Guard;
  }

  lemma GuardChain()
    ensures Guard() != [] && Guard()[0] == "INPUT"
  {
    hide Tag;
  }

  lemma InsertedElsewhere(t: seq<Rule>, r: Rule, chain: string, p: Packet)
    requires !OfChain(r, chain)
    ensures FirstMatch(InsertUnique(t, r), chain, p) == FirstMatch(t, chain, p)
  {
    hide FirstMatch;
    MatchOfInserted(t, r, chain, p);
    OtherChain(r, chain, p);
  }

  lemma HookedKeepsOurChains(t: Tables, chain: string, p: Packet)
    requires OwnChain(chain)
    ensures FirstMatch(Hooked(t).natRules, chain, p) == FirstMatch(t.natRules, chain, p)
    ensures FirstMatch(Hooked(t).filterRules, chain, p) == FirstMatch(t.filterRules, chain, p)
  {
    HooksAreElsewhere(chain);
    hide FirstMatch, Guard, InsertUnique, OfChain, OwnChain;
    var pre, out := Jump("PREROUTING", "MYRUN-PRE"), Jump("OUTPUT", "MYRUN-PRE");
    var n1 := InsertUnique(t.natRules, pre);
    var n2 := InsertUnique(n1, out);
    InsertedElsewhere(t.natRules, pre, chain, p);
    InsertedElsewhere(n1, out, chain, p);
    InsertedElsewhere(n2, Jump("POSTROUTING", "MYRUN-POST"), chain, p);
    var f1 := InsertUnique(t.filterRules, Jump("FORWARD", "MYRUN-FWD"));
    InsertedElsewhere(t.filterRules, Jump("FORWARD", "MYRUN-FWD"), chain, p);
    InsertedElsewhere(f1, Guard(), chain, p);
  }

  lemma ChainsOfRules(id: string, bridge: string, ip: string, m: Mapping)
    ensures !OfChain(Hairpin(id, ip, m), "MYRUN-PRE") && !OfChain(Forward(id, ip, m), "MYRUN-POST")
  {
    ForwardReads(id, ip, m);
    HairpinReads(id, ip, m);
    hide Forward, Hairpin;
  }

  /** A packet that no rule decided before is redirected exactly if it is for the
      published port; every other packet is treated as before. */
  lemma PublishRedirects(t: Tables, id: string, bridge: string, ip: string, m: Mapping, p: Packet)
    ensures FirstMatch(Publish(t, id, bridge, ip, m).natRules, "MYRUN-PRE", p)
         == OrElse(FirstMatch(t.natRules, "MYRUN-PRE", p),
                   if IsFor(p, m.protocol, m.hostPort) then Some(Forward(id, ip, m)) else None)
  {
    hide FirstMatch, Forward, Hairpin, Accept, Hooked, Hits, AppendUnique;
    var h := Hooked(t).natRules;
    HookedKeepsOurChains(t, "MYRUN-PRE", p);
    MatchOfAppended(h, Forward(id, ip, m), "MYRUN-PRE", p);
    MatchOfAppended(AppendUnique(h, Forward(id, ip, m)), Hairpin(id, ip, m), "MYRUN-PRE", p);
    ChainsOfRules(id, bridge, ip, m);
    OtherChain(Hairpin(id, ip, m), "MYRUN-PRE", p);
    ForwardHits(id, ip, m, p);
  }

  /** ... and only what a container sends to its own published port is disguised. */
  lemma PublishMasquerades(t: Tables, id: string, bridge: string, addr: Ip, m: Mapping, p: Packet)
    ensures
      var own := p.source == addr && p.dest == addr && IsFor(p, m.protocol, m.containerPort);
      var rule := Hairpin(id, FormatIpv4(addr), m);
      && FirstMatch(Publish(t, id, bridge, FormatIpv4(addr), m).natRules, "MYRUN-POST", p)
         == OrElse(FirstMatch(t.natRules, "MYRUN-POST", p), if own then Some(rule) else None)
      && Target(rule) == Some("MASQUERADE")
  {
    hide FirstMatch, Forward, Hairpin, Accept, Hooked, Hits, AppendUnique, FormatIpv4, Target;
    var h, ip := Hooked(t).natRules, FormatIpv4(addr);
    HookedKeepsOurChains(t, "MYRUN-POST", p);
    MatchOfAppended(h, Forward(id, ip, m), "MYRUN-POST", p);
    MatchOfAppended(AppendUnique(h, Forward(id, ip, m)), Hairpin(id, ip, m), "MYRUN-POST", p);
    ChainsOfRules(id, bridge, ip, m);
    OtherChain(Forward(id, ip, m), "MYRUN-POST", p);
    HairpinHits(id, addr, m, p);
    Verdicts(id, bridge, ip, m);
  }

  /** ... and let through to the container on its bridge. */
  lemma PublishAccepts(t: Tables, id: string, bridge: string, addr: Ip, m: Mapping, p: Packet)
    ensures
      var through := p.output == bridge && p.dest == addr && IsFor(p, m.protocol, m.containerPort);
      var rule := Accept(id, bridge, FormatIpv4(addr), m);
      && FirstMatch(Publish(t, id, bridge, FormatIpv4(addr), m).filterRules, "MYRUN-FWD", p)
         == OrElse(FirstMatch(t.filterRules, "MYRUN-FWD", p), if through then Some(rule) else None)
      && Target(rule) == Some("ACCEPT")
  {
    hide FirstMatch, Forward, Hairpin, Accept, Hooked, Hits, AppendUnique, FormatIpv4, Target;
    var ip := FormatIpv4(addr);
    HookedKeepsOurChains(t, "MYRUN-FWD", p);
    MatchOfAppended(Hooked(t).filterRules, Accept(id, bridge, ip, m), "MYRUN-FWD", p);
    AcceptHits(id, bridge, addr, m, p);
    Verdicts(id, bridge, ip, m);
  }

  lemma JumpTakesAll(hook: string, chain: string, p: Packet)
    ensures Alone(Jump(hook, chain), hook, p) == Some(Jump(hook, chain)) && Target(Jump(hook, chain)) == Some(chain)
  {
    hide Fits;
    var r := Jump(hook, chain);
    assert r[1..] == ["-j", chain] + [];
    NotNegations();
    FitsAlways(chain, p);
    OneOption("-j", chain, [], p);
    NextArgument("-j", chain, [], "-j");
  }

  lemma InsertedJump(t: seq<Rule>, hook: string, chain: string, p: Packet)
    ensures FirstMatch(InsertUnique(t, Jump(hook, chain)), hook, p)
         == if Jump(hook, chain) in t then FirstMatch(t, hook, p) else Some(Jump(hook, chain))
  {
    hide FirstMatch, Target;
    MatchOfInserted(t, Jump(hook, chain), hook, p);
    JumpTakesAll(hook, chain, p);
  }

  /** Where our jump was not there yet, every packet coming in, sent from the host or
      forwarded goes to our chains first. */
  lemma HooksComeFirst(t: Tables, p: Packet)
    ensures
      var n, jump := Hooked(t).natRules, Jump("PREROUTING", "MYRUN-PRE");
      FirstMatch(n, "PREROUTING", p) ==
      if jump in t.natRules then FirstMatch(t.natRules, "PREROUTING", p) else Some(jump)
    ensures
      var n, jump := Hooked(t).natRules, Jump("OUTPUT", "MYRUN-PRE");
      FirstMatch(n, "OUTPUT", p) ==
      if jump in t.natRules then FirstMatch(t.natRules, "OUTPUT", p) else Some(jump)
    ensures
      var f, jump := Hooked(t).filterRules, Jump("FORWARD", "MYRUN-FWD");
      FirstMatch(f, "FORWARD", p) ==
      if jump in t.filterRules then FirstMatch(t.filterRules, "FORWARD", p) else Some(jump)
  {
    GuardChain();
    var pre, out := Jump("PREROUTING", "MYRUN-PRE"), Jump("OUTPUT", "MYRUN-PRE");
    var post, fwd := Jump("POSTROUTING", "MYRUN-POST"), Jump("FORWARD", "MYRUN-FWD");
    assert !OfChain(out, "PREROUTING") && !OfChain(post, "PREROUTING") && !OfChain(pre, "OUTPUT");
    assert !OfChain(post, "OUTPUT") && !OfChain(Guard(), "FORWARD") && pre != out;
    var n1 := InsertUnique(t.natRules, pre);
    var n2 := InsertUnique(n1, out);
    assert out in n1 <==> out in t.natRules;
    hide FirstMatch, Guard, InsertUnique, OfChain;
    InsertedJump(t.natRules, "PREROUTING", "MYRUN-PRE", p);
    InsertedElsewhere(n1, out, "PREROUTING", p);
    InsertedElsewhere(n2, post, "PREROUTING", p);
    InsertedElsewhere(t.natRules, pre, "OUTPUT", p);
    InsertedJump(n1, "OUTPUT", "MYRUN-PRE", p);
    InsertedElsewhere(n2, post, "OUTPUT", p);
    InsertedJump(t.filterRules, "FORWARD", "MYRUN-FWD", p);
    InsertedElsewhere(InsertUnique(t.filterRules, fwd), Guard(), "FORWARD", p);
  }

  /** A packet for the host's published port that no earlier rule of our chains decides
      goes to the container's port, and is let through there. */
  lemma PublishedPortArrives(t: Tables, id: string, bridge: string, addr: Ip, m: Mapping, p: Packet)
    requires m.containerPort < 65536 && IsFor(p, m.protocol, m.hostPort)
    requires FirstMatch(t.natRules, "MYRUN-PRE", p).None?
    ensures
      var u := Publish(t, id, bridge, FormatIpv4(addr), m);
      var sent := p.(dest := addr, port := m.containerPort);
      var arriving := sent.(output := bridge);
      var rule := FirstMatch(u.natRules, "MYRUN-PRE", p);
      && rule.Some? && Target(rule.value) == Some("DNAT") && Redirected(rule.value, p) == Some(sent)
      && (FirstMatch(t.filterRules, "MYRUN-FWD", arriving).None? ==>
            var pass := FirstMatch(u.filterRules, "MYRUN-FWD", arriving);
            pass.Some? && Target(pass.value) == Some("ACCEPT"))
  {
    hide FirstMatch, Forward, Accept, Publish, Target, Redirected, FormatIpv4;
    PublishRedirects(t, id, bridge, FormatIpv4(addr), m, p);
    ForwardRedirects(id, addr, m, p);
    PublishAccepts(t, id, bridge, addr, m, p.(dest := addr, port := m.containerPort, output := bridge));
  }
}
