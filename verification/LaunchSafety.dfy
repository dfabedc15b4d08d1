/** What holds in every state of every launch: the order of the two processes'
steps, and what the undo stack still owes. */
module LaunchSafety {
  import opened Wrappers
  import opened Launch

  // -------------------------------------------------------------------------
  // The protocol invariant
  // -------------------------------------------------------------------------

  predicate BeforeTakingGo(i: InitPc) {
    i.Unborn? || i.Fresh? || i.Configuring? || i.SendingReady? || i.BeforeGo? || i.AwaitingGo?
  }

  predicate PastGo(i: InitPc) { i.AfterGo? || i.SettingUp? || PastMount(i) }
  predicate PastMount(i: InitPc) { i.Forking? || PastFork(i) }
  predicate PastFork(i: InitPc) { i.SendingStarted? || i.Supervising? || i.SendingExit? }

  /** What init has written, from where it stands. */
  predicate SaidSoFar(i: InitPc, up: seq<Msg>) {
    && (i.Unborn? || i.Fresh? || i.Configuring? || i.SendingReady? ==> |up| == 0)
    && (i.BeforeGo? || i.AwaitingGo? || i.AfterGo? || i.SettingUp? || i.Forking? || i.SendingStarted? ==> |up| == 1)
    && (i.Supervising? || i.SendingExit? ==> |up| == 2)
    && (i.SendingError? ==> |up| <= 1)
    && (|up| >= 1 ==> up[0].Ready? || (i.Exited? && up[0].Error? && |up| == 1))
    && (|up| >= 2 ==> up[1].Started? || (i.Exited? && up[1].Error? && |up| == 2))
    && (|up| >= 3 ==> i.Exited? && up[2].Exit? && |up| == 3)
  }

  /** The network steps are for bridged containers. */
  predicate Possible(c: Config, at: Pc) {
    && (Stage(Bridge) <= Stage(at) <= Stage(Publish(0)) ==> c.bridge)
    && (at.Publish? ==> at.k <= |c.wanted|)
  }

  /** How far each side can be, given how far the other is. */
  predicate Protocol(c: Config, p: Procs) {
    && (p.init.Unborn? <==> Stage(p.at) <= Stage(Clone))
    && (if Stage(p.at) <= Stage(SendGo) then |p.down| == 0 else |p.down| == 1 && p.down[0].Go?)
    && p.taken <= |p.down|
    && (BeforeTakingGo(p.init) ==> p.taken == 0)
    && (PastGo(p.init) ==> p.taken == 1)
    && SaidSoFar(p.init, p.up)
    && p.heard <= |p.up|
    && (p.mode.Going? ==>
          p.heard ==
          if Stage(p.at) <= Stage(AwaitReady) then 0 else if Stage(p.at) <= Stage(AwaitStarted) then 1 else 2)
    && (Stage(p.at) > Stage(AwaitReady) ==> |p.up| >= 1 && p.up[0].Ready?)
    && (Stage(p.at) > Stage(AwaitStarted) ==> |p.up| >= 2 && p.up[1].Started?)
    && Possible(c, p.at)
  }

  predicate Facts(c: Config, p: Procs) {
    && (p.netstate <==> Stage(p.at) > Stage(Netstate))
    && (p.recorded <==> Stage(p.at) > Stage(Save))
    && (p.mounted ==> p.taken == 1)
    && (p.forked ==> p.mounted)
    && (PastMount(p.init) ==> p.mounted)
    && (PastFork(p.init) ==> p.forked)
    && (|p.up| >= 2 && p.up[1].Started? ==> p.forked)
    && (p.workload ==> p.forked)
    && (p.workload && c.pidNs ==> Alive(p.init))
    && (p.inside ==> p.hasCgroup)
    && (p.hasFd ==> p.hasCgroup)
    && (c.limits && Stage(p.at) > Stage(MkCgroup) ==> p.hasCgroup)
    && (p.init.SendingExit? || |p.up| >= 3 ==> !p.workload)
    && (p.mode.Dead? && Alive(p.init) ==> |p.down| == 0)
    && (p.mode.Dead? && p.workload ==> !c.pidNs)
  }

  // -------------------------------------------------------------------------
  // The undo invariant
  // -------------------------------------------------------------------------

  function PushIf(rb: seq<Undo>, on: bool, u: Undo): seq<Undo> {
    if on then rb + [u] else rb
  }

  function Layers(cgroup: bool, process: bool, lease: bool, veth: bool, rules: bool, network: bool): seq<Undo> {
    var rb := PushIf(PushIf(PushIf([], cgroup, UndoCgroup), process, UndoProcess), lease, UndoLease);
    PushIf(PushIf(PushIf(rb, veth, UndoVeth), rules, UndoRules), network, UndoNetwork)
  }

  /** What the stack holds while the launch is at `at`. */
  function Owed(c: Config, hasCgroup: bool, at: Pc): seq<Undo> {
    var n := Stage(at);
    if at.Done? then [] else
      Layers(hasCgroup && n > Stage(Limits), n > Stage(Register),
             c.bridge && n > Stage(Lease), c.bridge && n > Stage(Veth),
             c.bridge && c.wanted != [] && n > Stage(Publish(0)), n > Stage(NetDone))
  }

  /** Some undo on the stack will release `r`. */
  predicate Covered(c: Config, rb: seq<Undo>, r: Resource) {
    rb != [] && (r in Targets(c, rb[|rb| - 1]) || Covered(c, rb[..|rb| - 1], r))
  }

  /** The resources a launch that fails at `at` has to give back. */
  predicate Demanded(c: Config, hasCgroup: bool, at: Pc, r: Resource) {
    var n := Stage(at);
    match r
    case RCgroup => hasCgroup && n > Stage(Limits)
    case RProcess => n > Stage(Register)
    case RLease => n > Stage(NetDone) || (c.bridge && n > Stage(Lease))
    case RVeth => c.bridge && n > Stage(Veth)
    case RRules => c.bridge && (n > Stage(NetDone) || (n == Stage(NetDone) && c.wanted != []))
  }

  /** How many of the wanted rules have been added. */
  function Published(c: Config, at: Pc): nat {
    if !c.bridge || Stage(at) < Stage(Publish(0)) then 0
    else if at.Publish? && at.k <= |c.wanted| then at.k else |c.wanted|
  }

  /** What the container holds while the launch is under way. */
  predicate Holding(c: Config, own0: Own, own: Own, p: Procs) {
    && own.cgroup == (p.hasCgroup || own0.cgroup)
    && (p.at.MkCgroup? ==> !p.hasCgroup)
    && (p.at.Limits? ==> p.hasCgroup)
    && (if c.bridge && Stage(p.at) > Stage(Lease)
        then own.lease.Some? && (own0.lease.Some? ==> own.lease == own0.lease)
        else own.lease == own0.lease)
    && (if c.bridge && Stage(p.at) > Stage(Veth) then own.veth || !PeerOpen(p) else own.veth == own0.veth)
    && own.rules == AddBodies(own0.rules, c.wanted[..Published(c, p.at)])
  }

  /** What is left of a resource that no undo on the stack will touch again. */
  predicate Settled(c: Config, own0: Own, own: Own, p: Procs, r: Resource) {
    var owed := Demanded(c, p.hasCgroup, p.at, r);
    match r
    case RCgroup => own.cgroup ==> own0.cgroup && !p.hasCgroup
    case RLease => own.lease.Some? ==> own.lease == own0.lease && !owed
    case RVeth => own.veth ==> own0.veth && !owed
    case RRules => own.rules == if owed then [] else AddBodies(own0.rules, c.wanted[..Published(c, p.at)])
    case RProcess => Alive(p.init) ==> p.at.Register?
  }

  predicate Pending(c: Config, rb: seq<Undo>, stuck: set<Resource>, r: Resource) {
    Covered(c, rb, r) || r in stuck
  }

  predicate Unwound(c: Config, own0: Own, own: Own, p: Procs, rb: seq<Undo>, stuck: set<Resource>) {
    && (forall r :: Pending(c, rb, stuck, r) || Settled(c, own0, own, p, r))
    && (p.inside && PeerOpen(p) ==> Pending(c, rb, stuck, RCgroup))
    && (Covered(c, rb, RRules) ==> Demanded(c, p.hasCgroup, p.at, RRules))
  }

  ghost predicate Stack(c: Config, h0: Host, s: State) {
    match s.p.mode
    case Going =>
      s.rb == Owed(c, s.p.hasCgroup, s.p.at) && s.stuck == {} && Holding(c, Mine(c, h0), Mine(c, s.host), s.p)
    case Unwinding => Unwound(c, Mine(c, h0), Mine(c, s.host), s.p, s.rb, s.stuck)
    case Dead => true
  }

  ghost predicate Inv(c: Config, h0: Host, s: State) {
    Ordered(c, s.p) && Stack(c, h0, s)
  }

  // -------------------------------------------------------------------------
  // Preservation: protocol
  // -------------------------------------------------------------------------

  predicate Ordered(c: Config, p: Procs) { Protocol(c, p) && Facts(c, p) }

  /** The next step is the next stage, as far as the protocol can tell. */
  lemma NextStage(c: Config, at: Pc, flag: bool)
    requires Possible(c, at) && !at.Done? && !at.AwaitReady? && !at.AwaitStarted?
    ensures
      var next := NextPc(c, at, flag);
      && Possible(c, next)
      && (Stage(next) <= Stage(Clone) <==> Stage(at) < Stage(Clone))
      && (Stage(next) <= Stage(AwaitReady) <==> Stage(at) <= Stage(AwaitReady))
      && (Stage(next) <= Stage(Netstate) <==> Stage(at) < Stage(Netstate))
      && (Stage(next) <= Stage(SendGo) <==> Stage(at) < Stage(SendGo))
      && (Stage(next) <= Stage(AwaitStarted) <==> Stage(at) <= Stage(AwaitStarted))
      && (Stage(next) <= Stage(Save) <==> Stage(at) < Stage(Save))
  {
  }

  lemma StageNumbers(at: Pc)
    ensures Stage(Clone) == 3 && Stage(AwaitReady) == 6 && Stage(Netstate) == 14 && Stage(SendGo) == 15
    ensures Stage(AwaitStarted) == 16 && Stage(Save) == 17
    ensures Stage(MkCgroup) == 0 && (Stage(at) == 0 <==> at.MkCgroup?)
    ensures (Stage(at) == 3 <==> at.Clone?) && (Stage(at) == 14 <==> at.Netstate?)
    ensures (Stage(at) == 15 <==> at.SendGo?) && (Stage(at) == 17 <==> at.Save?)
  {
  }

  lemma ParentOkKeepsOrder(c: Config, s: State, flag: bool, addr: nat)
    requires Ordered(c, s.p) && Enabled(c, s, POk(flag, addr))
    ensures Ordered(c, ParentMoves(c, s.p, flag))
  {
    hide Ordered, ParentMoves;
    MovesKeepOrder(c, s.p, flag);
  }

  lemma MovesKeepOrder(c: Config, p: Procs, flag: bool)
    requires Ordered(c, p) && p.mode.Going? && !p.at.Done? && !p.at.AwaitReady? && !p.at.AwaitStarted?
    requires p.at.MkCgroup? ==> flag || !c.limits
    ensures Ordered(c, ParentMoves(c, p, flag))
  {
    hide NextPc, Stage, Possible;
    NextStage(c, p.at, flag);
    StageNumbers(p.at);
  }

  lemma ParentFailKeepsOrder(c: Config, p: Procs)
    requires Ordered(c, p) && p.mode.Going?
    ensures Ordered(c, p.(mode := Unwinding))
  {
  }

  lemma ParentRecvKeepsOrder(c: Config, s: State)
    requires Ordered(c, s.p) && Enabled(c, s, PRecv)
    ensures Ordered(c, ParentRecv(c, s.p))
  {
    RecvKeepsProtocol(c, s);
    RecvKeepsFacts(c, s);
    hide Protocol, Facts, ParentRecv, Enabled;
  }

  lemma RecvKeepsProtocol(c: Config, s: State)
    requires Ordered(c, s.p) && Enabled(c, s, PRecv)
    ensures Protocol(c, ParentRecv(c, s.p))
  {
    hide Facts;
  }

  lemma RecvKeepsFacts(c: Config, s: State)
    requires Ordered(c, s.p) && Enabled(c, s, PRecv)
    ensures Facts(c, ParentRecv(c, s.p))
  {
    hide SaidSoFar, Possible;
  }

  lemma ParentDiesKeepsOrder(c: Config, p: Procs)
    requires Ordered(c, p)
    ensures Ordered(c, ParentDies(c, p))
  {
  }

  lemma ReapedKeepsOrder(c: Config, p: Procs, worked: set<Resource>)
    requires Ordered(c, p)
    ensures Ordered(c, Reaped(c, p, worked))
  {
  }

  lemma EndKeepsOrder(c: Config, p: Procs)
    requires Ordered(c, p)
    ensures Alive(p.init) ==> Ordered(c, EndInit(c, p))
    ensures Ordered(c, p.(workload := false))
  {
  }

  lemma SayingKeepsOrder(c: Config, p: Procs)
    requires Ordered(c, p) && Sending(p.init) && p.mode.Going?
    ensures Ordered(c, InitOk(c, p))
  {
  }

  lemma WorkingKeepsOrder(c: Config, p: Procs)
    requires Ordered(c, p) && Alive(p.init) && !p.init.AwaitingGo? && !Sending(p.init)
    requires p.init.Supervising? ==> !p.workload
    ensures Ordered(c, InitOk(c, p))
  {
    hide Stage;
  }

  lemma InitOkKeepsOrder(c: Config, s: State)
    requires Ordered(c, s.p) && Enabled(c, s, IOk)
    ensures Ordered(c, InitOk(c, s.p))
  {
    hide Ordered, InitOk;
    if Sending(s.p.init) {
      SayingKeepsOrder(c, s.p);
    } else {
      WorkingKeepsOrder(c, s.p);
    }
  }

  lemma InitFailKeepsOrder(c: Config, s: State)
    requires Ordered(c, s.p) && Enabled(c, s, IFail)
    ensures Ordered(c, InitFail(c, s.p))
  {
  }

  lemma InitRecvKeepsOrder(c: Config, s: State)
    requires Ordered(c, s.p) && Enabled(c, s, IRecv)
    ensures Ordered(c, InitRecv(s.p))
  {
  }

  // -------------------------------------------------------------------------
  // What the steps do to the host
  // -------------------------------------------------------------------------

  lemma {:induction false} BodiesAreTheRulesOf(rules: seq<Rule>, id: string, b: string)
    ensures Rule(id, b) in rules <==> b in Bodies(rules, id)
  {
    if rules != [] {
      var n := |rules| - 1;
      BodiesAreTheRulesOf(rules[..n], id, b);
      assert rules == rules[..n] + [rules[n]];
    }
  }

  lemma {:induction false} ForeignHasNoBodies(rules: seq<Rule>, id: string)
    ensures Bodies(Foreign(rules, id), id) == []
    ensures Foreign(Foreign(rules, id), id) == Foreign(rules, id)
  {
    if rules != [] {
      var n := |rules| - 1;
      ForeignHasNoBodies(rules[..n], id);
      if rules[n].owner != id {
        assert Foreign(rules, id)[..|Foreign(rules, id)| - 1] == Foreign(rules[..n], id);
      }
    }
  }

  /** Adding one of our rules adds its body to ours, once, and nothing to theirs. */
  lemma AddRuleIs(rules: seq<Rule>, id: string, b: string)
    ensures Bodies(AddRule(rules, Rule(id, b)), id) == AddBody(Bodies(rules, id), b)
    ensures Foreign(AddRule(rules, Rule(id, b)), id) == Foreign(rules, id)
  {
    BodiesAreTheRulesOf(rules, id, b);
    var more := rules + [Rule(id, b)];
    assert more[..|more| - 1] == rules;
  }

  predicate Gains(c: Config, own: Own, own': Own, pc: Pc, flag: bool, addr: nat) {
    && own'.cgroup == (own.cgroup || (pc.MkCgroup? && flag))
    && own'.lease == (if pc.Lease? && own.lease.None? then Some(addr) else own.lease)
    && own'.veth == (own.veth || pc.Veth?)
    && own'.rules == if pc.Publish? && pc.k < |c.wanted| then AddBody(own.rules, c.wanted[pc.k]) else own.rules
  }

  lemma AcquiredIs(c: Config, h: Host, pc: Pc, flag: bool, addr: nat)
    ensures Others(c, Acquired(c, h, pc, flag, addr)) == Others(c, h)
    ensures Gains(c, Mine(c, h), Mine(c, Acquired(c, h, pc, flag, addr)), pc, flag, addr)
  {
    if pc.Publish? && pc.k < |c.wanted| {
      AddRuleIs(h.rules, c.id, c.wanted[pc.k]);
    }
  }

  predicate Loses(own: Own, own': Own, done: set<Resource>) {
    && own'.cgroup == (own.cgroup && RCgroup !in done)
    && own'.lease == (if RLease in done then None else own.lease)
    && own'.veth == (own.veth && RVeth !in done)
    && own'.rules == if RRules in done then [] else own.rules
  }

  lemma ReleasedIs(c: Config, h: Host, done: set<Resource>)
    ensures Others(c, ReleaseHost(c, h, done)) == Others(c, h)
    ensures Loses(Mine(c, h), Mine(c, ReleaseHost(c, h, done)), done)
  {
    ForeignHasNoBodies(h.rules, c.id);
  }

  /** ... and an undo that may leave some of the rules. */
  predicate Undone(own: Own, own': Own, targets: set<Resource>, done: set<Resource>) {
    && own'.cgroup == (own.cgroup && RCgroup !in targets * done)
    && own'.lease == (if RLease in targets * done then None else own.lease)
    && own'.veth == (own.veth && RVeth !in targets * done)
    && (RRules in targets * done ==> own'.rules == [])
    && (RRules !in targets ==> own'.rules == own.rules)
  }

  lemma UndoneIs(c: Config, h: Host, u: Undo, l: Luck)
    requires CanLeave(c, h, u, l)
    ensures Others(c, UndoHost(c, h, u, l)) == Others(c, h)
    ensures Undone(Mine(c, h), Mine(c, UndoHost(c, h, u, l)), Targets(c, u), l.done)
  {
    ReleasedIs(c, h, Targets(c, u) * l.done);
  }

  /** No step of ours changes what belongs to anyone else. */
  lemma OthersAreLeftAlone(c: Config, s: State, e: Event)
    requires Enabled(c, s, e) && !e.Env?
    ensures Others(c, Apply(c, s, e).host) == Others(c, s.host)
  {
    match e {
      case POk(flag, addr) => AcquiredIs(c, s.host, s.p.at, flag, addr);
      case PFail(_) =>
        ReleasedIs(c, s.host, {RCgroup});
        ReleasedIs(c, s.host, {RVeth});
        ReleasedIs(c, s.host, {});
      case PUndo(l) => UndoneIs(c, s.host, s.rb[|s.rb| - 1], l);
      case _ =>
    }
  }

  // -------------------------------------------------------------------------
  // Preservation: resources
  // -------------------------------------------------------------------------

  /** Pushing the next layer. */
  lemma LayersGrow(b1: bool, b3: bool, b4: bool, b5: bool)
    ensures Layers(true, false, false, false, false, false)
            == Layers(false, false, false, false, false, false) + [UndoCgroup]
    ensures Layers(b1, true, false, false, false, false)
            == Layers(b1, false, false, false, false, false) + [UndoProcess]
    ensures Layers(b1, true, true, false, false, false) == Layers(b1, true, false, false, false, false) + [UndoLease]
    ensures Layers(b1, true, true, true, false, false) == Layers(b1, true, true, false, false, false) + [UndoVeth]
    ensures Layers(b1, true, true, true, true, false) == Layers(b1, true, true, true, false, false) + [UndoRules]
    ensures Layers(b1, true, b3, b4, b5, true) == Layers(b1, true, b3, b4, b5, false) + [UndoNetwork]
  {
  }

  lemma OwedGrows(c: Config, had: bool, has: bool, at: Pc, flag: bool)
    requires Possible(c, at) && !at.Done? && !at.AfterStart?
    requires if at.MkCgroup? then !had && has == flag else has == had && (at.Limits? ==> has)
    ensures Owed(c, has, NextPc(c, at, flag)) == Owed(c, had, at) + Pushed(c, at)
  {
    hide Layers;
    LayersGrow(had, c.bridge, c.bridge, c.bridge && c.wanted != []);
    var now := Owed(c, had, at);
    assert now + [] == now;
  }

  lemma OneMoreBody(bodies: seq<string>, more: seq<string>, k: nat)
    requires k < |more|
    ensures AddBodies(bodies, more[..k + 1]) == AddBody(AddBodies(bodies, more[..k]), more[k])
  {
    assert more[..k + 1][..k] == more[..k];
  }

  lemma PublishedGrows(c: Config, rules0: seq<string>, at: Pc, flag: bool)
    requires Possible(c, at) && !at.Done?
    ensures
      var rules := AddBodies(rules0, c.wanted[..Published(c, at)]);
      AddBodies(rules0, c.wanted[..Published(c, NextPc(c, at, flag))])
      == if at.Publish? && at.k < |c.wanted| then AddBody(rules, c.wanted[at.k]) else rules
  {
    if at.Publish? && at.k < |c.wanted| {
      OneMoreBody(rules0, c.wanted, at.k);
    } else {
      assert Published(c, NextPc(c, at, flag)) == Published(c, at);
    }
  }

  lemma ParentOkHolds(c: Config, own0: Own, own: Own, own': Own, p: Procs, flag: bool, addr: nat)
    requires Possible(c, p.at) && !p.at.Done?
    requires Holding(c, own0, own, p) && Gains(c, own, own', p.at, flag, addr)
    ensures Holding(c, own0, own', ParentMoves(c, p, flag))
  {
    hide AddBodies, Published;
    PublishedGrows(c, own0.rules, p.at, flag);
  }

  // A failing step hands over to the undo stack.

  lemma CoveredPush(c: Config, rb: seq<Undo>, on: bool, u: Undo, r: Resource)
    ensures Covered(c, PushIf(rb, on, u), r) <==> (on && r in Targets(c, u)) || Covered(c, rb, r)
  {
    assert (rb + [u])[..|rb|] == rb;
  }

  lemma LayersCover(c: Config, b1: bool, b2: bool, b3: bool, b4: bool, b5: bool, b6: bool, r: Resource)
    ensures Covered(c, Layers(b1, b2, b3, b4, b5, b6), r) <==>
      || (b1 && r.RCgroup?) || (b2 && r.RProcess?) || (b3 && r.RLease?)
      || (b4 && r.RVeth?) || (b5 && r.RRules?) || (b6 && r in Targets(c, UndoNetwork))
  {
    hide Covered, PushIf;
    var s1 := PushIf([], b1, UndoCgroup);
    var s2 := PushIf(s1, b2, UndoProcess);
    var s3 := PushIf(s2, b3, UndoLease);
    var s4 := PushIf(s3, b4, UndoVeth);
    var s5 := PushIf(s4, b5, UndoRules);
    CoveredPush(c, [], b1, UndoCgroup, r);
    CoveredPush(c, s1, b2, UndoProcess, r);
    CoveredPush(c, s2, b3, UndoLease, r);
    CoveredPush(c, s3, b4, UndoVeth, r);
    CoveredPush(c, s4, b5, UndoRules, r);
    CoveredPush(c, s5, b6, UndoNetwork, r);
    assert !Covered(c, [], r) by { NothingCovered(c, r); }
  }

  lemma NothingCovered(c: Config, r: Resource)
    ensures !Covered(c, [], r)
  {
  }

  lemma StageOrder()
    ensures Stage(Limits) == 1 && Stage(Register) == 4 && Stage(Lease) == 8 && Stage(Veth) == 9
    ensures Stage(Publish(0)) == 12 && Stage(NetDone) == 13
  {
  }

  lemma OwedCovers(c: Config, has: bool, at: Pc, r: Resource)
    requires !at.Done?
    ensures Covered(c, Owed(c, has, at), r) <==> Demanded(c, has, at, r)
  {
    hide Covered, Layers, Stage;
    StageOrder();
    var n := Stage(at);
    LayersCover(c, has && n > Stage(Limits), n > Stage(Register),
             c.bridge && n > Stage(Lease), c.bridge && n > Stage(Veth),
             c.bridge && c.wanted != [] && n > Stage(Publish(0)), n > Stage(NetDone), r);
  }

  /** What a failing step may take away itself, and what it may fail to take away. */
  predicate FailsWith(at: Pc, done: set<Resource>, stuck: set<Resource>) {
    if at.Limits? then (done == {RCgroup} && stuck == {}) || (done == {} && stuck == {RCgroup})
    else stuck == {} && (done == {} || (at.MkCgroup? && done == {RCgroup}) || (at.Veth? && done == {RVeth}))
  }

  lemma FailureUnwinds(c: Config, own0: Own, own: Own, own': Own, p: Procs, done: set<Resource>, stuck: set<Resource>)
    requires Ordered(c, p) && !p.at.Done? && Holding(c, own0, own, p)
    requires FailsWith(p.at, done, stuck) && Loses(own, own', done)
    ensures Unwound(c, own0, own', p, Owed(c, p.hasCgroup, p.at), stuck)
  {
    hide AddBodies, Published, Covered, Owed;
    forall r ensures Pending(c, Owed(c, p.hasCgroup, p.at), stuck, r) || Settled(c, own0, own', p, r) {
      OwedCovers(c, p.hasCgroup, p.at, r);
    }
    OwedCovers(c, p.hasCgroup, p.at, RCgroup);
    OwedCovers(c, p.hasCgroup, p.at, RRules);
  }

  lemma UndoSettles(c: Config, own0: Own, own: Own, own': Own, s: State, l: Luck)
    requires Ordered(c, s.p) && s.rb != [] && Unwound(c, own0, own, s.p, s.rb, s.stuck)
    requires Undone(own, own', Targets(c, s.rb[|s.rb| - 1]), l.done)
    ensures
      var t := ParentUndo(c, s, l);
      Unwound(c, own0, own', t.p, t.rb, t.stuck)
  {
    hide AddBodies, Published, Protocol, UndoHost;
    var t := ParentUndo(c, s, l);
    forall r ensures Pending(c, t.rb, t.stuck, r) || Settled(c, own0, own', t.p, r) {
      assert Pending(c, s.rb, s.stuck, r) || Settled(c, own0, own, s.p, r);
    }
  }

  // Everything else leaves the host and the stack alone and starts nothing new.

  predicate OnlyEnds(p: Procs, q: Procs) {
    && q.mode == p.mode && q.at == p.at && q.hasCgroup == p.hasCgroup && q.inside == p.inside
    && (Alive(q.init) ==> Alive(p.init))
    && (PeerOpen(q) ==> PeerOpen(p))
  }

  lemma EndingKeepsStack(c: Config, h0: Host, s: State, q: Procs)
    requires Stack(c, h0, s) && OnlyEnds(s.p, q)
    ensures Stack(c, h0, s.(p := q))
  {
    hide AddBodies, Published, Mine;
    if s.p.mode.Unwinding? {
      var own0, own := Mine(c, h0), Mine(c, s.host);
      forall r ensures Pending(c, s.rb, s.stuck, r) || Settled(c, own0, own, q, r) {
        assert Pending(c, s.rb, s.stuck, r) || Settled(c, own0, own, s.p, r);
      }
    }
  }

  lemma HostChangeKeepsStack(c: Config, h0: Host, s: State, h: Host)
    requires Stack(c, h0, s)
    requires
      || Mine(c, h) == Mine(c, s.host)
      || (&& Mine(c, h) == Mine(c, s.host).(veth := false)
          && c.bridge && Stage(s.p.at) >= Stage(Link) && !PeerOpen(s.p))
    ensures Stack(c, h0, s.(host := h))
  {
    hide AddBodies, Published;
    if s.p.mode.Unwinding? {
      var own0, own := Mine(c, h0), Mine(c, s.host);
      forall r ensures Pending(c, s.rb, s.stuck, r) || Settled(c, own0, Mine(c, h), s.p, r) {
        assert Pending(c, s.rb, s.stuck, r) || Settled(c, own0, own, s.p, r);
      }
    }
  }

  // -------------------------------------------------------------------------
  // Every event keeps the invariant
  // -------------------------------------------------------------------------

  lemma ParentOkKeepsInv(c: Config, h0: Host, s: State, flag: bool, addr: nat)
    requires Inv(c, h0, s) && Enabled(c, s, POk(flag, addr))
    ensures Inv(c, h0, ParentOk(c, s, flag, addr))
  {
    hide Facts, Mine, Acquired, Owed, Holding, Gains, Pushed;
    ParentOkKeepsOrder(c, s, flag, addr);
    AcquiredIs(c, s.host, s.p.at, flag, addr);
    var own0, own := Mine(c, h0), Mine(c, s.host);
    ParentOkHolds(c, own0, own, Mine(c, Acquired(c, s.host, s.p.at, flag, addr)), s.p, flag, addr);
    StackGrows(c, own0, own, s, flag);
  }

  lemma StackGrows(c: Config, own0: Own, own: Own, s: State, flag: bool)
    requires Possible(c, s.p.at) && !s.p.at.Done? && Holding(c, own0, own, s.p)
    requires s.rb == Owed(c, s.p.hasCgroup, s.p.at)
    ensures
      var q := ParentMoves(c, s.p, flag);
      (if s.p.at.AfterStart? then [] else s.rb + Pushed(c, s.p.at)) == Owed(c, q.hasCgroup, q.at)
  {
    hide AddBodies, Published, Pushed, Layers;
    if !s.p.at.AfterStart? {
      OwedGrows(c, s.p.hasCgroup, ParentMoves(c, s.p, flag).hasCgroup, s.p.at, flag);
    }
  }

  lemma ParentFailKeepsInv(c: Config, h0: Host, s: State, flag: bool)
    requires Inv(c, h0, s) && Enabled(c, s, PFail(flag))
    ensures Inv(c, h0, ParentFail(c, s, flag))
  {
    hide Mine, Owed, Holding, Loses, ReleaseHost, Facts, Protocol, Unwound;
    var t := ParentFail(c, s, flag);
    ParentFailKeepsOrder(c, s.p);
    var done: set<Resource> :=
      if !flag then {}
      else if s.p.at.MkCgroup? || s.p.at.Limits? then {RCgroup}
      else if s.p.at.Veth? then {RVeth} else {};
    ReleasedIs(c, s.host, done);
    FailureUnwinds(c, Mine(c, h0), Mine(c, s.host), Mine(c, t.host), s.p, done, t.stuck);
    ModeIsNotLeftover(c, Mine(c, h0), Mine(c, t.host), s.p, t.p, t.rb, t.stuck);
  }

  lemma NothingLost(own: Own)
    ensures Loses(own, own, {})
  {
  }

  lemma ModeIsNotLeftover(c: Config, own0: Own, own: Own, p: Procs, q: Procs, rb: seq<Undo>, stuck: set<Resource>)
    requires Unwound(c, own0, own, p, rb, stuck)
    requires q.at == p.at && q.hasCgroup == p.hasCgroup && q.inside == p.inside
    requires q.init == p.init && q.workload == p.workload
    ensures Unwound(c, own0, own, q, rb, stuck)
  {
    hide AddBodies, Published;
    forall r ensures Pending(c, rb, stuck, r) || Settled(c, own0, own, q, r) {
      assert Pending(c, rb, stuck, r) || Settled(c, own0, own, p, r);
    }
  }

  lemma ParentRecvKeepsInv(c: Config, h0: Host, s: State)
    requires Inv(c, h0, s) && Enabled(c, s, PRecv)
    ensures Inv(c, h0, s.(p := ParentRecv(c, s.p)))
  {
    hide Mine, Loses, Facts, Unwound, Owed, Holding;
    ParentRecvKeepsOrder(c, s);
    var q := ParentRecv(c, s.p);
    var own0, own := Mine(c, h0), Mine(c, s.host);
    NothingLost(own);
    if q.mode.Unwinding? {
      FailureUnwinds(c, own0, own, own, s.p, {}, {});
      ModeIsNotLeftover(c, own0, own, s.p, q, s.rb, s.stuck);
    } else {
      RecvHolds(c, own0, own, s.p, q);
    }
  }

  lemma RecvHolds(c: Config, own0: Own, own: Own, p: Procs, q: Procs)
    requires Holding(c, own0, own, p) && Possible(c, p.at)
    requires (p.at.AwaitReady? && q.at == if c.bridge then Bridge else NetDone) || (p.at.AwaitStarted? && q.at == Save)
    requires q.hasCgroup == p.hasCgroup && q.init == p.init && q.workload == p.workload
    ensures Holding(c, own0, own, q) && Owed(c, q.hasCgroup, q.at) == Owed(c, p.hasCgroup, p.at)
  {
    hide AddBodies, Published, Layers;
    PublishedGrows(c, own0.rules, p.at, true);
  }

  lemma ParentUndoKeepsInv(c: Config, h0: Host, s: State, l: Luck)
    requires Inv(c, h0, s) && Enabled(c, s, PUndo(l))
    ensures Inv(c, h0, ParentUndo(c, s, l))
  {
    hide Mine, Undone, Facts, Protocol, Unwound, UndoHost, CanLeave;
    var u := s.rb[|s.rb| - 1];
    ReapedKeepsOrder(c, s.p, Targets(c, u) * l.done);
    UndoneIs(c, s.host, u, l);
    UndoSettles(c, Mine(c, h0), Mine(c, s.host), Mine(c, UndoHost(c, s.host, u, l)), s, l);
  }

  lemma InitKeepsInv(c: Config, h0: Host, s: State, e: Event)
    requires Inv(c, h0, s) && Enabled(c, s, e) && (e.IOk? || e.IFail? || e.IRecv? || e.IDies? || e.WEnds?)
    ensures Inv(c, h0, Apply(c, s, e))
  {
    var q := Apply(c, s, e).p;
    hide Mine, Facts, Protocol, Stack;
    match e {
      case IOk => InitOkKeepsOrder(c, s);
      case IFail => InitFailKeepsOrder(c, s);
      case IRecv => InitRecvKeepsOrder(c, s);
      case IDies => EndKeepsOrder(c, s.p);
      case WEnds => EndKeepsOrder(c, s.p);
    }
    EndingKeepsStack(c, h0, s, q);
  }

  lemma StepKeepsInv(c: Config, h0: Host, s: State, e: Event)
    requires Inv(c, h0, s) && Enabled(c, s, e)
    ensures Inv(c, h0, Apply(c, s, e))
  {
    hide Protocol, Facts, ParentOk, ParentFail, ParentUndo, ParentRecv, Unwound, Holding, Owed;
    match e {
      case POk(flag, addr) => ParentOkKeepsInv(c, h0, s, flag, addr);
      case PFail(flag) => ParentFailKeepsInv(c, h0, s, flag);
      case PRecv => ParentRecvKeepsInv(c, h0, s);
      case PUndo(l) => ParentUndoKeepsInv(c, h0, s, l);
      case PDies => ParentDiesKeepsOrder(c, s.p);
      case Vanish => HostChangeKeepsStack(c, h0, s, Apply(c, s, e).host);
      case Env(h) => HostChangeKeepsStack(c, h0, s, h);
      case _ => InitKeepsInv(c, h0, s, e);
    }
  }

  lemma {:induction false} EveryRunKeepsInv(c: Config, h0: Host, es: seq<Event>)
    ensures
      var r := After(c, Start(h0), es);
      r.Some? ==> Inv(c, h0, r.value)
  {
    if es != [] {
      EveryRunKeepsInv(c, h0, es[..|es| - 1]);
      var t := After(c, Start(h0), es[..|es| - 1]);
      if t.Some? && Enabled(c, t.value, es[|es| - 1]) {
        StepKeepsInv(c, h0, t.value, es[|es| - 1]);
      }
    }
  }
}
