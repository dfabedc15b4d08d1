/** What a launch promises, over every run: the order of the two processes, that
neither waits for the other for ever, and what a failure leaves behind. */
module LaunchTheorems {
  import opened Wrappers
  import opened Launch
  import opened LaunchSafety
  import Rollback

  ghost predicate Reachable(c: Config, h0: Host, s: State) {
    exists es :: After(c, Start(h0), es) == Some(s)
  }

  lemma ReachableHolds(c: Config, h0: Host, s: State)
    requires Reachable(c, h0, s)
    ensures Inv(c, h0, s)
  {
    var es :| After(c, Start(h0), es) == Some(s);
    EveryRunKeepsInv(c, h0, es);
  }

  // -------------------------------------------------------------------------
  // Order
  // -------------------------------------------------------------------------

  lemma {:induction false} AddedBodiesAreThere(bodies: seq<string>, more: seq<string>)
    ensures forall b :: b in more ==> b in AddBodies(bodies, more)
  {
    if more != [] {
      AddedBodiesAreThere(bodies, more[..|more| - 1]);
      assert more == more[..|more| - 1] + [more[|more| - 1]];
    }
  }

  lemma EverythingHeld(c: Config, own0: Own, own: Own, p: Procs)
    requires Holding(c, own0, own, p) && c.bridge && Stage(p.at) > Stage(NetDone)
    ensures own.lease.Some? && (PeerOpen(p) ==> own.veth)
    ensures forall b :: b in c.wanted ==> b in own.rules
  {
    assert c.wanted[..|c.wanted|] == c.wanted;
    AddedBodiesAreThere(own0.rules, c.wanted);
  }

  /** Init touches mounts only after GO, which the parent sends only once the
      network is set up and described; while both sides are still at it, the
      network really is there. */
  lemma MountsOnlyAfterHostSetup(c: Config, h0: Host, s: State)
    requires Reachable(c, h0, s) && s.p.mounted
    ensures s.p.taken == 1 && s.p.down == [Go] && s.p.netstate
    ensures Stage(s.p.at) > Stage(SendGo)
    ensures s.p.mode.Going? && c.bridge ==>
      && c.id in s.host.leases
      && (PeerOpen(s.p) ==> c.veth in s.host.links)
      && forall b :: b in c.wanted ==> b in Mine(c, s.host).rules
  {
    hide Reachable, Owed, Unwound, SaidSoFar;
    ReachableHolds(c, h0, s);
    if s.p.mode.Going? && c.bridge {
      EverythingHeld(c, Mine(c, h0), Mine(c, s.host), s.p);
    }
  }

  /** Running is recorded only after the workload was forked. */
  lemma RunningMeansForked(c: Config, h0: Host, s: State)
    requires Reachable(c, h0, s) && s.p.recorded
    ensures s.p.forked && s.p.mounted && s.p.netstate
  {
    hide Reachable, Stack;
    ReachableHolds(c, h0, s);
  }

  /** A container with limits never gets past the first step without a cgroup to
      put them on. */
  lemma LimitsNeedACgroup(c: Config, h0: Host, s: State)
    requires Reachable(c, h0, s) && c.limits && Stage(s.p.at) > Stage(MkCgroup)
    ensures s.p.hasCgroup
  {
    hide Reachable, Stack;
    ReachableHolds(c, h0, s);
  }

  /** EXIT is the last word of an init whose workload has ended. */
  lemma ExitMeansEnded(c: Config, h0: Host, s: State)
    requires Reachable(c, h0, s) && Exit in s.p.up
    ensures s.p.up == [Ready, Started, Exit] && s.p.forked && !s.p.workload && !Alive(s.p.init)
  {
    hide Reachable, Stack;
    ReachableHolds(c, h0, s);
  }

  /** In this run the kernel took the cgroup descriptor when init was cloned. */
  predicate ClonedInto(c: Config, s: State, es: seq<Event>) {
    es != [] &&
    var before := After(c, s, es[..|es| - 1]);
    var e := es[|es| - 1];
    || ClonedInto(c, s, es[..|es| - 1])
    || (before.Some? && before.value.p.at.Clone? && before.value.p.hasFd && e.POk? && e.flag)
  }

  /** Init is a member of the cgroup exactly if it was cloned into it, or there was
      a cgroup, no descriptor to clone with, and the pid was added afterwards. */
  lemma {:induction false} InsideExactly(c: Config, h0: Host, es: seq<Event>)
    requires After(c, Start(h0), es).Some?
    ensures
      var p := After(c, Start(h0), es).value.p;
      p.inside <==> ClonedInto(c, Start(h0), es) || (Stage(p.at) > Stage(AddPid) && p.hasCgroup && !p.hasFd)
  {
    if es != [] {
      hide Enabled, Apply;
      InsideExactly(c, h0, es[..|es| - 1]);
      InsideStep(c, After(c, Start(h0), es[..|es| - 1]).value, es[|es| - 1]);
    }
  }

  predicate Enters(p: Procs, e: Event) {
    e.POk? && if p.at.Clone? then p.hasFd && e.flag else p.at.AddPid? && p.hasCgroup && !p.hasFd
  }

  /** Only two steps of the parent put init into the cgroup, and from the second on
      nothing else about the cgroup changes. */
  predicate InsideMoves(p: Procs, q: Procs, e: Event) {
    && (q.inside <==> p.inside || Enters(p, e))
    && (Stage(q.at) > Stage(AddPid) <==> Stage(p.at) > Stage(AddPid) || (p.at.AddPid? && e.POk?))
    && (Stage(p.at) >= Stage(AddPid) ==> q.hasCgroup == p.hasCgroup && q.hasFd == p.hasFd)
  }

  lemma AddPidStage(c: Config, at: Pc, flag: bool)
    ensures Stage(NextPc(c, at, flag)) > Stage(AddPid) <==> Stage(at) > Stage(AddPid) || at.AddPid?
    ensures at.MkCgroup? || at.Prepare? || at.Clone? ==> Stage(at) < Stage(AddPid)
    ensures at.AwaitReady? || at.AwaitStarted? ==> Stage(at) > Stage(AddPid)
  {
  }

  predicate SameCgroup(p: Procs, q: Procs) {
    q.at == p.at && q.inside == p.inside && q.hasCgroup == p.hasCgroup && q.hasFd == p.hasFd
  }

  /** No other event has anything to do with it. */
  lemma OtherEventsLeaveCgroup(c: Config, s: State, e: Event)
    requires Enabled(c, s, e) && !e.POk? && !e.PRecv?
    ensures SameCgroup(s.p, Apply(c, s, e).p)
  {
    hide UndoHost, ReleaseHost, CanLeave, Mine, Stage, NextPc, Alive, PeerOpen;
    match e {
      case PUndo(l) => assert SameCgroup(s.p, ParentUndo(c, s, l).p);
      case IOk => assert SameCgroup(s.p, InitOk(c, s.p));
      case IFail => assert SameCgroup(s.p, InitFail(c, s.p));
      case IRecv => assert SameCgroup(s.p, InitRecv(s.p));
      case PDies => assert SameCgroup(s.p, ParentDies(c, s.p));
      case _ =>
    }
  }

  lemma RecvLeavesCgroup(c: Config, p: Procs)
    requires p.at.AwaitReady? || p.at.AwaitStarted?
    ensures InsideMoves(p, ParentRecv(c, p), PRecv)
  {
    hide Stage, NextPc;
    AddPidStage(c, p.at, true);
  }

  lemma MovesInside(c: Config, p: Procs, flag: bool, addr: nat)
    ensures InsideMoves(p, ParentMoves(c, p, flag), POk(flag, addr))
  {
    hide Stage, NextPc;
    AddPidStage(c, p.at, flag);
  }

  lemma InsideStep(c: Config, s: State, e: Event)
    requires Enabled(c, s, e)
    ensures InsideMoves(s.p, Apply(c, s, e).p, e)
  {
    if e.POk? {
      hide InsideMoves, Enabled, ParentMoves, Acquired, Pushed;
      MovesInside(c, s.p, e.flag, e.addr);
    } else if e.PRecv? {
      hide InsideMoves, ParentRecv, PeerOpen;
      RecvLeavesCgroup(c, s.p);
    } else {
      hide Apply, Enabled;
      OtherEventsLeaveCgroup(c, s, e);
    }
  }

  /** A launch that commits has everything it asked for, and no undo left. */
  lemma CommittedHasEverything(c: Config, h0: Host, s: State)
    requires Reachable(c, h0, s) && Committed(s)
    ensures s.rb == [] && s.p.recorded
    ensures s.p.hasCgroup ==> c.id in s.host.cgroups
    ensures c.limits ==> c.id in s.host.cgroups
    ensures c.bridge ==>
      && c.id in s.host.leases
      && (PeerOpen(s.p) ==> c.veth in s.host.links)
      && forall b :: b in c.wanted ==> b in Mine(c, s.host).rules
  {
    hide Reachable, Unwound, SaidSoFar;
    ReachableHolds(c, h0, s);
    if c.bridge {
      EverythingHeld(c, Mine(c, h0), Mine(c, s.host), s.p);
    }
  }

  /** If the parent dies, init either died with it or was not yet armed; in that
      case it never gets past waiting for GO. */
  lemma OrphanNeverRuns(c: Config, h0: Host, s: State)
    requires Reachable(c, h0, s) && s.p.mode.Dead?
    ensures Alive(s.p.init) ==> !s.p.mounted && !s.p.forked && s.p.down == []
    ensures c.pidNs ==> !s.p.workload
  {
    hide Reachable, Stack;
    ReachableHolds(c, h0, s);
  }

  // -------------------------------------------------------------------------
  // Progress
  // -------------------------------------------------------------------------

  predicate ParentBlocked(p: Procs) {
    p.mode.Going? && (p.at.AwaitReady? || p.at.AwaitStarted?) && p.heard == |p.up| && PeerOpen(p)
  }

  predicate InitBlocked(p: Procs) {
    p.init.AwaitingGo? && p.taken == |p.down| && p.mode.Going?
  }

  lemma NeverBothBlocked(c: Config, h0: Host, s: State)
    requires Reachable(c, h0, s)
    ensures !(ParentBlocked(s.p) && InitBlocked(s.p))
  {
    hide Reachable, Stack, Facts;
    ReachableHolds(c, h0, s);
  }

  predicate Finished(s: State) { Failed(s) || Committed(s) || s.p.mode.Dead? }

  /** An event by which the launch gets on with it: no crash, no fault, except
      that sending to a peer that is gone fails. */
  predicate Helpful(s: State, e: Event) {
    || e.POk? || e.PRecv? || e.PUndo? || e.IOk? || e.IRecv? || e.WEnds?
    || (e.PFail? && s.p.at.SendGo? && !PeerOpen(s.p))
  }

  lemma SomeoneCanMove(c: Config, h0: Host, s: State)
    requires Reachable(c, h0, s) && !Finished(s)
    ensures exists e :: Enabled(c, s, e) && Helpful(s, e)
  {
    hide Reachable, Stack, Enabled;
    ReachableHolds(c, h0, s);
    var e := Mover(s);
    MoverCanMove(c, s);
    assert Helpful(s, e);
  }

  function Mover(s: State): Event {
    if s.p.mode.Unwinding? then PUndo(FULL)
    else if s.p.at.SendGo? && !PeerOpen(s.p) then PFail(true)
    else if !s.p.at.AwaitReady? && !s.p.at.AwaitStarted? then POk(true, 0)
    else if !ParentBlocked(s.p) then PRecv
    else if !Alive(s.p.init) then WEnds
    else if s.p.init.AwaitingGo? then IRecv
    else IOk
  }

  lemma MoverCanMove(c: Config, s: State)
    requires Ordered(c, s.p) && !Finished(s)
    ensures Enabled(c, s, Mover(s))
  {
  }

  predicate Own(e: Event) { !e.Env? && !e.Vanish? }

  function Remaining(c: Config, at: Pc): int {
    if at.Publish? then 7 + |c.wanted| - at.k
    else if Stage(at) < Stage(Publish(0)) then 20 + |c.wanted| - Stage(at) else 19 - Stage(at)
  }

  function InitSteps(i: InitPc): nat {
    match i
    case Unborn => 14 case Fresh => 13 case Configuring => 12 case SendingReady => 11 case BeforeGo => 10
    case AwaitingGo => 9 case AfterGo => 8 case SettingUp => 7 case Forking => 6 case SendingStarted => 4
    case Supervising => 3 case SendingExit => 2 case SendingError => 1 case Exited => 0
  }

  function ChildRank(p: Procs): nat { InitSteps(p.init) + if p.workload then 1 else 0 }

  function ParentRank(c: Config, mode: Mode, at: Pc, owed: nat): int {
    match mode
    case Going => 2 + owed + 2 * Remaining(c, at)
    case Unwinding => 1 + owed
    case Dead => 0
  }

  /** A bound on the steps the launch can still take. */
  function Rank(c: Config, s: State): int {
    ParentRank(c, s.p.mode, s.p.at, |s.rb|) + ChildRank(s.p)
  }

  lemma RemainingDrops(c: Config, at: Pc, flag: bool)
    requires Possible(c, at)
    ensures 0 <= Remaining(c, at)
    ensures !at.Done? ==> Remaining(c, NextPc(c, at, flag)) < Remaining(c, at)
  {
  }

  lemma ParentOkRank(c: Config, s: State, flag: bool, addr: nat)
    requires Ordered(c, s.p) && Enabled(c, s, POk(flag, addr))
    ensures Rank(c, ParentOk(c, s, flag, addr)) < Rank(c, s)
  {
    assert |Pushed(c, s.p.at)| <= 1;
    RemainingDrops(c, s.p.at, flag);
    hide Acquired, Pushed, SaidSoFar, Facts, Remaining, NextPc;
  }

  lemma ParentFailRank(c: Config, s: State, flag: bool)
    requires Possible(c, s.p.at) && Enabled(c, s, PFail(flag))
    ensures Rank(c, ParentFail(c, s, flag)) < Rank(c, s)
  {
    hide ReleaseHost, NextPc, Remaining, InitSteps, Possible;
    RemainingDrops(c, s.p.at, true);
  }

  lemma ParentRecvRank(c: Config, s: State)
    requires Possible(c, s.p.at) && Enabled(c, s, PRecv)
    ensures Rank(c, s.(p := ParentRecv(c, s.p))) < Rank(c, s)
  {
    RemainingDrops(c, s.p.at, true);
    hide NextPc, Remaining, InitSteps;
  }

  lemma ParentUndoRank(c: Config, s: State, l: Luck)
    requires Enabled(c, s, PUndo(l))
    ensures Rank(c, ParentUndo(c, s, l)) < Rank(c, s)
  {
    hide UndoHost, CanLeave, Remaining;
  }

  lemma ParentDiesRank(c: Config, s: State)
    requires Possible(c, s.p.at) && Enabled(c, s, PDies)
    ensures Rank(c, s.(p := ParentDies(c, s.p))) < Rank(c, s)
  {
    RemainingDrops(c, s.p.at, true);
    hide NextPc, Remaining;
  }

  lemma ChildRankDrops(c: Config, s: State, e: Event)
    requires Enabled(c, s, e) && (e.IOk? || e.IFail? || e.IRecv? || e.IDies? || e.WEnds?)
    ensures
      var q := Apply(c, s, e).p;
      ChildRank(q) < ChildRank(s.p) && q.mode == s.p.mode && q.at == s.p.at
  {
    match e {
      case IOk => assert ChildRank(InitOk(c, s.p)) < ChildRank(s.p);
      case IFail => assert ChildRank(InitFail(c, s.p)) < ChildRank(s.p);
      case IRecv => assert ChildRank(InitRecv(s.p)) < ChildRank(s.p);
      case IDies =>
      case WEnds =>
    }
  }

  lemma RankDecreases(c: Config, s: State, e: Event)
    requires Ordered(c, s.p) && Enabled(c, s, e)
    ensures Own(e) ==> Rank(c, Apply(c, s, e)) < Rank(c, s)
    ensures !Own(e) ==> Rank(c, Apply(c, s, e)) == Rank(c, s)
  {
    hide Mine, Facts, SaidSoFar, ParentOk, ParentFail, ParentRecv, ParentDies, ParentUndo, Remaining, ChildRank;
    match e {
      case POk(flag, addr) => ParentOkRank(c, s, flag, addr);
      case PFail(flag) => ParentFailRank(c, s, flag);
      case PRecv => ParentRecvRank(c, s);
      case PUndo(l) => ParentUndoRank(c, s, l);
      case PDies => ParentDiesRank(c, s);
      case Vanish =>
      case Env(_) =>
      case _ => ChildRankDrops(c, s, e);
    }
  }

  function OwnSteps(es: seq<Event>): nat {
    if es == [] then 0 else OwnSteps(es[..|es| - 1]) + if Own(es[|es| - 1]) then 1 else 0
  }

  /** Every launch ends: whatever fails and whatever others do meanwhile, the
      parent, init and workload take at most this many steps. */
  lemma {:induction false} EveryLaunchEnds(c: Config, h0: Host, es: seq<Event>)
    requires After(c, Start(h0), es).Some?
    ensures OwnSteps(es) <= Rank(c, Start(h0)) - Rank(c, After(c, Start(h0), es).value)
    ensures OwnSteps(es) <= 56 + 2 * |c.wanted|
  {
    hide Ordered, Possible, Rank, Enabled, Apply;
    RunIsOrdered(c, h0, es);
    if es != [] {
      var t := After(c, Start(h0), es[..|es| - 1]).value;
      EveryLaunchEnds(c, h0, es[..|es| - 1]);
      RunIsOrdered(c, h0, es[..|es| - 1]);
      RankDecreases(c, t, es[|es| - 1]);
    }
    RankIsNat(c, After(c, Start(h0), es).value);
    FirstRank(c, h0);
  }

  lemma RunIsOrdered(c: Config, h0: Host, es: seq<Event>)
    requires After(c, Start(h0), es).Some?
    ensures
      var s := After(c, Start(h0), es).value;
      Ordered(c, s.p) && Possible(c, s.p.at)
  {
    hide After, Stack, Facts;
    EveryRunKeepsInv(c, h0, es);
  }

  lemma FirstRank(c: Config, h0: Host)
    ensures Rank(c, Start(h0)) == 56 + 2 * |c.wanted|
  {
  }

  lemma RankIsNat(c: Config, s: State)
    requires Possible(c, s.p.at)
    ensures 0 <= Rank(c, s)
  {
    RemainingDrops(c, s.p.at, true);
  }

  // -------------------------------------------------------------------------
  // What a failure leaves behind
  // -------------------------------------------------------------------------

  /** What is left of the container once the undo stack is empty. */
  predicate Leftover(c: Config, own0: Own, own: Own, p: Procs, stuck: set<Resource>)
    requires Possible(c, p.at)
  {
    && (own.cgroup && RCgroup !in stuck ==> own0.cgroup && !p.hasCgroup)
    && (own.lease.Some? && RLease !in stuck ==> own.lease == own0.lease && !Demanded(c, p.hasCgroup, p.at, RLease))
    && (own.veth && RVeth !in stuck ==> own0.veth && !Demanded(c, p.hasCgroup, p.at, RVeth))
    && (RRules !in stuck ==>
          own.rules ==
          if Demanded(c, p.hasCgroup, p.at, RRules) then []
          else if p.at.Publish? then AddBodies(own0.rules, c.wanted[..p.at.k])
          else own0.rules)
    && (PeerOpen(p) && p.inside ==> RCgroup in stuck)
    && (PeerOpen(p) && c.pidNs && RProcess !in stuck ==> p.at.Register?)
    && (Alive(p.init) && RProcess !in stuck ==> p.at.Register? && !p.mounted)
  }

  lemma UnwoundLeavesOnly(c: Config, own0: Own, own: Own, p: Procs, stuck: set<Resource>)
    requires Ordered(c, p) && Unwound(c, own0, own, p, [], stuck)
    ensures Leftover(c, own0, own, p, stuck)
  {
    hide SaidSoFar, Demanded, AddBodies;
    forall r ensures r in stuck || Settled(c, own0, own, p, r) {
      assert Pending(c, [], stuck, r) || Settled(c, own0, own, p, r);
    }
    assert RCgroup in stuck || Settled(c, own0, own, p, RCgroup);
    assert RLease in stuck || Settled(c, own0, own, p, RLease);
    assert RVeth in stuck || Settled(c, own0, own, p, RVeth);
    assert RProcess in stuck || Settled(c, own0, own, p, RProcess);
    assert RRules in stuck || Settled(c, own0, own, p, RRules);
    if !Demanded(c, p.hasCgroup, p.at, RRules) {
      RulesLeft(c, own0.rules, p);
    }
  }

  lemma RulesLeft(c: Config, rules0: seq<string>, p: Procs)
    requires Possible(c, p.at) && !Demanded(c, p.hasCgroup, p.at, RRules)
    ensures AddBodies(rules0, c.wanted[..Published(c, p.at)])
            == if p.at.Publish? then AddBodies(rules0, c.wanted[..p.at.k]) else rules0
  {
    assert c.wanted[..0] == [];
  }

  /** Once a failed launch has unwound, a resource whose undo did not itself fail
      is gone, or was there before and never acquired.  The rules of a failure
      inside the publish loop stay.  What may survive of the processes is in
      `SurvivorsAreOutside`. */
  lemma FailureLeavesOnly(c: Config, h0: Host, s: State)
    requires Reachable(c, h0, s) && Failed(s)
    ensures Possible(c, s.p.at) && Leftover(c, Mine(c, h0), Mine(c, s.host), s.p, s.stuck)
  {
    hide Reachable, Leftover, Facts, SaidSoFar, Unwound, Mine;
    ReachableHolds(c, h0, s);
    UnwoundLeavesOnly(c, Mine(c, h0), Mine(c, s.host), s.p, s.stuck);
  }

  lemma {:induction false} AddedBodiesAreNotEmpty(more: seq<string>)
    ensures AddBodies([], more) == [] <==> more == []
  {
    if more != [] {
      AddedBodiesAreNotEmpty(more[..|more| - 1]);
    }
  }

  /** From a clean host, with every undo working, a failed launch leaves a cgroup,
      lease, interface or rule of this container exactly if it failed part way
      through the publish loop, and then just the rules added by then. */
  lemma LeaksExactlyInPublishLoop(c: Config, h0: Host, s: State)
    requires Reachable(c, h0, s) && Failed(s) && s.stuck == {} && Mine(c, h0) == NOTHING
    ensures Mine(c, s.host) != NOTHING <==> s.p.at.Publish? && s.p.at.k > 0
    ensures s.p.at.Publish? ==>
      && s.p.at.k <= |c.wanted|
      && Mine(c, s.host) == NOTHING.(rules := AddBodies([], c.wanted[..s.p.at.k]))
  {
    hide Reachable, Mine, AddBodies, Demanded;
    FailureLeavesOnly(c, h0, s);
    if s.p.at.Publish? {
      AddedBodiesAreNotEmpty(c.wanted[..s.p.at.k]);
      assert !Demanded(c, s.p.hasCgroup, s.p.at, RRules) by { NotYetDemanded(c, s.p); }
    }
  }

  lemma NotYetDemanded(c: Config, p: Procs)
    requires p.at.Publish?
    ensures !Demanded(c, p.hasCgroup, p.at, RRules)
  {
  }

  predicate Quiet(es: seq<Event>) { forall i :: 0 <= i < |es| ==> !es[i].Env? }

  /** A launch, failed or not, leaves everything of the other containers as it was. */
  lemma {:induction false} OtherContainersUntouched(c: Config, h0: Host, es: seq<Event>)
    requires Quiet(es) && After(c, Start(h0), es).Some?
    ensures Others(c, After(c, Start(h0), es).value.host) == Others(c, h0)
  {
    if es != [] {
      hide Others, Apply, Enabled;
      OtherContainersUntouched(c, h0, es[..|es| - 1]);
      OthersAreLeftAlone(c, After(c, Start(h0), es[..|es| - 1]).value, es[|es| - 1]);
    }
  }

  /** A process outlives a failed launch whose undos all worked only outside the
      cgroup: init in the window between clone and the registration of its undo, or
      a workload without a pid namespace after GO, when its init is gone. */
  lemma SurvivorsAreOutside(c: Config, h0: Host, s: State)
    requires Reachable(c, h0, s) && Failed(s) && s.stuck == {} && PeerOpen(s.p)
    ensures !s.p.inside
    ensures
      || (s.p.at.Register? && Alive(s.p.init) && !s.p.mounted && !s.p.workload)
      || (!c.pidNs && s.p.workload && !Alive(s.p.init) && Stage(s.p.at) > Stage(SendGo))
  {
    hide Reachable, Stack, Mine, Demanded, AddBodies;
    FailureLeavesOnly(c, h0, s);
    ReachableHolds(c, h0, s);
  }

  // -------------------------------------------------------------------------
  // The unwinding steps are the undo stack's unwinding
  // -------------------------------------------------------------------------

  /** What an undo acts on; `luck` lists how the coming undos will go. */
  datatype World = World(p: Procs, host: Host, stuck: set<Resource>, luck: seq<Luck>)

  function RunUndo(c: Config): (Undo, World) -> (World, bool) {
    (u: Undo, w: World) =>
      var l := if w.luck == [] then Luck({}, w.host.rules) else w.luck[0];
      var worked := Targets(c, u) * l.done;
      (World(Reaped(c, w.p, worked), UndoHost(c, w.host, u, l), (w.stuck - worked) + (Targets(c, u) - l.done),
             if w.luck == [] then [] else w.luck[1..]),
       Targets(c, u) <= l.done)
  }

  function Undos(luck: seq<Luck>): seq<Event> {
    if luck == [] then [] else [PUndo(luck[0])] + Undos(luck[1..])
  }

  lemma {:induction false} AfterFirst(c: Config, s: State, e: Event, es: seq<Event>)
    requires After(c, s, [e] + es).Some?
    ensures Enabled(c, s, e) && After(c, s, [e] + es) == After(c, Apply(c, s, e), es)
  {
    hide Enabled, Apply;
    if es == [] {
      assert [e] + es == [e];
      assert [e][..0] == [];
    } else {
      var n := |es| - 1;
      assert ([e] + es)[..n + 1] == [e] + es[..n];
      AfterFirst(c, s, e, es[..n]);
    }
  }

  lemma RunUndoIs(c: Config, s: State, luck: seq<Luck>)
    requires s.rb != [] && luck != []
    ensures
      var t := ParentUndo(c, s, luck[0]);
      RunUndo(c)(s.rb[|s.rb| - 1], World(s.p, s.host, s.stuck, luck)).0 == World(t.p, t.host, t.stuck, luck[1..])
  {
  }

  lemma UnwoundStep(c: Config, rb: seq<Undo>, w: World)
    requires rb != []
    ensures Rollback.Unwound(rb, w, RunUndo(c)).world
            == Rollback.Unwound(rb[..|rb| - 1], RunUndo(c)(rb[|rb| - 1], w).0, RunUndo(c)).world
  {
  }

  /** Once a launch has failed, popping undos one event at a time ends exactly
      where `Rollback::unwind` ends, however each of them goes. */
  lemma {:induction false} UnwindingIsRollback(c: Config, s: State, luck: seq<Luck>)
    requires |luck| == |s.rb| && After(c, s, Undos(luck)).Some?
    ensures
      var w := Rollback.Unwound(s.rb, World(s.p, s.host, s.stuck, luck), RunUndo(c)).world;
      After(c, s, Undos(luck)) == Some(State(w.p, w.host, [], w.stuck))
    decreases |luck|
  {
    if luck == [] {
      assert Rollback.Unwound(s.rb, World(s.p, s.host, s.stuck, luck), RunUndo(c)).world
        == World(s.p, s.host, s.stuck, luck);
    } else {
      hide After, UndoHost, Reaped, Targets, RunUndo, CanLeave, Rollback.Unwound;
      var t := ParentUndo(c, s, luck[0]);
      AfterFirst(c, s, PUndo(luck[0]), Undos(luck[1..]));
      RunUndoIs(c, s, luck);
      UnwoundStep(c, s.rb, World(s.p, s.host, s.stuck, luck));
      UnwindingIsRollback(c, t, luck[1..]);
    }
  }

  lemma {:induction false} AfterThen(c: Config, s: State, e: Event, es: seq<Event>)
    requires Enabled(c, s, e)
    ensures After(c, s, [e] + es) == After(c, Apply(c, s, e), es)
  {
    hide Enabled, Apply;
    if es == [] {
      assert [e] + es == [e];
      assert [e][..0] == [];
    } else {
      var n := |es| - 1;
      AfterThen(c, s, e, es[..n]);
      assert ([e] + es)[..n + 1] == [e] + es[..n];
    }
  }

  // -------------------------------------------------------------------------
  // Which processes an unwinding spares
  // -------------------------------------------------------------------------

  /** The processes once every undo of a stack has worked. */
  function Spared(c: Config, p: Procs, rb: seq<Undo>): Procs {
    var process, swept := Covered(c, rb, RProcess), Covered(c, rb, RCgroup) && p.inside;
    p.(init := if Alive(p.init) && (process || swept) then Exited else p.init,
       workload := p.workload && !(process && c.pidNs) && !swept)
  }

  predicate AllFull(luck: seq<Luck>) { forall i :: 0 <= i < |luck| ==> luck[i] == FULL }

  lemma SparedStep(c: Config, p: Procs, rb: seq<Undo>)
    requires rb != []
    ensures
      var n := |rb| - 1;
      Spared(c, p, rb) == Spared(c, Reaped(c, p, Targets(c, rb[n]) * FULL.done), rb[..n])
  {
    var targets := Targets(c, rb[|rb| - 1]);
    assert RProcess in targets * FULL.done <==> RProcess in targets;
    assert RCgroup in targets * FULL.done <==> RCgroup in targets;
  }

  /** An undo that works: always possible, and nothing gets stuck. */
  lemma FullUndo(c: Config, s: State)
    requires s.p.mode.Unwinding? && s.rb != []
    ensures Enabled(c, s, PUndo(FULL))
    ensures
      var t := ParentUndo(c, s, FULL);
      && t.p == Reaped(c, s.p, Targets(c, s.rb[|s.rb| - 1]) * FULL.done) && t.p.mode.Unwinding?
      && (s.stuck == {} ==> t.stuck == {})
  {
  }

  /** With every undo working, and nothing else happening meanwhile, unwinding
      takes the processes exactly there. */
  lemma {:induction false} UnwindingSpares(c: Config, s: State, luck: seq<Luck>)
    requires s.p.mode.Unwinding? && |luck| == |s.rb| && AllFull(luck)
    ensures
      var r := After(c, s, Undos(luck));
      r.Some? && Failed(r.value) && r.value.p == Spared(c, s.p, s.rb)
      && (s.stuck == {} ==> r.value.stuck == {})
    decreases |luck|
  {
    if luck == [] {
      assert Spared(c, s.p, []) == s.p;
    } else {
      hide After, UndoHost, Reaped, Spared, Targets, CanLeave, Enabled;
      assert luck[0] == FULL;
      FullUndo(c, s);
      SparedStep(c, s.p, s.rb);
      UnwindingSpares(c, ParentUndo(c, s, FULL), luck[1..]);
      AfterThen(c, s, PUndo(FULL), Undos(luck[1..]));
    }
  }

  /** Which processes a failure leaves is decided the moment it happens: outside the
      cgroup, init in the clone window, and anywhere later a workload that has no pid
      namespace to die with. */
  lemma ProcessesLeakExactly(c: Config, h0: Host, s: State, luck: seq<Luck>)
    requires Reachable(c, h0, s) && s.p.mode.Unwinding? && s.rb == Owed(c, s.p.hasCgroup, s.p.at) && !s.p.at.Done?
    requires |luck| == |s.rb| && AllFull(luck)
    ensures
      var r := After(c, s, Undos(luck));
      && r.Some? && Failed(r.value)
      && (PeerOpen(r.value.p) <==>
            !s.p.inside && if s.p.at.Register? then Alive(s.p.init) else s.p.workload && !c.pidNs)
      && (s.p.at.Register? && !s.p.inside ==> r.value.p == s.p)
  {
    hide Reachable, Stack, After, Covered, Owed;
    ReachableHolds(c, h0, s);
    UnwindingSpares(c, s, luck);
    OwedCovers(c, s.p.hasCgroup, s.p.at, RProcess);
    OwedCovers(c, s.p.hasCgroup, s.p.at, RCgroup);
    ProcessesLeft(c, s.p, s.rb);
  }

  lemma ProcessesLeft(c: Config, p: Procs, rb: seq<Undo>)
    requires Ordered(c, p)
    requires Covered(c, rb, RProcess) <==> Demanded(c, p.hasCgroup, p.at, RProcess)
    requires Covered(c, rb, RCgroup) <==> Demanded(c, p.hasCgroup, p.at, RCgroup)
    ensures
      var q := Spared(c, p, rb);
      && (PeerOpen(q) <==> !p.inside && if p.at.Register? then Alive(p.init) else p.workload && !c.pidNs)
      && (p.at.Register? && !p.inside ==> q == p)
  {
    hide Covered;
  }

  // -------------------------------------------------------------------------
  // The three leaks do happen
  // -------------------------------------------------------------------------

  /** One more event of a run under construction. */
  lemma Then(c: Config, h0: Host, es: seq<Event>, s: State, e: Event) returns (es': seq<Event>, t: State)
    requires After(c, Start(h0), es) == Some(s) && Enabled(c, s, e)
    ensures After(c, Start(h0), es') == Some(t) && t == Apply(c, s, e)
  {
    es', t := es + [e], Apply(c, s, e);
    assert es'[..|es|] == es;
  }

  /** The parent after it has cloned init, whether into the cgroup or beside it. */
  lemma RunToClone(c: Config, h0: Host, placed: bool) returns (es: seq<Event>, s: State)
    ensures After(c, Start(h0), es) == Some(s)
    ensures s.p == Procs(Going, Register, true, true, placed, Fresh, false, [], 0, [], 0, false, false, false, false)
  {
    es, s := [], Start(h0);
    assert After(c, Start(h0), es) == Some(s);
    hide After;
    es, s := Then(c, h0, es, s, POk(true, 0));
    es, s := Then(c, h0, es, s, POk(true, 0));
    es, s := Then(c, h0, es, s, POk(true, 0));
    es, s := Then(c, h0, es, s, POk(placed, 0));
  }

  /** Init waits for GO, and the parent is at `at`, which comes after READY was
      read and before GO is sent. */
  function Waiting(at: Pc, placed: bool): Procs {
    Procs(Going, at, true, true, placed, AwaitingGo, false, [Ready], if Stage(at) > Stage(AwaitReady) then 1 else 0,
          [], 0, Stage(at) > Stage(Netstate), false, false, false)
  }

  lemma RunToSaying(c: Config, h0: Host, placed: bool) returns (es: seq<Event>, s: State)
    ensures After(c, Start(h0), es) == Some(s)
    ensures s.p ==
            Procs(Going, Register, true, true, placed, SendingReady, false, [], 0, [], 0, false, false, false, false)
  {
    hide After;
    es, s := RunToClone(c, h0, placed);
    es, s := Then(c, h0, es, s, IOk);
    es, s := Then(c, h0, es, s, IOk);
  }

  lemma RunToReady(c: Config, h0: Host, placed: bool) returns (es: seq<Event>, s: State)
    ensures After(c, Start(h0), es) == Some(s) && s.p == Waiting(Register, placed)
  {
    hide After;
    es, s := RunToSaying(c, h0, placed);
    es, s := Then(c, h0, es, s, IOk);
    es, s := Then(c, h0, es, s, IOk);
  }

  lemma RunToAwait(c: Config, h0: Host, placed: bool) returns (es: seq<Event>, s: State)
    ensures After(c, Start(h0), es) == Some(s) && s.p == Waiting(AwaitReady, placed)
  {
    hide After;
    es, s := RunToReady(c, h0, placed);
    es, s := Then(c, h0, es, s, POk(true, 0));
    es, s := Then(c, h0, es, s, POk(true, 0));
  }

  lemma RunPastReady(c: Config, h0: Host, placed: bool) returns (es: seq<Event>, s: State)
    ensures After(c, Start(h0), es) == Some(s) && s.p == Waiting(if c.bridge then Bridge else NetDone, placed)
  {
    hide After;
    es, s := RunToAwait(c, h0, placed);
    es, s := Then(c, h0, es, s, PRecv);
  }

  /** One network step that works. */
  lemma RunOn(c: Config, h0: Host, es: seq<Event>, s: State, placed: bool) returns (es': seq<Event>, t: State)
    requires After(c, Start(h0), es) == Some(s) && s.p == Waiting(s.p.at, placed)
    requires Stage(AwaitReady) < Stage(s.p.at) < Stage(SendGo)
    ensures After(c, Start(h0), es') == Some(t) && t.p == Waiting(NextPc(c, s.p.at, true), placed)
  {
    hide After;
    es', t := Then(c, h0, es, s, POk(true, 0));
  }

  lemma RunToNat(c: Config, h0: Host, placed: bool) returns (es: seq<Event>, s: State)
    requires c.bridge
    ensures After(c, Start(h0), es) == Some(s) && s.p == Waiting(Nat, placed)
  {
    hide After, Waiting;
    es, s := RunPastReady(c, h0, placed);
    assert s.p.at == Bridge by { WaitingAt(Bridge, placed); }
    es, s := RunOn(c, h0, es, s, placed);
    WaitingAt(Lease, placed);
    es, s := RunOn(c, h0, es, s, placed);
    WaitingAt(Veth, placed);
    es, s := RunOn(c, h0, es, s, placed);
    WaitingAt(Link, placed);
    es, s := RunOn(c, h0, es, s, placed);
  }

  lemma WaitingAt(at: Pc, placed: bool)
    ensures Waiting(at, placed).at == at
  {
  }

  lemma {:induction false} RunToPublish(c: Config, h0: Host, placed: bool, k: nat) returns (es: seq<Event>, s: State)
    requires c.bridge && k <= |c.wanted|
    ensures After(c, Start(h0), es) == Some(s) && s.p == Waiting(Publish(k), placed)
  {
    hide After;
    if k == 0 {
      es, s := RunToNat(c, h0, placed);
    } else {
      es, s := RunToPublish(c, h0, placed, k - 1);
    }
    es, s := RunOn(c, h0, es, s, placed);
  }

  lemma RunToGo(c: Config, h0: Host, placed: bool) returns (es: seq<Event>, s: State)
    ensures After(c, Start(h0), es) == Some(s) && s.p == Waiting(SendGo, placed)
  {
    hide After, Waiting;
    if c.bridge {
      es, s := RunToPublish(c, h0, placed, |c.wanted|);
      WaitingAt(Publish(|c.wanted|), placed);
      es, s := RunOn(c, h0, es, s, placed);
    } else {
      es, s := RunPastReady(c, h0, placed);
    }
    WaitingAt(NetDone, placed);
    es, s := RunOn(c, h0, es, s, placed);
    WaitingAt(Netstate, placed);
    es, s := RunOn(c, h0, es, s, placed);
  }

  lemma RunPastGo(c: Config, h0: Host, placed: bool) returns (es: seq<Event>, s: State)
    ensures After(c, Start(h0), es) == Some(s)
    ensures s.p ==
            Procs(Going, AwaitStarted, true, true, placed, AfterGo, false, [Ready], 1, [Go], 1, true, false,
                  false, false)
  {
    hide After;
    es, s := RunToGo(c, h0, placed);
    es, s := Then(c, h0, es, s, POk(true, 0));
    es, s := Then(c, h0, es, s, IRecv);
  }

  /** The workload has been forked and init is about to say so. */
  lemma RunToFork(c: Config, h0: Host, placed: bool) returns (es: seq<Event>, s: State)
    ensures After(c, Start(h0), es) == Some(s)
    ensures s.p ==
            Procs(Going, AwaitStarted, true, true, placed, SendingStarted, true, [Ready], 1, [Go], 1, true,
                  true, true, false)
  {
    hide After;
    es, s := RunPastGo(c, h0, placed);
    es, s := Then(c, h0, es, s, IOk);
    es, s := Then(c, h0, es, s, IOk);
    es, s := Then(c, h0, es, s, IOk);
  }

  /** The parent has read STARTED and is about to save the record. */
  lemma RunToSave(c: Config, h0: Host, placed: bool) returns (es: seq<Event>, s: State)
    ensures After(c, Start(h0), es) == Some(s)
    ensures s.p ==
            Procs(Going, Save, true, true, placed, Supervising, true, [Ready, Started], 2, [Go], 1, true, true,
                  true, false)
  {
    hide After;
    es, s := RunToFork(c, h0, placed);
    es, s := Then(c, h0, es, s, IOk);
    es, s := Then(c, h0, es, s, PRecv);
  }

  /** A failure here and now, and then every undo works. */
  lemma RunDown(c: Config, h0: Host, es: seq<Event>, s: State) returns (es': seq<Event>, t: State)
    requires After(c, Start(h0), es) == Some(s) && Enabled(c, s, PFail(true)) && !s.p.at.Limits?
    ensures After(c, Start(h0), es') == Some(t) && Failed(t) && t.stuck == {} && t.p.at == s.p.at
    ensures PeerOpen(t.p) <==> !s.p.inside && if s.p.at.Register? then Alive(s.p.init) else s.p.workload && !c.pidNs
  {
    hide After, Spared, Owed, Holding, Protocol, Facts;
    EveryRunKeepsInv(c, h0, es);
    var f;
    es', f := Then(c, h0, es, s, PFail(true));
    var luck := seq(|f.rb|, _ => FULL);
    IsReachable(c, h0, es', f);
    ProcessesLeakExactly(c, h0, f, luck);
    UnwindingSpares(c, f, luck);
    es', t := Continue(c, h0, es', f, Undos(luck));
    assert t.p.at == s.p.at by { SparedStaysAt(c, f.p, f.rb); }
  }

  lemma SparedStaysAt(c: Config, p: Procs, rb: seq<Undo>)
    ensures Spared(c, p, rb).at == p.at
  {
  }

  lemma {:induction false} Continue(c: Config, h0: Host, es: seq<Event>, s: State, more: seq<Event>)
    returns (es': seq<Event>, t: State)
    requires After(c, Start(h0), es) == Some(s) && After(c, s, more).Some?
    ensures After(c, Start(h0), es') == Some(t) == After(c, s, more)
    decreases |more|
  {
    es', t := es, s;
    if more != [] {
      hide Enabled, Apply;
      var n := |more| - 1;
      es', t := Continue(c, h0, es, s, more[..n]);
      es', t := Then(c, h0, es', t, more[n]);
    }
  }

  lemma IsReachable(c: Config, h0: Host, es: seq<Event>, s: State)
    requires After(c, Start(h0), es) == Some(s)
    ensures Reachable(c, h0, s)
  {
  }

  /** For every bridged container and every point inside its publish loop there is
      a run that fails there, unwinds without a hitch, and leaves rules behind. */
  lemma PublishLoopLeaks(c: Config, h0: Host, k: nat)
    requires c.bridge && 0 < k < |c.wanted| && Mine(c, h0) == NOTHING
    ensures exists s ::
      Reachable(c, h0, s) && Failed(s) && s.stuck == {} && s.p.at == Publish(k) && Mine(c, s.host).rules != []
  {
    hide After, Mine, Reachable;
    var es, s := RunToPublish(c, h0, true, k);
    es, s := RunDown(c, h0, es, s);
    assert Reachable(c, h0, s) by { IsReachable(c, h0, es, s); }
    LeaksExactlyInPublishLoop(c, h0, s);
  }

  /** When the kernel ignores the cgroup descriptor, a failure right after the
      clone leaves init running outside the cgroup. */
  lemma CloneWindowLeaks(c: Config, h0: Host)
    ensures exists s :: Reachable(c, h0, s) && Failed(s) && s.stuck == {} && s.p.at.Register? && Alive(s.p.init)
  {
    hide After, Reachable;
    var es, s := RunToClone(c, h0, false);
    es, s := RunDown(c, h0, es, s);
    assert Reachable(c, h0, s) by { IsReachable(c, h0, es, s); }
    SurvivorsAreOutside(c, h0, s);
  }

  /** Without a pid namespace, bridged or not, a failure to save the record after
      such a clone leaves the workload running, all undos working and init dead. */
  lemma WorkloadLeaks(c: Config, h0: Host)
    requires !c.pidNs
    ensures exists s ::
      Reachable(c, h0, s) && Failed(s) && s.stuck == {} && s.p.at.Save? && s.p.workload && !Alive(s.p.init)
  {
    hide After, Reachable;
    var es, s := RunToSave(c, h0, false);
    es, s := RunDown(c, h0, es, s);
    assert Reachable(c, h0, s) by { IsReachable(c, h0, es, s); }
    SurvivorsAreOutside(c, h0, s);
  }
}
