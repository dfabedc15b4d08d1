/** Starting a container: the parent, init, the workload and the host they share.

The parent (`launch` in `src/runtime/supervisor.rs`) builds up host resources and
keeps an undo stack; init (`run` in `src/runtime/init.rs`) is cloned half way
through and talks to the parent over a socket pair.  Here both are one state
machine: an event is one step of one side, every step may fail, either side may
be killed between any two steps, and other containers may change anything that
is not ours at any time.
*/
module Launch {
  import opened Wrappers

  // -------------------------------------------------------------------------
  // The host
  // -------------------------------------------------------------------------

  /** An iptables rule tagged with a container id. */
  datatype Rule = Rule(owner: string, body: string)

  datatype Host = Host(cgroups: set<string>, links: set<string>, leases: map<string, nat>, rules: seq<Rule>)

  /** What the launch needs to know of a container: `wanted` lists the rules of
      all its published ports in the order they are added, `limits` says whether
      resource limits were asked for, `pidNs` whether it has its own pid namespace. */
  datatype Config = Config(id: string, veth: string, bridge: bool, wanted: seq<string>, limits: bool, pidNs: bool)

  /** The part of the host that belongs to one container. */
  datatype Own = Own(cgroup: bool, lease: Option<nat>, veth: bool, rules: seq<string>)

  const NOTHING := Own(false, None, false, [])

  function Bodies(rules: seq<Rule>, id: string): seq<string> {
    if rules == [] then []
    else
      var rest := Bodies(rules[..|rules| - 1], id);
      var r := rules[|rules| - 1];
      if r.owner == id then rest + [r.body] else rest
  }

  function Foreign(rules: seq<Rule>, id: string): seq<Rule> {
    if rules == [] then []
    else
      var rest := Foreign(rules[..|rules| - 1], id);
      var r := rules[|rules| - 1];
      if r.owner == id then rest else rest + [r]
  }

  function Mine(c: Config, h: Host): Own {
    Own(c.id in h.cgroups,
        if c.id in h.leases then Some(h.leases[c.id]) else None,
        c.veth in h.links,
        Bodies(h.rules, c.id))
  }

  function Others(c: Config, h: Host): Host {
    Host(h.cgroups - {c.id}, h.links - {c.veth}, h.leases - {c.id}, Foreign(h.rules, c.id))
  }

  /** `iptables -C` and then `-A`: a rule that is there already is not added. */
  function AddRule(rules: seq<Rule>, r: Rule): seq<Rule> {
    if r in rules then rules else rules + [r]
  }

  function AddBody(bodies: seq<string>, b: string): seq<string> {
    if b in bodies then bodies else bodies + [b]
  }

  function AddBodies(bodies: seq<string>, more: seq<string>): seq<string> {
    if more == [] then bodies else AddBody(AddBodies(bodies, more[..|more| - 1]), more[|more| - 1])
  }

  // -------------------------------------------------------------------------
  // The undo stack
  // -------------------------------------------------------------------------

  datatype Resource = RCgroup | RProcess | RLease | RVeth | RRules

  datatype Undo = UndoCgroup | UndoProcess | UndoLease | UndoVeth | UndoRules | UndoNetwork

  function Targets(c: Config, u: Undo): set<Resource> {
    match u
    case UndoCgroup => {RCgroup}
    case UndoProcess => {RProcess}
    case UndoLease => {RLease}
    case UndoVeth => {RVeth}
    case UndoRules => {RRules}
    case UndoNetwork => if c.bridge then {RRules, RVeth, RLease} else {RLease}
  }

  /** The host once the resources in `done` have been given back. */
  function ReleaseHost(c: Config, h: Host, done: set<Resource>): Host {
    Host(if RCgroup in done then h.cgroups - {c.id} else h.cgroups,
         if RVeth in done then h.links - {c.veth} else h.links,
         if RLease in done then h.leases - {c.id} else h.leases,
         if RRules in done then Foreign(h.rules, c.id) else h.rules)
  }

  /** How an undo went: what it released and, where it deleted only some of the
      rules, the table it left. */
  datatype Luck = Luck(done: set<Resource>, rules: seq<Rule>)

  const FULL := Luck({RCgroup, RProcess, RLease, RVeth, RRules}, [])

  predicate CanLeave(c: Config, h: Host, u: Undo, l: Luck) {
    RRules in Targets(c, u) && RRules !in l.done ==>
      Foreign(l.rules, c.id) == Foreign(h.rules, c.id) && forall r :: r in l.rules ==> r in h.rules
  }

  function UndoHost(c: Config, h: Host, u: Undo, l: Luck): Host {
    var released := ReleaseHost(c, h, Targets(c, u) * l.done);
    if RRules in Targets(c, u) && RRules !in l.done then released.(rules := l.rules) else released
  }

  // -------------------------------------------------------------------------
  // The two processes
  // -------------------------------------------------------------------------

  /** Where the parent is: the step it is about to take, or took last.
      `Publish(k)` is about to add the rule `wanted[k]`. */
  datatype Pc =
    | MkCgroup | Limits | Prepare | Clone | Register | AddPid | AwaitReady
    | Bridge | Lease | Veth | Link | Nat | Publish(k: nat) | NetDone
    | Netstate | SendGo | AwaitStarted | Save | AfterStart | Done

  function Stage(pc: Pc): nat {
    match pc
    case MkCgroup => 0 case Limits => 1 case Prepare => 2 case Clone => 3
    case Register => 4 case AddPid => 5 case AwaitReady => 6 case Bridge => 7
    case Lease => 8 case Veth => 9 case Link => 10 case Nat => 11
    case Publish(_) => 12 case NetDone => 13 case Netstate => 14 case SendGo => 15
    case AwaitStarted => 16 case Save => 17 case AfterStart => 18 case Done => 19
  }

  /** A failing `launch` drops its end of the channel first and then unwinds. */
  datatype Mode = Going | Unwinding | Dead

  datatype InitPc =
    | Unborn | Fresh | Configuring | SendingReady | BeforeGo | AwaitingGo | AfterGo | SettingUp
    | Forking | SendingStarted | Supervising | SendingExit | SendingError | Exited

  datatype Msg = Ready | Go | Started | Exit | Error

  /** The two processes and the channel between them.  `up` and `down` hold
      everything ever written by init and by the parent; `heard` and `taken` count
      the frames read at the other end.  `inside` says whether init, and so the
      workload it forks, is a member of the container's cgroup. */
  datatype Procs = Procs(
    mode: Mode, at: Pc, hasCgroup: bool, hasFd: bool, inside: bool,
    init: InitPc, workload: bool,
    up: seq<Msg>, heard: nat, down: seq<Msg>, taken: nat,
    netstate: bool, mounted: bool, forked: bool, recorded: bool)

  /** ... with the host, the undo stack, and the resources whose last undo failed. */
  datatype State = State(p: Procs, host: Host, rb: seq<Undo>, stuck: set<Resource>)

  function Start(h: Host): State {
    State(Procs(Going, MkCgroup, false, false, false, Unborn, false, [], 0, [], 0, false, false, false, false),
          h, [], {})
  }

  predicate Alive(i: InitPc) { !i.Unborn? && !i.Exited? }

  /** The workload inherits descriptor 3 from init, so the parent sees the end
      of the stream only when both are gone. */
  predicate PeerOpen(p: Procs) { Alive(p.init) || p.workload }

  predicate Failed(s: State) { s.p.mode.Unwinding? && s.rb == [] }

  predicate Committed(s: State) { s.p.mode.Going? && s.p.at.Done? }

  // -------------------------------------------------------------------------
  // Events
  // -------------------------------------------------------------------------

  datatype Event =
    | POk(flag: bool, addr: nat)        // the parent's current step works
    | PFail(flag: bool)                 // ... or fails
    | PRecv                             // the parent reads a frame or the end of the stream
    | PUndo(luck: Luck)                 // the parent pops an undo
    | PDies
    | IOk | IFail | IRecv | IDies       // the same for init
    | WEnds                             // the workload ends
    | Vanish                            // the kernel drops a dead network namespace
    | Env(host: Host)                   // anything another container does

  predicate Fallible(c: Config, pc: Pc) {
    !pc.NetDone? && !pc.Done? && (pc.Publish? ==> pc.k < |c.wanted|)
  }

  predicate Sending(i: InitPc) {
    i.SendingReady? || i.SendingStarted? || i.SendingExit? || i.SendingError?
  }

  predicate Enabled(c: Config, s: State, e: Event) {
    var p := s.p;
    match e
    case POk(flag, _) =>
      && p.mode.Going? && !p.at.Done? && !p.at.AwaitReady? && !p.at.AwaitStarted?
      && (p.at.MkCgroup? ==> flag || !c.limits)
      && (p.at.SendGo? ==> PeerOpen(p))
    case PFail(_) => p.mode.Going? && Fallible(c, p.at)
    case PRecv =>
      && p.mode.Going? && (p.at.AwaitReady? || p.at.AwaitStarted?)
      && (p.heard < |p.up| || !PeerOpen(p))
    case PUndo(l) => p.mode.Unwinding? && s.rb != [] && CanLeave(c, s.host, s.rb[|s.rb| - 1], l)
    case PDies => !p.mode.Dead?
    case IOk =>
      && Alive(p.init) && !p.init.AwaitingGo?
      && (Sending(p.init) ==> p.mode.Going?)
      && (p.init.Supervising? ==> !p.workload)
    case IFail => Alive(p.init) && !p.init.Supervising?
    case IRecv => p.init.AwaitingGo? && (p.taken < |p.down| || !p.mode.Going?)
    case IDies => Alive(p.init)
    case WEnds => p.workload
    case Vanish => c.bridge && Stage(p.at) >= Stage(Link) && !p.init.Unborn? && !PeerOpen(p)
    case Env(h) => Mine(c, h) == Mine(c, s.host)
  }

  /** Init ends; its pid namespace, if it has one, goes with it. */
  function EndInit(c: Config, p: Procs): Procs {
    p.(init := Exited, workload := p.workload && !c.pidNs)
  }

  /** Init is killed by pid, or with everything else in the cgroup: a busy
      cgroup is killed before it is removed. */
  function Reaped(c: Config, p: Procs, worked: set<Resource>): Procs {
    var swept := RCgroup in worked && p.inside;
    p.(init := if Alive(p.init) && (RProcess in worked || swept) then Exited else p.init,
       workload := p.workload && !(RProcess in worked && c.pidNs) && !swept)
  }

  function NextPc(c: Config, pc: Pc, flag: bool): Pc {
    match pc
    // Without cgroups a container that asked for no limits runs unaccounted.
    case MkCgroup => if flag then Limits else Prepare
    case Limits => Prepare
    case Prepare => Clone
    case Clone => Register
    case Register => AddPid
    case AddPid => AwaitReady
    case AwaitReady => if c.bridge then Bridge else NetDone
    case Bridge => Lease
    case Lease => Veth
    case Veth => Link
    case Link => Nat
    case Nat => Publish(0)
    case Publish(k) => if k < |c.wanted| then Publish(k + 1) else NetDone
    case NetDone => Netstate
    case Netstate => SendGo
    case SendGo => AwaitStarted
    case AwaitStarted => Save
    case Save => AfterStart
    case AfterStart => Done
    case Done => Done
  }

  /** The undo registered by a step that worked. */
  function Pushed(c: Config, pc: Pc): seq<Undo> {
    match pc
    case Limits => [UndoCgroup]
    case Register => [UndoProcess]
    case Lease => [UndoLease]
    case Veth => [UndoVeth]
    case Publish(k) => if k < |c.wanted| || c.wanted == [] then [] else [UndoRules]
    case NetDone => [UndoNetwork]
    case _ => []
  }

  /** What a step that worked does to the host. */
  function Acquired(c: Config, h: Host, pc: Pc, flag: bool, addr: nat): Host {
    match pc
    case MkCgroup => if flag then h.(cgroups := h.cgroups + {c.id}) else h
    // An id that holds a lease already keeps its address.
    case Lease => h.(leases := h.leases[c.id := if c.id in h.leases then h.leases[c.id] else addr])
    case Veth => h.(links := h.links + {c.veth})
    case Publish(k) => if k < |c.wanted| then h.(rules := AddRule(h.rules, Rule(c.id, c.wanted[k]))) else h
    case _ => h
  }

  /** ... and to the two processes.  The fallback to clone(2) ignores the cgroup
      descriptor (`flag` is false), yet `AddPid` acts only if there was none. */
  function ParentMoves(c: Config, p: Procs, flag: bool): Procs {
    p.(at := NextPc(c, p.at, flag),
       hasCgroup := p.hasCgroup || (p.at.MkCgroup? && flag),
       hasFd := p.hasFd || (p.at.Prepare? && p.hasCgroup && flag),
       inside := p.inside || (p.at.Clone? && p.hasFd && flag) || (p.at.AddPid? && p.hasCgroup && !p.hasFd),
       init := if p.at.Clone? then Fresh else p.init,
       down := if p.at.SendGo? then p.down + [Go] else p.down,
       netstate := p.netstate || p.at.Netstate?,
       recorded := p.recorded || p.at.Save?)
  }

  function ParentOk(c: Config, s: State, flag: bool, addr: nat): State {
    State(ParentMoves(c, s.p, flag),
          Acquired(c, s.host, s.p.at, flag, addr),
          if s.p.at.AfterStart? then [] else s.rb + Pushed(c, s.p.at),
          s.stuck)
  }

  /** A failing step: `flag` says whether a stale cgroup or veth was removed, or
      whether `Cgroup::create` could take its own directory away again. */
  function ParentFail(c: Config, s: State, flag: bool): State {
    var at := s.p.at;
    var removed: set<Resource> :=
      if !flag then {} else if at.MkCgroup? || at.Limits? then {RCgroup} else if at.Veth? then {RVeth} else {};
    State(s.p.(mode := Unwinding),
          ReleaseHost(c, s.host, removed),
          s.rb,
          if at.Limits? && !flag then s.stuck + {RCgroup} else s.stuck)
  }

  /** `expect`: any frame but the awaited one, or the end of the stream, is a failure. */
  function ParentRecv(c: Config, p: Procs): Procs {
    var more := p.heard < |p.up|;
    var awaited := more && p.up[p.heard] == if p.at.AwaitReady? then Ready else Started;
    p.(heard := if more then p.heard + 1 else p.heard,
       at := if awaited then NextPc(c, p.at, true) else p.at,
       mode := if awaited then p.mode else Unwinding)
  }

  function ParentUndo(c: Config, s: State, l: Luck): State
    requires s.rb != []
  {
    var u := s.rb[|s.rb| - 1];
    var worked := Targets(c, u) * l.done;
    State(Reaped(c, s.p, worked),
          UndoHost(c, s.host, u, l),
          s.rb[..|s.rb| - 1],
          (s.stuck - worked) + (Targets(c, u) - l.done))
  }

  function NextInit(i: InitPc): InitPc {
    match i
    case Unborn => Unborn
    case Fresh => Configuring
    case Configuring => SendingReady
    case SendingReady => BeforeGo
    case BeforeGo => AwaitingGo
    case AwaitingGo => AfterGo
    case AfterGo => SettingUp
    case SettingUp => Forking
    case Forking => SendingStarted
    case SendingStarted => Supervising
    case Supervising => SendingExit
    case SendingExit => Exited
    case SendingError => Exited
    case Exited => Exited
  }

  function Says(i: InitPc): seq<Msg> {
    match i
    case SendingReady => [Ready]
    case SendingStarted => [Started]
    case SendingExit => [Exit]
    case SendingError => [Error]
    case _ => []
  }

  function InitOk(c: Config, p: Procs): Procs {
    p.(init := NextInit(p.init),
       up := p.up + Says(p.init),
       mounted := p.mounted || p.init.SettingUp?,
       forked := p.forked || p.init.Forking?,
       workload := p.init.Forking? || (p.workload && !(c.pidNs && NextInit(p.init).Exited?)))
  }

  /** Init reports an error before it exits, unless that is what failed. */
  function InitFail(c: Config, p: Procs): Procs {
    var silent := p.init.Fresh? || p.init.SendingError? || p.init.SendingExit?;
    p.(init := if silent then Exited else SendingError,
       workload := p.workload && !(silent && c.pidNs),
       mounted := p.mounted || p.init.SettingUp?)
  }

  function InitRecv(p: Procs): Procs {
    if p.taken >= |p.down| then p.(init := SendingError)
    else p.(init := if p.down[p.taken].Go? then AfterGo else SendingError, taken := p.taken + 1)
  }

  /** PR_SET_PDEATHSIG is the first thing the child does: from then on it dies
      with its parent. */
  function ParentDies(c: Config, p: Procs): Procs {
    var spared := p.init.Fresh? || !Alive(p.init);
    p.(mode := Dead,
       init := if spared then p.init else Exited,
       workload := p.workload && (spared || !c.pidNs))
  }

  function Apply(c: Config, s: State, e: Event): State
    requires Enabled(c, s, e)
  {
    match e
    case POk(flag, addr) => ParentOk(c, s, flag, addr)
    case PFail(flag) => ParentFail(c, s, flag)
    case PUndo(l) => ParentUndo(c, s, l)
    case PRecv => s.(p := ParentRecv(c, s.p))
    case PDies => s.(p := ParentDies(c, s.p))
    case IOk => s.(p := InitOk(c, s.p))
    case IFail => s.(p := InitFail(c, s.p))
    case IRecv => s.(p := InitRecv(s.p))
    case IDies => s.(p := EndInit(c, s.p))
    case WEnds => s.(p := s.p.(workload := false))
    case Vanish => s.(host := s.host.(links := s.host.links - {c.veth}))
    case Env(h) => s.(host := h)
  }

  /** The state a run of events leads to, if each was possible when it happened. */
  function After(c: Config, s: State, es: seq<Event>): Option<State> {
    if es == [] then Some(s)
    else
      var t := After(c, s, es[..|es| - 1]);
      if t.Some? && Enabled(c, t.value, es[|es| - 1]) then Some(Apply(c, t.value, es[|es| - 1])) else None
  }
}
