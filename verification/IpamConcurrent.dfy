/** Many `myrun` processes sharing one lease file.

Each process locks, loads, decides, writes a temporary file, renames it and
unlocks, one system call at a time and interleaved with the others; any of those
calls may fail and a process may be killed between any two of them, which drops
its `flock` (`src/runtime/ipam.rs`, `src/sys/mod.rs`, `src/util/mod.rs`).  The
interleaved system is proved to refine one in which operations are atomic.
*/
module IpamConcurrent {
  import opened Bytes
  import opened Wrappers
  import opened Ipv4
  import opened Ipam

  type Pid = nat

  datatype Op =
    | Alloc(subnet: string, id: string, requested: Option<Ip>, gateway: Ip)
    | Release(id: string)
    | Collect(live: seq<string>)

  datatype Reply = Granted(ip: Ip, prefix: nat) | Refused | Released | Removed(n: nat) | IoError

  /** What one operation does to the leases, and answers. */
  ghost predicate Computes(op: Op, l: Leases, reply: Reply, l': Leases) {
    match op
    case Alloc(subnet, id, requested, gateway) =>
      || (reply.Granted? && Allocates(l, subnet, id, requested, gateway, Ok((reply.ip, reply.prefix)), l'))
      || (reply.Refused? && Allocates(l, subnet, id, requested, gateway, Err, l'))
    case Release(id) => reply.Released? && Releases(l, id, l')
    case Collect(live) => reply.Removed? && Collects(l, live, reply.n, l')
  }

  /** ... or, when a system call fails, nothing. */
  ghost predicate Performs(op: Op, l: Leases, reply: Reply, l': Leases) {
    Computes(op, l, reply, l') || (reply.IoError? && l' == l)
  }

  // -------------------------------------------------------------------------
  // The interleaved system
  // -------------------------------------------------------------------------

  datatype Phase =
    | Idle
    | Called(op: Op)
    | Locked(op: Op)
    | Loaded(op: Op, leases: Leases)
    | Writing(op: Op, reply: Reply, leases: Leases)
    | Unlocking(op: Op, reply: Reply)
    | Returned(op: Op, reply: Reply)
    | Crashed

  datatype State = State(file: Option<seq<byte>>, lock: Option<Pid>, procs: map<Pid, Phase>)

  predicate Holding(ph: Phase) {
    ph.Locked? || ph.Loaded? || ph.Writing? || ph.Unlocking?
  }

  /** One system call of process `p`. */
  ghost predicate Step(s: State, p: Pid, s': State) {
    && p in s.procs
    && s'.procs.Keys == s.procs.Keys
    && (forall q :: q in s.procs && q != p ==> s'.procs[q] == s.procs[q])
    && StepOf(s, p, s.procs[p], s'.procs[p], s')
  }

  ghost predicate StepOf(s: State, p: Pid, ph: Phase, ph': Phase, s': State) {
    if ph'.Crashed? then
      // The kernel drops the lock of a dead process.
      && !ph.Crashed?
      && s'.file == s.file
      && s'.lock == if Holding(ph) then None else s.lock
    else match ph {
      case Idle => ph'.Called? && s'.file == s.file && s'.lock == s.lock
      case Called(op) =>
        && s'.file == s.file
        && ((ph' == Locked(op) && s.lock == None && s'.lock == Some(p))
            || (ph' == Returned(op, IoError) && s'.lock == s.lock))
      case Locked(op) =>
        && s'.file == s.file && s'.lock == s.lock
        && ((ph' == Loaded(op, Load(s.file)) && IsReadable(s.file)) || ph' == Unlocking(op, IoError))
      case Loaded(op, l) =>
        && s'.file == s.file && s'.lock == s.lock
        && ((ph'.Unlocking? && ph'.op == op && Computes(op, l, ph'.reply, l))
            || (ph'.Writing? && ph'.op == op && Computes(op, l, ph'.reply, ph'.leases)))
      case Writing(op, reply, l') =>
        && s'.lock == s.lock
        && ((ph' == Unlocking(op, reply) && s'.file == Some(FileText(l')))
            || (ph' == Unlocking(op, IoError) && s'.file == s.file))
      case Unlocking(op, reply) =>
        ph' == Returned(op, reply) && s'.file == s.file && s'.lock == None
      case Returned(_, _) => ph'.Idle? && s'.file == s.file && s'.lock == s.lock
      case Crashed => false
    }
  }

  ghost predicate Init(s: State) {
    && s.lock == None
    && (forall p :: p in s.procs ==> s.procs[p].Idle?)
    && Consistent(Load(s.file))
  }

  /** A lock is held by whoever is between acquiring and releasing it, and what
      that process has loaded or prepared is still up to date. */
  ghost predicate Inv(s: State) {
    && Consistent(Load(s.file))
    && (forall p :: p in s.procs && Holding(s.procs[p]) ==> s.lock == Some(p))
    && (s.lock.Some? ==> s.lock.value in s.procs && Holding(s.procs[s.lock.value]))
    && (forall p :: p in s.procs && s.procs[p].Loaded? ==> s.procs[p].leases == Load(s.file))
    && (forall p :: p in s.procs && s.procs[p].Writing? ==>
          Computes(s.procs[p].op, Load(s.file), s.procs[p].reply, s.procs[p].leases))
  }

  // -------------------------------------------------------------------------
  // The atomic system
  // -------------------------------------------------------------------------

  datatype AtomicPhase = Out | Pending(op: Op) | Answered(op: Op, reply: Reply) | Dead

  datatype AtomicState = AtomicState(leases: Leases, procs: map<Pid, AtomicPhase>)

  /** Call, take effect all at once, return, or die. */
  ghost predicate AtomicStep(a: AtomicState, p: Pid, a': AtomicState) {
    && p in a.procs
    && a'.procs.Keys == a.procs.Keys
    && (forall q :: q in a.procs && q != p ==> a'.procs[q] == a.procs[q])
    && var ph, ph' := a.procs[p], a'.procs[p];
       || (ph.Out? && ph'.Pending? && a'.leases == a.leases)
       || (ph.Pending? && ph'.Answered? && ph'.op == ph.op
           && Performs(ph.op, a.leases, ph'.reply, a'.leases))
       || (ph.Answered? && ph'.Out? && a'.leases == a.leases)
       || (!ph.Dead? && ph'.Dead? && a'.leases == a.leases)
  }

  ghost function AbstractPhase(ph: Phase): AtomicPhase {
    match ph
    case Idle => Out
    case Called(op) => Pending(op)
    case Locked(op) => Pending(op)
    case Loaded(op, _) => Pending(op)
    case Writing(op, _, _) => Pending(op)
    case Unlocking(op, reply) => Answered(op, reply)
    case Returned(op, reply) => Answered(op, reply)
    case Crashed => Dead
  }

  ghost function Abstract(s: State): AtomicState {
    AtomicState(Load(s.file), map p | p in s.procs :: AbstractPhase(s.procs[p]))
  }

  // -------------------------------------------------------------------------
  // Refinement
  // -------------------------------------------------------------------------

  lemma ComputesKeepsConsistency(op: Op, l: Leases, reply: Reply, l': Leases)
    requires Consistent(l) && Computes(op, l, reply, l')
    ensures Consistent(l')
  {
    match op
    case Alloc(subnet, id, requested, gateway) =>
      if reply.Granted? {
        AllocateKeepsConsistency(l, subnet, id, requested, gateway, Ok((reply.ip, reply.prefix)), l');
      } else {
        AllocateKeepsConsistency(l, subnet, id, requested, gateway, Err, l');
      }
    case Release(id) => ReleaseKeepsConsistency(l, id, l');
    case Collect(live) => CollectKeepsConsistency(l, live, reply.n, l');
  }

  lemma StepKeepsInv(s: State, p: Pid, s': State)
    requires Inv(s) && Step(s, p, s')
    ensures Inv(s')
  {
    hide Computes, Load, FileText, Consistent;
    var ph := s.procs[p];
    if s'.file != s.file {
      LoadAfterStore(ph.leases);
      ComputesKeepsConsistency(ph.op, Load(s.file), ph.reply, ph.leases);
    }
  }

  lemma StepRefines(s: State, p: Pid, s': State)
    requires Inv(s) && Step(s, p, s')
    ensures Abstract(s') == Abstract(s) || AtomicStep(Abstract(s), p, Abstract(s'))
  {
    hide Computes, Load, FileText, Consistent;
    var ph := s.procs[p];
    if ph.Writing? {
      LoadAfterStore(ph.leases);
    }
    assert forall q :: q in s.procs && q != p ==> Abstract(s').procs[q] == Abstract(s).procs[q];
    if AbstractPhase(s'.procs[p]) == AbstractPhase(ph) {
      assert s'.file == s.file;
      assert Abstract(s').procs == Abstract(s).procs;
    }
  }

  ghost predicate IsRun(states: seq<State>, movers: seq<Pid>) {
    && |states| == |movers| + 1
    && Init(states[0])
    && forall i :: 0 <= i < |movers| ==> Step(states[i], movers[i], states[i + 1])
  }

  /** In every run of any number of processes, with failures and crashes
      anywhere, the lease file never holds an id or an address twice, and each
      step is either invisible or one step of the atomic system. */
  lemma {:induction false} EveryRunIsAtomic(states: seq<State>, movers: seq<Pid>)
    requires IsRun(states, movers)
    ensures forall i :: 0 <= i < |states| ==> Inv(states[i])
    ensures forall i :: 0 <= i < |movers| ==>
      || Abstract(states[i + 1]) == Abstract(states[i])
      || AtomicStep(Abstract(states[i]), movers[i], Abstract(states[i + 1]))
    decreases |movers|
  {
    hide Step, Inv, AtomicStep, Abstract;
    if movers == [] {
      assert Inv(states[0]) by {
        InitInv(states[0]);
      }
    } else {
      var n := |movers| - 1;
      assert IsRun(states[..n + 1], movers[..n]);
      EveryRunIsAtomic(states[..n + 1], movers[..n]);
      assert Inv(states[..n + 1][n]);
      assert Step(states[n], movers[n], states[n + 1]);
      StepKeepsInv(states[n], movers[n], states[n + 1]);
      StepRefines(states[n], movers[n], states[n + 1]);
      forall i | 0 <= i < |movers|
        ensures || Abstract(states[i + 1]) == Abstract(states[i])
                || AtomicStep(Abstract(states[i]), movers[i], Abstract(states[i + 1]))
      {
        if i < n {
          assert states[..n + 1][i] == states[i] && states[..n + 1][i + 1] == states[i + 1];
          assert movers[..n][i] == movers[i];
        }
      }
      forall i | 0 <= i < |states|
        ensures Inv(states[i])
      {
        if i <= n {
          assert states[..n + 1][i] == states[i];
        }
      }
    }
  }

  lemma InitInv(s: State)
    requires Init(s)
    ensures Inv(s)
  {
  }

  /** Two processes never hold the same address: at any point of any run, two
      different containers with leases have different ones. */
  lemma NoSharedAddress(states: seq<State>, movers: seq<Pid>, i: nat, a: Lease, b: Lease)
    requires IsRun(states, movers) && i < |states|
    requires a in Load(states[i].file).entries && b in Load(states[i].file).entries
    ensures a.id == b.id <==> a.ip == b.ip
  {
    EveryRunIsAtomic(states, movers);
    assert Inv(states[i]);
    var e := Load(states[i].file).entries;
    var x :| 0 <= x < |e| && e[x] == a;
    var y :| 0 <= y < |e| && e[y] == b;
    if x < y {
    } else if y < x {
    }
  }
}
