/** The life of one container: its record in `state.json`, its init process and
its cgroup, as the verbs of `src/runtime/lifecycle.rs` change them.

Each verb that loads the record, changes it and saves it is one step here, and so is
what happens between two steps (a process dying, time passing).  The process that
creates or launches a container works differently: it keeps one record in memory
and saves that copy several times (`src/runtime/supervisor.rs`,
`src/runtime/shim.rs`), without the container's lock and whatever became of the file
in the meantime.  Each of its saves is a step.  Kernel and file operations may fail:
`Luck` says which ones work.
*/
module Lifecycle {
  import opened Wrappers

  // -------------------------------------------------------------------------
  // The record
  // -------------------------------------------------------------------------

  datatype Status = Creating | Created | Running | Paused | Stopping | Stopped

  predicate IsLive(s: Status) { s.Running? || s.Paused? || s.Stopping? }

  predicate CanTransition(a: Status, b: Status) {
    || (a.Creating? && (b.Created? || b.Stopped?))
    || (a.Created? && (b.Running? || b.Stopped?))
    || (a.Running? && (b.Paused? || b.Stopping? || b.Stopped?))
    || (a.Paused? && (b.Running? || b.Stopping? || b.Stopped?))
    || (a.Stopping? && b.Stopped?)
  }

  /** Times are milliseconds, zero while not set; `init` identifies the init
      process by pid and start time, zero before the launch. */
  datatype Record = Record(status: Status, startedAt: nat, finishedAt: nat, exit: Option<int>, init: nat)

  const NEW_RECORD := Record(Creating, 0, 0, None, 0)

  function Once(t: nat, now: nat): nat { if t == 0 then now else t }

  /** `transition`. */
  function Transition(r: Record, next: Status, now: nat): Result<Record> {
    if r.status == next then Ok(r)
    else if !CanTransition(r.status, next) then Err
    else Ok(r.(status := next,
               startedAt := if next.Running? then Once(r.startedAt, now) else r.startedAt,
               finishedAt := if next.Stopped? then Once(r.finishedAt, now) else r.finishedAt))
  }

  /** `record_exit`. */
  function RecordExit(r: Record, code: int, now: nat): Record {
    r.(exit := Some(code), finishedAt := Once(r.finishedAt, now))
  }

  /** The forced correction of `reconcile` and `teardown`, past the table. */
  function ForceStopped(r: Record, now: nat): Record {
    r.(status := Stopped, finishedAt := Once(r.finishedAt, now))
  }

  // -------------------------------------------------------------------------
  // The verbs
  // -------------------------------------------------------------------------

  /** `living` holds the init processes that are alive and `launches` how many
      there ever were; `cgroup` says whether the directory exists and, if so, whether
      it is frozen; `held` are the copies of the processes that create, launch or
      supervise.  There can be several, as when a container is deleted and its id used
      again before its supervisor is done. */
  datatype World = World(
    stored: Option<Record>, living: set<nat>, launches: nat, cgroup: Option<bool>, clock: nat, held: seq<Copy>)

  /** A record in memory; `due` while a shim has yet to save it with its own pid. */
  datatype Copy = Copy(record: Record, due: bool)

  datatype Luck = Luck(reconcile: bool, kernel: bool, signal: bool, save: bool)

  const FINE := Luck(true, true, true, true)

  /** Of a process that holds copy `k`: `Finish` marks what `Create` wrote as created,
      `Load` is another way to begin, `Launch` and `LaunchFails` end a launch (a
      foreground run then removes the record; `ran` if the failure came after the
      switch to running), `Announce` is a shim's save after the launch, `Exit` its
      save when init has ended, `Retire` its teardown, perhaps with removal. */
  datatype Verb =
    | Create | Load | Finish(k: nat)
    | Launch(k: nat, grouped: bool, detached: bool)
    | LaunchFails(k: nat, removed: bool, ran: bool)
    | Announce(k: nat)
    | Exit(k: nat, code: int)
    | Retire(k: nat, removed: bool)
    | Leave(k: nat)                   // the process ends or is killed
    | Pause | Unpause | Kill | StopBegin
    | Look                            // load and reconcile, as `list` and `wait` do
    | Teardown | Delete(force: bool)
    | InitDies(n: nat) | Tick(ms: nat)

  function Save(w: World, r: Record, l: Luck): World { if l.save then w.(stored := Some(r)) else w }

  /** `init_is_alive`. */
  predicate Alive(w: World) { w.stored.Some? && w.stored.value.init in w.living }

  /** `load_reconciled`: a live status whose init is gone becomes `Stopped`. */
  function Reconciled(w: World, l: Luck): Result<World> {
    if w.stored.None? then Err
    else if !IsLive(w.stored.value.status) || Alive(w) then Ok(w)
    else if l.reconcile then Ok(w.(stored := Some(ForceStopped(w.stored.value, w.clock))))
    else Err
  }

  function DoPause(w: World, l: Luck): World
    requires w.stored.Some?
  {
    if !w.stored.value.status.Running? || w.cgroup.None? || !l.kernel then w
    else Save(w.(cgroup := Some(true)), w.stored.value.(status := Paused), l)
  }

  function DoUnpause(w: World, l: Luck): World
    requires w.stored.Some?
  {
    if !w.stored.value.status.Paused? || w.cgroup.None? || !l.kernel then w
    else
      var r := w.stored.value;
      Save(w.(cgroup := Some(false)), r.(status := Running, startedAt := Once(r.startedAt, w.clock)), l)
  }

  /** A frozen container is thawed before it is signalled; whether that worked is
      not looked at. */
  function Thawed(w: World, l: Luck): World
    requires w.stored.Some?
  {
    if w.stored.value.status.Paused? && w.cgroup.Some? && l.kernel then w.(cgroup := Some(false)) else w
  }

  function Woken(r: Record, now: nat): Record {
    if r.status.Paused? then r.(status := Running, startedAt := Once(r.startedAt, now)) else r
  }

  /** The record is saved only after the signal got through. */
  function DoKill(w: World, l: Luck): World
    requires w.stored.Some?
  {
    if !IsLive(w.stored.value.status) then w
    else if !l.signal then Thawed(w, l)
    else Save(Thawed(w, l), Woken(w.stored.value, w.clock), l)
  }

  /** `stop`, up to sending SIGTERM. */
  function DoStop(w: World, l: Luck): World
    requires w.stored.Some?
  {
    if !IsLive(w.stored.value.status) then w
    else Save(Thawed(w, l), Woken(w.stored.value, w.clock).(status := Stopping), l)
  }

  /** `teardown` of a record in memory: kill its init, remove the cgroup, save the
      record as stopped; best effort throughout. */
  function DoTeardown(w: World, r: Record, l: Luck): World {
    Save(w.(living := if l.signal then w.living - {r.init} else w.living,
            cgroup := if l.kernel then None else w.cgroup),
         if IsLive(r.status) then ForceStopped(r, w.clock) else r, l)
  }

  /** A live container is stopped first: marked, killed and torn down, and only then
      torn down once more and removed. */
  function DoDelete(w: World, force: bool, l: Luck): World
    requires w.stored.Some?
  {
    if IsLive(w.stored.value.status) && !force then w
    else if IsLive(w.stored.value.status) && !(l.save && l.signal) then DoStop(w, l)
    else
      var stopped := if IsLive(w.stored.value.status) then DoStop(w, l) else w;
      var torn := DoTeardown(stopped, stopped.stored.value, l);
      if l.save then torn.(stored := None) else torn
  }

  function Without(held: seq<Copy>, k: nat): seq<Copy>
    requires k < |held|
  {
    held[..k] + held[k + 1..]
  }

  /** What a supervisor saves when its container has ended. */
  function Ended(r: Record, code: int, now: nat): Record {
    var e := RecordExit(r, code, now);
    var t := Transition(e, Stopped, now);
    if t.Ok? then t.value else e
  }

  predicate HoldsCopy(v: Verb) {
    v.Finish? || v.Launch? || v.LaunchFails? || v.Announce? || v.Exit? || v.Retire? || v.Leave?
  }

  predicate Enabled(w: World, v: Verb) {
    && (HoldsCopy(v) ==> v.k < |w.held|)
    && match v
       case Create => w.stored.None?
       case Load => w.stored.Some? && w.stored.value.status.Created?
       case Finish(k) => w.held[k].record.status.Creating?
       case Launch(k, _, _) => w.held[k].record.status.Created?
       case LaunchFails(k, _, _) => w.held[k].record.status.Created?
       case Announce(k) => w.held[k].record.status.Running? && w.held[k].due
       case Exit(k, _) => w.held[k].record.status.Running? && !w.held[k].due && w.held[k].record.init !in w.living
       case Retire(k, _) => w.held[k].record.status.Stopped?
       case Teardown => w.stored.Some?
       case InitDies(n) => n in w.living
       case _ => true
  }

  /** The record as the process that holds copy `k` saves it in a step. */
  function OwnRecord(w: World, v: Verb): Record
    requires Enabled(w, v) && HoldsCopy(v)
  {
    var r := w.held[v.k].record;
    match v
    case Finish(_) => r.(status := Created)
    case Launch(_, _, _) => r.(status := Running, startedAt := Once(r.startedAt, w.clock), init := w.launches + 1)
    case LaunchFails(_, _, ran) =>
      r.(status := Stopped, finishedAt := w.clock, startedAt := if ran then Once(r.startedAt, w.clock) else r.startedAt)
    case Exit(_, code) => Ended(r, code, w.clock)
    case _ => r
  }

  /** What such a step leaves on file: a launch has worked only if its save did, and
      removal comes after the save. */
  function Filed(w: World, v: Verb, l: Luck): Option<Record>
    requires Enabled(w, v) && HoldsCopy(v)
  {
    if v.Leave? || (!l.save && !v.Launch?) then w.stored
    else if (v.LaunchFails? || v.Retire?) && v.removed then None
    else Some(OwnRecord(w, v))
  }

  /** ... and what the process then has: it goes on with what it saved, or is gone. */
  function Kept(w: World, v: Verb, l: Luck): seq<Copy>
    requires Enabled(w, v) && HoldsCopy(v)
  {
    if v.Launch? then w.held[v.k := Copy(OwnRecord(w, v), v.detached)]
    else if l.save && (v.Finish? || v.Announce? || v.Exit?) then w.held[v.k := Copy(OwnRecord(w, v), false)]
    else Without(w.held, v.k)
  }

  /** An init dies with the process that launched it, and in its teardown. */
  function Surviving(w: World, v: Verb, l: Luck): set<nat>
    requires Enabled(w, v) && HoldsCopy(v)
  {
    if v.Launch? then w.living + {w.launches + 1}
    else if v.Leave? || (v.Announce? && !l.save) || (v.Retire? && l.signal) then w.living - {w.held[v.k].record.init}
    else w.living
  }

  function DoOwn(w: World, v: Verb, l: Luck): World
    requires Enabled(w, v) && HoldsCopy(v)
  {
    w.(stored := Filed(w, v, l), held := Kept(w, v, l), living := Surviving(w, v, l),
       launches := if v.Launch? then w.launches + 1 else w.launches,
       cgroup := if v.Launch? then (if v.grouped then Some(false) else None)
                 else if v.Retire? && l.kernel then None else w.cgroup)
  }

  function Apply(w: World, v: Verb, l: Luck): World
    requires Enabled(w, v)
  {
    match v
    case Create => if l.save then w.(stored := Some(NEW_RECORD), held := w.held + [Copy(NEW_RECORD, false)]) else w
    case Load => w.(held := w.held + [Copy(w.stored.value, false)])
    case Teardown => DoTeardown(w, w.stored.value, l)
    case InitDies(n) => w.(living := w.living - {n})
    case Tick(ms) => w.(clock := w.clock + ms)
    case Look => var r := Reconciled(w, l); if r.Ok? then r.value else w
    case Pause => var r := Reconciled(w, l); if r.Ok? then DoPause(r.value, l) else w
    case Unpause => var r := Reconciled(w, l); if r.Ok? then DoUnpause(r.value, l) else w
    case Kill => var r := Reconciled(w, l); if r.Ok? then DoKill(r.value, l) else w
    case StopBegin => var r := Reconciled(w, l); if r.Ok? then DoStop(r.value, l) else w
    case Delete(force) => var r := Reconciled(w, l); if r.Ok? then DoDelete(r.value, force, l) else w
    case _ => DoOwn(w, v, l)
  }

  // -------------------------------------------------------------------------
  // The table
  // -------------------------------------------------------------------------

  predicate Legal(p: seq<Status>) {
    forall i :: 0 <= i < |p| - 1 ==> CanTransition(p[i], p[i + 1])
  }

  ghost predicate Reaches(a: Status, b: Status) {
    exists p: seq<Status> :: p != [] && Legal(p) && p[0] == a && p[|p| - 1] == b
  }

  lemma ReachesSelf(a: Status)
    ensures Reaches(a, a)
  {
    assert Legal([a]);
  }

  lemma ReachesByTable(a: Status, b: Status)
    requires CanTransition(a, b)
    ensures Reaches(a, b)
  {
    assert Legal([a, b]);
  }

  /** Which statuses can follow which, however many steps later. */
  predicate Follows(a: Status, b: Status) {
    match a
    case Creating => true
    case Created => !b.Creating?
    case Running => IsLive(b) || b.Stopped?
    case Paused => IsLive(b) || b.Stopped?
    case Stopping => b.Stopping? || b.Stopped?
    case Stopped => b.Stopped?
  }

  lemma {:induction false} PathFollows(p: seq<Status>)
    requires p != [] && Legal(p)
    ensures Follows(p[0], p[|p| - 1])
  {
    if |p| > 1 {
      assert CanTransition(p[0], p[1]);
      assert Legal(p[1..]) by {
        forall i | 0 <= i < |p| - 2 ensures CanTransition(p[1..][i], p[1..][i + 1]) {
          assert CanTransition(p[i + 1], p[i + 2]);
        }
      }
      PathFollows(p[1..]);
    }
  }

  /** The closure of the transition table. */
  lemma ReachesExactly(a: Status, b: Status)
    ensures Reaches(a, b) <==> Follows(a, b)
  {
    if Reaches(a, b) {
      var p: seq<Status> :| p != [] && Legal(p) && p[0] == a && p[|p| - 1] == b;
      PathFollows(p);
    }
    if Follows(a, b) {
      ReachesSelf(a);
      if a == b {
      } else if CanTransition(a, b) {
        ReachesByTable(a, b);
      } else {
        assert Legal([Created, Running]) && Legal([Creating, Created, Running]);
        var p :=
          (if a.Creating? then [Creating, Created, Running] else if a.Created? then [Created, Running] else [a]) +
          (if b.Running? then [] else [b]);
        assert Legal(p);
      }
    }
  }

  /** The table read backwards: from where each status is entered. */
  function EnteredFrom(b: Status): set<Status> {
    match b
    case Creating => {}
    case Created => {Creating}
    case Running => {Created, Paused}
    case Paused => {Running}
    case Stopping => {Running, Paused}
    case Stopped => {Creating, Created, Running, Paused, Stopping}
  }

  /** A transition is refused, and changes nothing, exactly if the table has no such
      entry. */
  lemma TransitionExactly(r: Record, next: Status, now: nat)
    ensures Transition(r, next, now).Ok? <==> next == r.status || r.status in EnteredFrom(next)
    ensures
      var t := Transition(r, next, now);
      t.Ok? ==> t.value.status == next && t.value.exit == r.exit && t.value.init == r.init
  {
  }

  /** Nothing is live that was not created and then running. */
  lemma {:induction false} LivePathsPassThroughRunning(p: seq<Status>)
    requires p != [] && Legal(p) && !IsLive(p[0]) && IsLive(p[|p| - 1])
    ensures Running in p && Created in p
  {
    assert CanTransition(p[0], p[1]);
    var rest := p[1..];
    assert Legal(rest) by {
      forall i | 0 <= i < |rest| - 1 ensures CanTransition(rest[i], rest[i + 1]) {
        assert CanTransition(p[i + 1], p[i + 2]);
      }
    }
    PathFollows(rest);
    if p[0].Creating? {
      LivePathsPassThroughRunning(rest);
      assert forall s :: s in rest ==> s in p;
    }
  }

  // -------------------------------------------------------------------------
  // What every step keeps
  // -------------------------------------------------------------------------

  /** The times tell the status: started once it has run, finished once stopped. */
  predicate SaneRecord(r: Record, now: nat) {
    && (r.finishedAt != 0 <==> r.status.Stopped?)
    && (IsLive(r.status) ==> r.startedAt != 0)
    && (r.status.Creating? || r.status.Created? ==> r.startedAt == 0)
    && r.startedAt <= now && r.finishedAt <= now
    && (r.status.Stopped? ==> r.startedAt <= r.finishedAt)
  }

  /** A copy in memory is as created, as launched or as at the exit. */
  predicate SaneCopy(c: Copy, now: nat) {
    && SaneRecord(c.record, now) && !c.record.status.Paused? && !c.record.status.Stopping?
    && (c.record.status.Stopped? ==> c.record.startedAt != 0)
  }

  predicate Sane(w: World) {
    && w.clock > 0
    && (w.stored.Some? ==> SaneRecord(w.stored.value, w.clock))
    && (forall k :: 0 <= k < |w.held| ==> SaneCopy(w.held[k], w.clock))
  }

  lemma ClockOf(w: World, v: Verb, l: Luck)
    requires Enabled(w, v)
    ensures Apply(w, v, l).clock == if v.Tick? then w.clock + v.ms else w.clock
  {
  }

  /** Where a copy comes from: it was there, it was just written or loaded, or its
      process has just saved it. */
  lemma HeldOf(w: World, v: Verb, l: Luck, k: nat)
    requires Enabled(w, v) && k < |Apply(w, v, l).held|
    ensures
      var c := Apply(w, v, l).held[k];
      || c in w.held
      || (v.Create? && c.record == NEW_RECORD)
      || (v.Load? && c.record == w.stored.value)
      || ((v.Finish? || v.Launch? || v.Announce? || v.Exit?) && c.record == OwnRecord(w, v))
  {
    hide Reconciled, DoDelete, DoTeardown, DoStop, DoKill, DoPause, DoUnpause, OwnRecord, Filed, Surviving;
    if !HoldsCopy(v) && !v.Create? && !v.Load? {
      HeldStays(w, v, l);
    }
  }

  lemma HeldStays(w: World, v: Verb, l: Luck)
    requires Enabled(w, v) && !HoldsCopy(v) && !v.Create? && !v.Load?
    ensures Apply(w, v, l).held == w.held
  {
  }

  lemma OwnRecordIsSane(w: World, v: Verb)
    requires Sane(w) && Enabled(w, v) && HoldsCopy(v)
    ensures SaneRecord(OwnRecord(w, v), w.clock)
    ensures v.Finish? || v.Launch? || v.Announce? || v.Exit? ==> SaneCopy(Copy(OwnRecord(w, v), false), w.clock)
  {
    assert SaneCopy(w.held[v.k], w.clock);
  }

  lemma CopiesStaySane(w: World, v: Verb, l: Luck)
    requires Sane(w) && Enabled(w, v)
    ensures
      var w' := Apply(w, v, l);
      w.clock <= w'.clock && forall k :: 0 <= k < |w'.held| ==> SaneCopy(w'.held[k], w'.clock)
  {
    hide Apply, OwnRecord;
    var w' := Apply(w, v, l);
    ClockOf(w, v, l);
    if HoldsCopy(v) {
      OwnRecordIsSane(w, v);
    }
    forall k | 0 <= k < |w'.held| ensures SaneCopy(w'.held[k], w'.clock) {
      HeldOf(w, v, l, k);
    }
  }

  /** One record, later: the status has moved along the table and times that
      were set have stayed. */
  predicate Ages(r: Record, r': Record) {
    && Follows(r.status, r'.status)
    && (r.startedAt != 0 ==> r'.startedAt == r.startedAt)
    && (r.finishedAt != 0 ==> r'.finishedAt == r.finishedAt)
  }

  predicate Moves(w: World, w': World) {
    && (w.stored.Some? && w'.stored.Some? ==> Ages(w.stored.value, w'.stored.value))
    && (w.stored.None? && w'.stored.Some? ==> w'.stored.value == NEW_RECORD)
  }

  /** A process saves its copy in this step. */
  predicate SavesCopy(w: World, v: Verb, l: Luck) {
    && HoldsCopy(v) && !v.Leave? && (l.save || v.Launch?)
    && !((v.LaunchFails? || v.Retire?) && v.removed)
  }

  /** ... as created over a record that is past that, or as running over one that is
      stopping or stopped. */
  predicate Reverts(w: World, v: Verb, l: Luck) {
    && SavesCopy(w, v, l) && w.stored.Some?
    && var s := w.stored.value.status;
       || (v.Finish? && !s.Creating? && !s.Created?)
       || ((v.Launch? || v.Announce?) && (s.Stopping? || s.Stopped?))
  }

  /** ... or over a record that was removed, that is of another launch, or that
      somebody else has finished at another time. */
  predicate Overwrites(w: World, v: Verb, l: Luck)
    requires Enabled(w, v)
  {
    || Reverts(w, v, l)
    || (&& SavesCopy(w, v, l)
        && (|| w.stored.None?
            || (w.stored.value.startedAt != 0 && w.stored.value.startedAt != OwnRecord(w, v).startedAt)
            || (w.stored.value.finishedAt != 0 && w.stored.value.finishedAt != OwnRecord(w, v).finishedAt)))
  }

  lemma StepKeepsSane(w: World, v: Verb, l: Luck)
    requires Sane(w) && Enabled(w, v)
    ensures Sane(Apply(w, v, l))
  {
    CopiesStaySane(w, v, l);
    StoredStaysSane(w, v, l);
    hide Apply, SaneCopy, SaneRecord;
  }

  /** What a verb on the reconciled record leaves on file. */
  lemma VerbStaysSane(w: World, l: Luck)
    requires w.clock > 0 && w.stored.Some? && SaneRecord(w.stored.value, w.clock)
    ensures DoPause(w, l).stored.Some? && SaneRecord(DoPause(w, l).stored.value, w.clock)
    ensures DoUnpause(w, l).stored.Some? && SaneRecord(DoUnpause(w, l).stored.value, w.clock)
    ensures DoKill(w, l).stored.Some? && SaneRecord(DoKill(w, l).stored.value, w.clock)
    ensures DoStop(w, l).stored.Some? && SaneRecord(DoStop(w, l).stored.value, w.clock)
  {
  }

  predicate ActsOnReconciled(v: Verb) {
    v.Look? || v.Pause? || v.Unpause? || v.Kill? || v.StopBegin? || v.Delete?
  }

  lemma ReconciledStaysSane(w: World, v: Verb, l: Luck)
    requires Sane(w) && Enabled(w, v) && ActsOnReconciled(v)
    ensures Apply(w, v, l).stored.Some? ==> SaneRecord(Apply(w, v, l).stored.value, w.clock)
  {
    hide DoPause, DoUnpause, DoKill, DoStop, DoDelete;
    var r := Reconciled(w, l);
    if r.Ok? {
      VerbStaysSane(r.value, l);
      if v.Delete? { DeleteStaysSane(r.value, v.force, l); }
    }
  }

  lemma OtherStaysSane(w: World, v: Verb, l: Luck)
    requires Sane(w) && Enabled(w, v) && !ActsOnReconciled(v)
    ensures
      var w' := Apply(w, v, l);
      w'.stored.Some? ==> SaneRecord(w'.stored.value, w'.clock)
  {
    hide Reconciled, DoPause, DoUnpause, DoKill, DoStop, DoDelete, OwnRecord, Kept, Surviving;
    if HoldsCopy(v) {
      OwnRecordIsSane(w, v);
    }
  }

  lemma StoredStaysSane(w: World, v: Verb, l: Luck)
    requires Sane(w) && Enabled(w, v)
    ensures
      var w' := Apply(w, v, l);
      w'.clock > 0 && (w'.stored.Some? ==> SaneRecord(w'.stored.value, w'.clock))
  {
    hide Apply, Enabled, SaneRecord;
    ClockOf(w, v, l);
    if ActsOnReconciled(v) {
      ReconciledStaysSane(w, v, l);
    } else {
      OtherStaysSane(w, v, l);
    }
  }

  lemma DeleteStaysSane(w: World, force: bool, l: Luck)
    requires w.clock > 0 && w.stored.Some? && SaneRecord(w.stored.value, w.clock)
    ensures DoDelete(w, force, l).stored.Some? ==> SaneRecord(DoDelete(w, force, l).stored.value, w.clock)
  {
  }

  /** The stored status moves along the table exactly if no process reverts it. */
  lemma FollowsUnlessReverted(w: World, v: Verb, l: Luck)
    requires Sane(w) && Enabled(w, v)
    ensures
      var w' := Apply(w, v, l);
      (w.stored.Some? && w'.stored.Some? ==> Follows(w.stored.value.status, w'.stored.value.status))
        <==> !Reverts(w, v, l)
  {
    if HoldsCopy(v) {
      assert SaneCopy(w.held[v.k], w.clock);
      OwnFollows(w, v, l);
    } else {
      CommandMoves(w, v, l);
    }
  }

  lemma OwnFollows(w: World, v: Verb, l: Luck)
    requires Sane(w) && Enabled(w, v) && HoldsCopy(v)
    ensures
      var filed := Filed(w, v, l);
      (w.stored.Some? && filed.Some? ==> Follows(w.stored.value.status, filed.value.status)) <==> !Reverts(w, v, l)
  {
    assert SaneCopy(w.held[v.k], w.clock);
  }

  /** A verb that loads before it saves changes no time that was set and reverts
      nothing. */
  lemma CommandMoves(w: World, v: Verb, l: Luck)
    requires Sane(w) && Enabled(w, v) && !HoldsCopy(v)
    ensures Moves(w, Apply(w, v, l))
  {
  }

  /** Times that were set stay, the status moves along the table, and a record appears
      only as a new one, exactly if no process saves its copy over another record. */
  lemma MovesUnlessOverwritten(w: World, v: Verb, l: Luck)
    requires Sane(w) && Enabled(w, v)
    ensures Moves(w, Apply(w, v, l)) <==> !Overwrites(w, v, l)
  {
    if HoldsCopy(v) {
      hide Follows, Kept, Surviving;
      OwnFollows(w, v, l);
      OwnMoves(w, v, l);
    } else {
      CommandMoves(w, v, l);
    }
  }

  lemma OwnMoves(w: World, v: Verb, l: Luck)
    requires Sane(w) && Enabled(w, v) && HoldsCopy(v)
    ensures Moves(w, DoOwn(w, v, l)) <==> !Overwrites(w, v, l)
  {
    assert SaneCopy(w.held[v.k], w.clock);
    OwnFollows(w, v, l);
    hide Follows, Kept, Surviving;
  }

  /** A history: worlds, each made from the one before by some step. */
  ghost predicate History(ws: seq<World>) {
    && ws != []
    && ws[0].stored.None? && ws[0].held == [] && Sane(ws[0])
    && forall i :: 0 <= i < |ws| - 1 ==> Steps(ws[i], ws[i + 1])
  }

  ghost predicate Steps(w: World, w': World) {
    exists v, l :: Enabled(w, v) && w' == Apply(w, v, l)
  }

  lemma {:induction false} HistoryIsSane(ws: seq<World>, i: nat)
    requires History(ws) && i < |ws|
    ensures Sane(ws[i])
  {
    if i > 0 {
      HistoryIsSane(ws, i - 1);
      assert Steps(ws[i - 1], ws[i - 1 + 1]);
      var v, l :| Enabled(ws[i - 1], v) && ws[i] == Apply(ws[i - 1], v, l);
      hide Apply, Sane;
      StepKeepsSane(ws[i - 1], v, l);
    }
  }

  /** A history in which no process reverted a status with its copy. */
  ghost predicate NothingReverted(ws: seq<World>) {
    forall i :: 0 <= i < |ws| - 1 ==> ForwardStep(ws[i], ws[i + 1])
  }

  ghost predicate ForwardStep(w: World, w': World) {
    exists v, l :: Enabled(w, v) && w' == Apply(w, v, l) && !Reverts(w, v, l)
  }

  /** Between two moments at which a record is stored, and as long as it is not
      removed or reverted in between, the status has moved along a path of the
      transition table. */
  lemma {:induction false} LifeFollowsTheTable(ws: seq<World>, i: nat, j: nat)
    requires History(ws) && NothingReverted(ws) && i <= j < |ws|
    requires forall k :: i <= k <= j ==> ws[k].stored.Some?
    ensures Reaches(ws[i].stored.value.status, ws[j].stored.value.status)
    ensures Follows(ws[i].stored.value.status, ws[j].stored.value.status)
  {
    hide Sane, Reaches, Apply, Enabled, Reverts;
    var a, b := ws[i].stored.value, ws[j].stored.value;
    if i < j {
      LifeFollowsTheTable(ws, i, j - 1);
      HistoryIsSane(ws, j - 1);
      assert ForwardStep(ws[j - 1], ws[j - 1 + 1]);
      var v, l :| Enabled(ws[j - 1], v) && ws[j] == Apply(ws[j - 1], v, l) && !Reverts(ws[j - 1], v, l);
      FollowsUnlessReverted(ws[j - 1], v, l);
    }
    ReachesExactly(a.status, b.status);
  }

  /** A history in which no process saved its copy over another record. */
  ghost predicate NothingOverwritten(ws: seq<World>) {
    forall i :: 0 <= i < |ws| - 1 ==> PlainStep(ws[i], ws[i + 1])
  }

  ghost predicate PlainStep(w: World, w': World) {
    exists v, l :: Enabled(w, v) && w' == Apply(w, v, l) && !Overwrites(w, v, l)
  }

  /** In such a history no time that was set ever changes either. */
  lemma {:induction false} SetTimesStay(ws: seq<World>, i: nat, j: nat)
    requires History(ws) && NothingOverwritten(ws) && i <= j < |ws|
    requires forall k :: i <= k <= j ==> ws[k].stored.Some?
    ensures Ages(ws[i].stored.value, ws[j].stored.value)
  {
    hide Sane, Apply, Enabled, Overwrites;
    if i < j {
      SetTimesStay(ws, i, j - 1);
      HistoryIsSane(ws, j - 1);
      assert PlainStep(ws[j - 1], ws[j - 1 + 1]);
      var v, l :| Enabled(ws[j - 1], v) && ws[j] == Apply(ws[j - 1], v, l) && !Overwrites(ws[j - 1], v, l);
      MovesUnlessOverwritten(ws[j - 1], v, l);
    }
  }

  /** A stopped container stays stopped until its record is removed or reverted, and
      its finish time, whichever it is, is set and not before its start. */
  lemma StoppedIsFinal(ws: seq<World>, i: nat, j: nat)
    requires History(ws) && NothingReverted(ws) && i <= j < |ws|
    requires forall k :: i <= k <= j ==> ws[k].stored.Some?
    requires ws[i].stored.value.status.Stopped?
    ensures ws[j].stored.value.status.Stopped?
    ensures 0 != ws[j].stored.value.finishedAt >= ws[j].stored.value.startedAt
  {
    hide Reaches;
    LifeFollowsTheTable(ws, i, j);
    HistoryIsSane(ws, j);
  }

  // -------------------------------------------------------------------------
  // Overwriting does happen
  // -------------------------------------------------------------------------

  /** A container that was launched at time `t`, detached or not. */
  function JustLaunched(t: nat, detached: bool): World {
    var r := Record(Running, t, 0, None, 1);
    World(Some(r), {1}, 1, Some(false), t, [Copy(r, detached)])
  }

  lemma RunToLaunched(t: nat, detached: bool) returns (ws: seq<World>)
    requires t > 0
    ensures History(ws) && ws[|ws| - 1] == JustLaunched(t, detached)
  {
    var w0 := World(None, {}, 0, None, t, []);
    var w1 := Apply(w0, Create, FINE);
    var w2 := Apply(w1, Finish(0), FINE);
    var w3 := Apply(w2, Launch(0, true, detached), FINE);
    ws := [w0, w1, w2, w3];
    assert Steps(w0, w1) && Steps(w1, w2) && Steps(w2, w3);
    assert w3.living == {1};
  }

  lemma ThenStep(ws: seq<World>, v: Verb, l: Luck) returns (ws': seq<World>)
    requires History(ws) && Enabled(ws[|ws| - 1], v)
    ensures History(ws') && ws' == ws + [Apply(ws[|ws| - 1], v, l)]
  {
    hide Apply, Enabled, Sane;
    ws' := ws + [Apply(ws[|ws| - 1], v, l)];
    forall i | 0 <= i < |ws'| - 1 ensures Steps(ws'[i], ws'[i + 1]) {
      if i < |ws| - 1 { assert Steps(ws[i], ws[i + 1]); } else { assert ws'[i] == ws[|ws| - 1]; }
    }
  }

  /** Init dies, somebody looks and finds it gone, and later the supervisor records
      the exit: the finish time on file changes. */
  lemma FinishTimeCanChange(t: nat, later: nat) returns (ws: seq<World>, i: nat)
    requires t > 0 && later > 0
    ensures History(ws) && i < |ws| && ws[i].stored.Some? && ws[|ws| - 1].stored.Some?
    ensures ws[i].stored.value.finishedAt == t && ws[|ws| - 1].stored.value.finishedAt == t + later
  {
    ws := RunToLaunched(t, false);
    ws := ThenStep(ws, InitDies(1), FINE);
    ws := ThenStep(ws, Look, FINE);
    i := |ws| - 1;
    ws := ThenStep(ws, Tick(later), FINE);
    ws := ThenStep(ws, Exit(0, 0), FINE);
  }

  /** A container is deleted before its supervisor has recorded the exit: the record
      comes back. */
  lemma DeletedRecordCanReturn(t: nat) returns (ws: seq<World>, i: nat)
    requires t > 0
    ensures History(ws) && i < |ws| && ws[i].stored.None?
    ensures ws[|ws| - 1].stored.Some? && ws[|ws| - 1].stored.value.status.Stopped?
  {
    ws := RunToLaunched(t, false);
    ws := ThenStep(ws, Delete(true), FINE);
    i := |ws| - 1;
    ws := ThenStep(ws, Exit(0, 0), FINE);
  }

  /** The last two records of a history. */
  predicate EndsWith(ws: seq<World>, before: Status, after: Status) {
    && |ws| >= 2 && ws[|ws| - 2].stored.Some? && ws[|ws| - 1].stored.Some?
    && ws[|ws| - 2].stored.value.status == before && ws[|ws| - 1].stored.value.status == after
  }

  /** Everything works, and a shim's save after the launch makes a container run that
      somebody has found dead, */
  lemma StoppedCanBecomeRunning(t: nat) returns (ws: seq<World>)
    requires t > 0
    ensures History(ws) && EndsWith(ws, Stopped, Running)
  {
    ws := RunToLaunched(t, true);
    ws := ThenStep(ws, InitDies(1), FINE);
    ws := ThenStep(ws, Look, FINE);
    ws := ThenStep(ws, Announce(0), FINE);
  }

  /** ... or has begun to stop, */
  lemma StoppingCanBecomeRunning(t: nat) returns (ws: seq<World>)
    requires t > 0
    ensures History(ws) && EndsWith(ws, Stopping, Running)
  {
    ws := RunToLaunched(t, true);
    ws := ThenStep(ws, StopBegin, FINE);
    ws := ThenStep(ws, Announce(0), FINE);
  }

  /** ... records one as running that is frozen, which `unpause` then refuses, */
  lemma FrozenCanBeRecordedRunning(t: nat) returns (ws: seq<World>)
    requires t > 0
    ensures History(ws) && EndsWith(ws, Paused, Running) && ws[|ws| - 1].cgroup == Some(true)
    ensures Apply(ws[|ws| - 1], Unpause, FINE) == ws[|ws| - 1]
  {
    ws := RunToLaunched(t, true);
    ws := ThenStep(ws, Pause, FINE);
    ws := ThenStep(ws, Announce(0), FINE);
  }

  /** ... and brings back one that was deleted. */
  lemma DeletedCanBecomeRunning(t: nat) returns (ws: seq<World>)
    requires t > 0
    ensures History(ws) && |ws| >= 2 && ws[|ws| - 2].stored.None?
    ensures ws[|ws| - 1].stored.Some? && ws[|ws| - 1].stored.value.status.Running?
  {
    ws := RunToLaunched(t, true);
    ws := ThenStep(ws, Delete(true), FINE);
    ws := ThenStep(ws, Announce(0), FINE);
  }

  /** Two processes that have both read a created record launch it one after the
      other: a container that has stopped starts again, with another start time. */
  lemma StoppedCanStartAgain(t: nat, later: nat) returns (ws: seq<World>)
    requires t > 0 && later > 0
    ensures History(ws) && EndsWith(ws, Stopped, Running)
    ensures ws[|ws| - 2].stored.value.startedAt == t && ws[|ws| - 1].stored.value.startedAt == t + later
  {
    var w0 := World(None, {}, 0, None, t, []);
    ws := [w0];
    ws := ThenStep(ws, Create, FINE);
    ws := ThenStep(ws, Finish(0), FINE);
    ws := ThenStep(ws, Load, FINE);
    ws := ThenStep(ws, Launch(0, true, false), FINE);
    ws := ThenStep(ws, InitDies(1), FINE);
    ws := ThenStep(ws, Look, FINE);
    ws := ThenStep(ws, Tick(later), FINE);
    ws := ThenStep(ws, Launch(1, true, false), FINE);
  }

  // -------------------------------------------------------------------------
  // Paused and frozen
  // -------------------------------------------------------------------------

  /** While a container is live, `Paused` is recorded exactly if it is frozen. */
  predicate PausedIffFrozen(w: World) {
    w.stored.Some? && IsLive(w.stored.value.status) ==>
      (w.stored.value.status.Paused? <==> w.cgroup == Some(true))
  }

  /** One of the two halves of a step took effect and the other did not: the
      freezer was written but the record was not, or the other way about.  A shim's
      save after the launch does so when the container is frozen by then. */
  predicate Torn(w: World, v: Verb, l: Luck) {
    if v.Announce? then l.save && w.cgroup == Some(true)
    else
      && w.stored.Some?
      && (Alive(w) || v.Teardown? || v.Retire?)
      && var s := w.stored.value.status;
         match v
         case Pause => s.Running? && w.cgroup.Some? && l.kernel && !l.save
         case Unpause => s.Paused? && l.kernel && !l.save
         case Kill => s.Paused? && l.kernel != (l.signal && l.save)
         case StopBegin => s.Paused? && l.kernel != l.save
         case Teardown => s.Paused? && l.kernel && !l.save
         case Retire(_, _) => s.Paused? && l.kernel && !l.save
         case Delete(force) => s.Paused? && force && l.kernel != l.save && !(l.save && l.signal)
         case _ => false
  }

  lemma KeptUnlessTorn(w: World, v: Verb, l: Luck)
    requires Sane(w) && PausedIffFrozen(w) && Enabled(w, v)
    ensures PausedIffFrozen(Apply(w, v, l)) <==> !Torn(w, v, l)
  {
    if HoldsCopy(v) {
      hide Kept, Surviving;
      assert SaneCopy(w.held[v.k], w.clock);
    }
  }

  /** A history in which no step was torn. */
  ghost predicate WholeSteps(ws: seq<World>) {
    forall i :: 0 <= i < |ws| - 1 ==> WholeStep(ws[i], ws[i + 1])
  }

  ghost predicate WholeStep(w: World, w': World) {
    exists v, l :: Enabled(w, v) && w' == Apply(w, v, l) && !Torn(w, v, l)
  }

  lemma {:induction false} PausedMeansFrozen(ws: seq<World>, i: nat)
    requires History(ws) && WholeSteps(ws) && i < |ws|
    ensures PausedIffFrozen(ws[i])
  {
    if i > 0 {
      hide Apply, Enabled, Torn;
      PausedMeansFrozen(ws, i - 1);
      HistoryIsSane(ws, i - 1);
      assert WholeStep(ws[i - 1], ws[i - 1 + 1]);
      var v, l :| Enabled(ws[i - 1], v) && ws[i] == Apply(ws[i - 1], v, l) && !Torn(ws[i - 1], v, l);
      KeptUnlessTorn(ws[i - 1], v, l);
    }
  }

  /** When every write works, only the signal of a kill can tear a step, or a shim that
      announces a container which is frozen already. */
  lemma TornByASignal(w: World, v: Verb, l: Luck)
    requires Enabled(w, v) && l.kernel && l.save
    ensures Torn(w, v, l) <==>
      || (v.Kill? && !l.signal && Alive(w) && w.stored.value.status.Paused?)
      || (v.Announce? && w.cgroup == Some(true))
  {
  }

  /** Such a kill leaves a container that is recorded paused and runs. */
  lemma KillCanTear(started: nat) returns (ws: seq<World>)
    requires started > 0
    ensures History(ws) && |ws| >= 2 && PausedIffFrozen(ws[|ws| - 2]) && !PausedIffFrozen(ws[|ws| - 1])
    ensures ws[|ws| - 1] == Apply(ws[|ws| - 2], Kill, FINE.(signal := false))
    ensures ws[|ws| - 1].stored.Some? && ws[|ws| - 1].stored.value.status.Paused? && ws[|ws| - 1].cgroup == Some(false)
  {
    ws := RunToLaunched(started, false);
    ws := ThenStep(ws, Pause, FINE);
    ws := ThenStep(ws, Kill, FINE.(signal := false));
  }

  // -------------------------------------------------------------------------
  // Who looks after an init
  // -------------------------------------------------------------------------

  predicate Holds(c: Copy, n: nat) { c.record.status.Running? && c.record.init == n }

  /** A copy before the launch names no init, one after the exit names a dead one. */
  predicate NamesInit(c: Copy, launches: nat, living: set<nat>) {
    var r := c.record;
    if r.status.Creating? || r.status.Created? then r.init == 0
    else 0 < r.init <= launches && (r.status.Stopped? ==> r.init !in living)
  }

  /** Every init that is alive has a process that launched it and waits for it. */
  ghost predicate Attended(w: World) {
    && (w.stored.Some? && (w.stored.value.status.Creating? || w.stored.value.status.Created?) ==>
          w.stored.value.init == 0)
    && (forall c :: c in w.held ==> NamesInit(c, w.launches, w.living))
    && (forall n :: n in w.living ==> 0 < n <= w.launches && exists c :: c in w.held && Holds(c, n))
  }

  /** Other verbs end inits and start none. */
  lemma CommandsStartNothing(w: World, v: Verb, l: Luck)
    requires Enabled(w, v) && !HoldsCopy(v)
    ensures
      var w' := Apply(w, v, l);
      && w'.living <= w.living && w'.launches == w.launches && |w'.held| >= |w.held| && w'.held[..|w.held|] == w.held
      && (|w'.held| > |w.held| ==>
            |w'.held| == |w.held| + 1 && (v.Create? || v.Load?)
            && w'.held[|w.held|].record == if v.Create? then NEW_RECORD else w.stored.value)
      && (w'.stored.Some? && (w'.stored.value.status.Creating? || w'.stored.value.status.Created?) ==>
            w'.stored == w.stored || w'.stored == Some(NEW_RECORD))
  {
  }

  lemma CommandKeepsAttended(w: World, v: Verb, l: Luck)
    requires Attended(w) && Enabled(w, v) && !HoldsCopy(v)
    ensures Attended(Apply(w, v, l))
  {
    CommandsStartNothing(w, v, l);
    hide Apply;
    var w' := Apply(w, v, l);
    assert w'.held == w.held + w'.held[|w.held|..];
    forall n | n in w'.living ensures exists c :: c in w'.held && Holds(c, n) {
      var c :| c in w.held && Holds(c, n);
      assert c in w'.held;
    }
  }

  /** The copies of everybody else stay; the process's own is what it saved, or gone. */
  lemma KeptIs(w: World, v: Verb, l: Luck, j: nat)
    requires Enabled(w, v) && HoldsCopy(v) && j < |w.held|
    ensures j != v.k ==> w.held[j] in Kept(w, v, l)
    ensures v.Launch? || (l.save && (v.Finish? || v.Announce? || v.Exit?)) ==>
      exists c :: c in Kept(w, v, l) && c.record == OwnRecord(w, v)
    ensures forall c :: c in Kept(w, v, l) ==> c in w.held || c.record == OwnRecord(w, v)
  {
    hide OwnRecord, Without;
    if v.Launch? {
      ReplacedHas(w.held, v.k, Copy(OwnRecord(w, v), v.detached), j);
    } else if l.save && (v.Finish? || v.Announce? || v.Exit?) {
      ReplacedHas(w.held, v.k, Copy(OwnRecord(w, v), false), j);
    } else {
      WithoutHas(w.held, v.k, j);
    }
  }

  lemma ReplacedHas(held: seq<Copy>, k: nat, c: Copy, j: nat)
    requires k < |held| && j < |held|
    ensures c in held[k := c] && (j != k ==> held[j] in held[k := c])
    ensures forall d :: d in held[k := c] ==> d == c || d in held
  {
    assert held[k := c][k] == c;
    if j != k {
      assert held[k := c][j] == held[j];
    }
  }

  lemma WithoutHas(held: seq<Copy>, k: nat, j: nat)
    requires k < |held| && j < |held|
    ensures j != k ==> held[j] in Without(held, k)
    ensures forall d :: d in Without(held, k) ==> d in held
  {
    if j < k {
      assert Without(held, k)[j] == held[j];
    } else if j > k {
      assert Without(held, k)[j - 1] == held[j];
    }
  }

  lemma OwnNamesInit(w: World, v: Verb, l: Luck, c: Copy)
    requires Attended(w) && Enabled(w, v) && HoldsCopy(v) && c in Kept(w, v, l)
    ensures NamesInit(c, DoOwn(w, v, l).launches, DoOwn(w, v, l).living)
  {
    assert w.held[v.k] in w.held;
    KeptIs(w, v, l, v.k);
    hide Kept, Filed;
    if c !in w.held {
      hide Attended;
      KeptKinds(w, v, l, c);
    }
  }

  lemma KeptKinds(w: World, v: Verb, l: Luck, c: Copy)
    requires Enabled(w, v) && HoldsCopy(v) && c in Kept(w, v, l) && c !in w.held
    ensures v.Finish? || v.Launch? || v.Announce? || v.Exit?
  {
    hide OwnRecord;
  }

  lemma OwnIsHeld(w: World, v: Verb, l: Luck, n: nat)
    requires Attended(w) && Enabled(w, v) && HoldsCopy(v) && n in Surviving(w, v, l)
    ensures exists c :: c in Kept(w, v, l) && Holds(c, n)
  {
    if n in w.living {
      var d :| d in w.held && Holds(d, n);
      var j :| 0 <= j < |w.held| && w.held[j] == d;
      KeptIs(w, v, l, j);
      hide Kept, Attended;
    } else {
      KeptIs(w, v, l, v.k);
      hide Kept, Attended;
    }
  }

  lemma OwnKeepsAttended(w: World, v: Verb, l: Luck)
    requires Attended(w) && Enabled(w, v) && HoldsCopy(v)
    ensures Attended(DoOwn(w, v, l))
  {
    var w' := DoOwn(w, v, l);
    forall c | c in w'.held ensures NamesInit(c, w'.launches, w'.living) {
      OwnNamesInit(w, v, l, c);
    }
    forall n | n in w'.living ensures exists c :: c in w'.held && Holds(c, n) {
      OwnIsHeld(w, v, l, n);
    }
    assert w.held[v.k] in w.held;
    hide Kept, NamesInit, Holds;
  }

  /** An init never outlives the process that launched it: in every history that begins
      without one, each init that is alive has a process holding it as running. */
  lemma {:induction false} EveryInitIsAttended(ws: seq<World>, i: nat)
    requires History(ws) && ws[0].living == {} && i < |ws|
    ensures Attended(ws[i])
  {
    if i > 0 {
      EveryInitIsAttended(ws, i - 1);
      assert Steps(ws[i - 1], ws[i - 1 + 1]);
      var v, l :| Enabled(ws[i - 1], v) && ws[i] == Apply(ws[i - 1], v, l);
      if HoldsCopy(v) {
        OwnKeepsAttended(ws[i - 1], v, l);
      } else {
        CommandKeepsAttended(ws[i - 1], v, l);
      }
    }
  }

  // -------------------------------------------------------------------------
  // Which verbs a container takes
  // -------------------------------------------------------------------------

  /** The verbs a container with this status takes.  Stopping one that is not live is
      no error and does nothing. */
  predicate Accepts(s: Status, v: Verb) {
    match v
    case Pause => s == Running
    case Unpause => s == Paused
    case Kill => s in {Running, Paused, Stopping}
    case StopBegin => true
    case Delete(force) => force || s in {Creating, Created, Stopped}
    case _ => false
  }

  /** ... and which then work: there is a cgroup to freeze, and nothing fails that
      the verb looks at. */
  predicate Works(w: World, v: Verb, l: Luck) {
    var r := Reconciled(w, l);
    r.Ok? &&
    var s := r.value.stored.value.status;
    Accepts(s, v) &&
    match v
    case Pause => w.cgroup.Some? && l.kernel && l.save
    case Unpause => w.cgroup.Some? && l.kernel && l.save
    case Kill => l.signal && l.save
    case StopBegin => IsLive(s) ==> l.save
    case Delete(_) => l.save && (IsLive(s) ==> l.signal)
    case _ => false
  }

  /** A record that a verb goes by is true of the processes, whatever it said before;
      correcting it touches nothing else and keeps the finish time if there is one. */
  lemma ReconciledIsTruthful(w: World, l: Luck)
    ensures w.stored.Some? && (l.reconcile || Alive(w)) ==> Reconciled(w, l).Ok?
    ensures Reconciled(w, l).Ok? ==>
      var r := Reconciled(w, l).value;
      && w.stored.Some? && r.stored.Some? && r == w.(stored := r.stored)
      && (IsLive(r.stored.value.status) ==> Alive(r))
      && (r.stored == w.stored
          || (&& IsLive(w.stored.value.status) && !Alive(w) && r.stored.value.status == Stopped
              && r.stored.value.startedAt == w.stored.value.startedAt
              && r.stored.value.finishedAt == if w.stored.value.finishedAt == 0 then w.clock
                                              else w.stored.value.finishedAt))
  {
  }

  /** A verb that is refused does no more than reconcile, and nothing at all to a
      container that is live. */
  lemma RefusedChangesNothing(w: World, v: Verb, l: Luck)
    requires ActsOnReconciled(v) && Reconciled(w, l).Ok?
    ensures
      var r := Reconciled(w, l).value;
      var s := r.stored.value.status;
      && (!Accepts(s, v) || (v.StopBegin? && !IsLive(s)) ==> Apply(w, v, l) == r)
      && (IsLive(s) && !Accepts(s, v) ==> Apply(w, v, l) == w)
  {
  }

  /** What a verb that works has done, to the record, the freezer and the processes:
      nothing else changes. */
  predicate Effect(w: World, v: Verb, l: Luck, w': World)
    requires w.stored.Some?
  {
    var r := w.stored.value;
    var rest := w.(stored := w'.stored, cgroup := w'.cgroup);
    match v
    case Pause => w' == rest && w'.stored == Some(r.(status := Paused)) && w'.cgroup == Some(true)
    case Unpause =>
      && w' == rest && w'.stored.Some? && w'.cgroup == Some(false)
      && w'.stored.value == r.(status := Running, startedAt := w'.stored.value.startedAt)
    case Kill =>
      && w' == rest && w'.stored.Some?
      && w'.stored.value.status == (if r.status.Stopping? then Stopping else Running)
      && (r.status.Paused? && w.cgroup.Some? && l.kernel ==> w'.cgroup == Some(false))
      && (!r.status.Paused? ==> w' == w)
    case StopBegin =>
      && w' == rest && w'.stored.Some?
      && w'.stored.value.status == (if IsLive(r.status) then Stopping else r.status)
      && (r.status.Paused? && w.cgroup.Some? && l.kernel ==> w'.cgroup == Some(false))
      && (!r.status.Paused? ==> w'.cgroup == w.cgroup)
    case Delete(_) =>
      && w'.stored.None?
      && w' == w.(stored := None, cgroup := w'.cgroup, living := w'.living)
      && (l.kernel ==> w'.cgroup.None?)
      && (l.signal ==> w'.living == w.living - {r.init})
      && (!l.signal ==> w'.living == w.living)
    case _ => true
  }

  lemma WorkingVerbTakesEffect(w: World, v: Verb, l: Luck)
    requires ActsOnReconciled(v) && Works(w, v, l)
    ensures Effect(Reconciled(w, l).value, v, l, Apply(w, v, l))
  {
  }

  /** With nothing failing, a verb that the status admits works. */
  lemma AcceptedVerbWorks(w: World, v: Verb)
    requires ActsOnReconciled(v) && w.stored.Some? && Reconciled(w, FINE).Ok?
    requires Accepts(Reconciled(w, FINE).value.stored.value.status, v)
    ensures Works(w, v, FINE) <==> (v.Pause? || v.Unpause? ==> w.cgroup.Some?)
  {
  }

  /** The record goes exactly with a delete that works, a foreground launch that
      fails, or a supervisor that cleans up after itself; and a container that is
      running when it is deleted was forced, and its init is dead. */
  lemma RemovedExactly(w: World, v: Verb, l: Luck)
    requires Enabled(w, v) && w.stored.Some?
    ensures Apply(w, v, l).stored.None? <==>
      (v.Delete? && Works(w, v, l)) || ((v.LaunchFails? || v.Retire?) && v.removed && l.save)
    ensures v.Delete? && Apply(w, v, l).stored.None? && IsLive(w.stored.value.status) && Alive(w) ==>
      v.force && w.stored.value.init !in Apply(w, v, l).living
  {
    hide Kept, Surviving, OwnRecord;
  }

  // -------------------------------------------------------------------------
  // The verbs as they run
  // -------------------------------------------------------------------------

  class Container {
    var stored: Option<Record>
    var living: set<nat>
    var launches: nat
    var cgroup: Option<bool>
    var clock: nat
    var held: seq<Copy>

    function View(): World
      reads this
    {
      World(stored, living, launches, cgroup, clock, held)
    }

    method SaveRecord(r: Record, l: Luck) returns (ok: bool)
      modifies this`stored
      ensures ok == l.save && View() == Save(old(View()), r, l)
    {
      ok := l.save;
      if ok { stored := Some(r); }
    }

    method LoadReconciled(l: Luck) returns (r: Option<Record>)
      modifies this`stored
      ensures View() == Apply(old(View()), Look, l)
      ensures r.Some? <==> Reconciled(old(View()), l).Ok?
      ensures r.Some? ==> stored == r
    {
      r := stored;
      if r.Some? && IsLive(r.value.status) && r.value.init !in living {
        if !l.reconcile { return None; }
        var end := if r.value.finishedAt == 0 then clock else r.value.finishedAt;
        r := Some(r.value.(status := Stopped, finishedAt := end));
        stored := r;
      }
    }

    method Pause(l: Luck) returns (ok: bool)
      modifies this
      ensures View() == Apply(old(View()), Verb.Pause, l)
      ensures ok <==> Works(old(View()), Verb.Pause, l)
      ensures ok ==> stored.Some? && stored.value.status.Paused? && cgroup == Some(true)
    {
      var r := LoadReconciled(l);
      if r.None? || !r.value.status.Running? || cgroup.None? || !l.kernel { return false; }
      cgroup := Some(true);
      var next := Transition(r.value, Paused, clock);
      if next.Err? { return false; }
      ok := SaveRecord(next.value, l);
    }

    method Unpause(l: Luck) returns (ok: bool)
      modifies this
      ensures View() == Apply(old(View()), Verb.Unpause, l)
      ensures ok <==> Works(old(View()), Verb.Unpause, l)
      ensures ok ==> stored.Some? && stored.value.status.Running? && cgroup == Some(false)
    {
      var r := LoadReconciled(l);
      if r.None? || !r.value.status.Paused? || cgroup.None? || !l.kernel { return false; }
      cgroup := Some(false);
      var next := Transition(r.value, Running, clock);
      if next.Err? { return false; }
      ok := SaveRecord(next.value, l);
    }

    method Thaw(r: Record, l: Luck) returns (next: Record)
      requires stored == Some(r)
      modifies this`cgroup
      ensures View() == Thawed(old(View()), l) && next == Woken(r, clock)
    {
      next := r;
      if r.status.Paused? {
        if cgroup.Some? && l.kernel { cgroup := Some(false); }
        var t := Transition(r, Running, clock);
        if t.Ok? { next := t.value; }
      }
    }

    method Kill(l: Luck) returns (ok: bool)
      modifies this
      ensures View() == Apply(old(View()), Verb.Kill, l)
      ensures ok <==> Works(old(View()), Verb.Kill, l)
      ensures ok ==> stored.Some? && (stored.value.status.Running? || stored.value.status.Stopping?)
    {
      var r := LoadReconciled(l);
      if r.None? || !IsLive(r.value.status) { return false; }
      var next := Thaw(r.value, l);
      if !l.signal { return false; }
      ok := SaveRecord(next, l);
    }

    /** Stopping a record that has been loaded and reconciled. */
    method MarkStopping(r: Record, l: Luck) returns (ok: bool)
      requires stored == Some(r)
      modifies this
      ensures View() == DoStop(old(View()), l)
      ensures ok <==> l.save || !IsLive(r.status)
    {
      if !IsLive(r.status) { return true; }
      var next := Thaw(r, l);
      var t := Transition(next, Stopping, clock);
      if t.Err? { return false; }
      ok := SaveRecord(t.value, l);
    }

    method Stop(l: Luck) returns (ok: bool)
      modifies this
      ensures View() == Apply(old(View()), Verb.StopBegin, l)
      ensures ok <==> Works(old(View()), Verb.StopBegin, l)
      ensures ok ==> stored.Some? && !stored.value.status.Running? && !stored.value.status.Paused?
    {
      var r := LoadReconciled(l);
      if r.None? { return false; }
      ok := MarkStopping(r.value, l);
    }

    /** Tearing down what the caller has in memory. */
    method TeardownOf(record: Record, l: Luck)
      modifies this
      ensures View() == DoTeardown(old(View()), record, l)
    {
      var r := record;
      if l.signal { living := living - {r.init}; }
      if l.kernel { cgroup := None; }
      if IsLive(r.status) {
        r := r.(status := Stopped, finishedAt := if r.finishedAt == 0 then clock else r.finishedAt);
      }
      var saved := SaveRecord(r, l);
    }

    method Teardown(l: Luck)
      requires stored.Some?
      modifies this
      ensures View() == Apply(old(View()), Verb.Teardown, l)
      ensures l == FINE ==> !IsLive(stored.value.status) && stored.value.init !in living && cgroup == None
    {
      TeardownOf(stored.value, l);
    }

    method Delete(force: bool, l: Luck) returns (ok: bool)
      modifies this
      ensures View() == Apply(old(View()), Verb.Delete(force), l)
      ensures ok <==> Works(old(View()), Verb.Delete(force), l)
      ensures ok ==> stored.None?
      ensures
        var r := Reconciled(old(View()), l);
        ok ==> r.Ok? && (force || !IsLive(r.value.stored.value.status))
      ensures l == FINE && force && old(stored).Some? ==>
        ok && stored.None? && old(stored).value.init !in living && cgroup.None?
    {
      var r := LoadReconciled(l);
      if r.None? { return false; }
      if IsLive(r.value.status) {
        if !force { return false; }
        var marked := MarkStopping(r.value, l);
        if !marked || !l.signal { return false; }
      }
      TeardownOf(stored.value, l);
      ok := l.save;
      if ok { stored := None; }
    }

    /** `supervisor::create`, which goes on with the record it has written. */
    method CreateRecord(l: Luck) returns (ok: bool)
      requires Enabled(View(), Create)
      modifies this
      ensures View() == Apply(old(View()), Create, l)
      ensures ok == l.save && (ok ==> stored == Some(NEW_RECORD))
    {
      ok := SaveRecord(NEW_RECORD, l);
      if ok { held := held + [Copy(NEW_RECORD, false)]; }
    }

    /** ... marks it as created in memory, and saves it again. */
    method FinishRecord(k: nat, l: Luck) returns (ok: bool)
      requires Enabled(View(), Finish(k))
      modifies this
      ensures View() == Apply(old(View()), Finish(k), l)
      ensures ok == l.save && (ok ==> stored.Some? && stored.value.status.Created?)
    {
      var t := Transition(held[k].record, Created, clock);
      if t.Err? { return false; }
      ok := SaveRecord(t.value, l);
      held := if ok then held[k := Copy(t.value, false)] else held[..k] + held[k + 1..];
    }

    /** The end of a launch that worked. */
    method RecordLaunch(k: nat, grouped: bool, detached: bool)
      requires Enabled(View(), Launch(k, grouped, detached))
      modifies this
      ensures View() == Apply(old(View()), Launch(k, grouped, detached), FINE)
      ensures stored.Some? && stored.value.status.Running? && stored.value.init in living
    {
      launches := launches + 1;
      living := living + {launches};
      cgroup := if grouped then Some(false) else None;
      var t := Transition(held[k].record.(init := launches), Running, clock);
      if t.Ok? {
        stored := Some(t.value);
        held := held[k := Copy(t.value, detached)];
      }
    }

    /** The shim's save of its pid, after the launch. */
    method AnnounceShim(k: nat, l: Luck) returns (ok: bool)
      requires Enabled(View(), Announce(k))
      modifies this
      ensures View() == Apply(old(View()), Announce(k), l)
      ensures ok == l.save && (ok ==> stored == Some(old(held)[k].record) && stored.value.status.Running?)
    {
      var copy := held[k].record;
      ok := SaveRecord(copy, l);
      if ok {
        held := held[k := Copy(copy, false)];
      } else {
        held := held[..k] + held[k + 1..];
        living := living - {copy.init};
      }
    }

    /** The end of `wait_for_exit`, on the supervisor's own copy. */
    method WaitForExit(k: nat, code: int, l: Luck) returns (ok: bool)
      requires Enabled(View(), Exit(k, code))
      modifies this
      ensures View() == Apply(old(View()), Exit(k, code), l)
      ensures ok == l.save
      ensures ok ==> stored.Some? && stored.value.exit == Some(code) && stored.value.status.Stopped?
    {
      var copy := held[k].record;
      copy := copy.(exit := Some(code), finishedAt := if copy.finishedAt == 0 then clock else copy.finishedAt);
      var t := Transition(copy, Stopped, clock);
      if t.Ok? { copy := t.value; }
      ok := SaveRecord(copy, l);
      held := if ok then held[k := Copy(copy, false)] else held[..k] + held[k + 1..];
    }

    /** What the supervisor does last. */
    method RetireSupervisor(k: nat, autoRemove: bool, l: Luck)
      requires Enabled(View(), Retire(k, autoRemove))
      modifies this
      ensures View() == Apply(old(View()), Retire(k, autoRemove), l)
    {
      TeardownOf(held[k].record, l);
      if autoRemove && l.save { stored := None; }
      held := held[..k] + held[k + 1..];
    }
  }
}
