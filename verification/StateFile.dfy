/** The state file: what `Store::save` writes to `state.json` and `Store::load` reads
from it (`src/runtime/state.rs`). */
module StateFile {
  import opened Bytes
  import opened Wrappers
  import opened Json
  import opened Config
  import JsonRoundTrip
  import Env
  import ExitRelay
  import Lifecycle

  // -------------------------------------------------------------------------
  // The network part
  // -------------------------------------------------------------------------

  datatype NetworkState = NetworkState(
    mode: string, bridge: Option<string>, hostVeth: Option<string>, containerVeth: Option<string>, ip: Option<string>,
    prefix: nat, gateway: Option<string>, published: seq<Port>)

  const NETSTATE_KEYS: seq<string> :=
    ["mode", "bridge", "host_veth", "container_veth", "ip", "prefix", "gateway", "published"]

  predicate NetworkStateTyped(n: NetworkState) {
    n.prefix < 256 && forall i :: 0 <= i < |n.published| ==> PortTyped(n.published[i])
  }

  function NetworkStateValues(n: NetworkState): seq<Json> {
    [Str(n.mode), StrOrNull(n.bridge), StrOrNull(n.hostVeth), StrOrNull(n.containerVeth), StrOrNull(n.ip),
     Int(n.prefix), StrOrNull(n.gateway), Arr(PortsToJson(n.published))]
  }

  function NetworkStateToJson(n: NetworkState): Json { Obj(Built(NETSTATE_KEYS, NetworkStateValues(n))) }

  /** Unlike in a configuration, what is missing from a port gets a default. */
  function PortOf(j: Json): Port {
    Port(Or(GetUint(j, "host_port"), 0) % 0x1_0000, Or(GetUint(j, "container_port"), 0) % 0x1_0000,
         Or(GetStr(j, "protocol"), "tcp"))
  }

  function PortsOf(js: seq<Json>): seq<Port> {
    if js == [] then [] else [PortOf(js[0])] + PortsOf(js[1..])
  }

  function NetworkStateFromJson(j: Json): NetworkState {
    NetworkState(
      Or(GetStr(j, "mode"), "none"), GetStr(j, "bridge"), GetStr(j, "host_veth"), GetStr(j, "container_veth"),
      GetStr(j, "ip"), Or(GetUint(j, "prefix"), 24) % 256, GetStr(j, "gateway"),
      PortsOf(Or(GetArr(j, "published"), [])))
  }

  lemma NetstateKeysDistinct()
    ensures Distinct(NETSTATE_KEYS)
  {
  }

  lemma NetstateFields(values: seq<Json>)
    requires |values| == |NETSTATE_KEYS|
    ensures
      var j := Obj(Built(NETSTATE_KEYS, values));
      && Get(j, "mode") == Some(values[0]) && Get(j, "bridge") == Some(values[1])
      && Get(j, "host_veth") == Some(values[2])
      && Get(j, "container_veth") == Some(values[3]) && Get(j, "ip") == Some(values[4])
      && Get(j, "prefix") == Some(values[5])
      && Get(j, "gateway") == Some(values[6]) && Get(j, "published") == Some(values[7])
  {
    NetstateKeysDistinct();
    hide Built, Get, Distinct;
    BuiltField(NETSTATE_KEYS, values, 0, "mode");
    BuiltField(NETSTATE_KEYS, values, 1, "bridge");
    BuiltField(NETSTATE_KEYS, values, 2, "host_veth");
    BuiltField(NETSTATE_KEYS, values, 3, "container_veth");
    BuiltField(NETSTATE_KEYS, values, 4, "ip");
    BuiltField(NETSTATE_KEYS, values, 5, "prefix");
    BuiltField(NETSTATE_KEYS, values, 6, "gateway");
    BuiltField(NETSTATE_KEYS, values, 7, "published");
  }

  lemma PortIsRead(p: Port)
    requires PortTyped(p)
    ensures PortOf(PortToJson(p)) == p
  {
    hide Built, Get;
    PortFields([Int(p.host), Int(p.container), Str(p.protocol)]);
  }

  lemma PortsOfMore(j: Json, rest: seq<Json>)
    ensures PortsOf([j] + rest) == [PortOf(j)] + PortsOf(rest)
  {
    hide PortOf;
    assert ([j] + rest)[1..] == rest;
  }

  lemma {:induction false} PortsAreRead(ps: seq<Port>)
    requires forall i :: 0 <= i < |ps| ==> PortTyped(ps[i])
    ensures PortsOf(PortsToJson(ps)) == ps
  {
    hide PortToJson, PortOf, PortTyped;
    if ps != [] {
      PortIsRead(ps[0]);
      PortsAreRead(ps[1..]);
      var j, rest := PortToJson(ps[0]), PortsToJson(ps[1..]);
      PortsOfMore(j, rest);
      assert PortsToJson(ps) == [j] + rest;
      assert ps == [ps[0]] + ps[1..];
    }
  }

  lemma NetworkStateSurvives(n: NetworkState)
    requires NetworkStateTyped(n)
    ensures NetworkStateFromJson(NetworkStateToJson(n)) == n
  {
    PortsAreRead(n.published);
    SmallMod(n.prefix, 256);
    hide Built, Get, PortsToJson, PortsOf, PortTyped;
    NetstateFields(NetworkStateValues(n));
  }

  lemma NetworkStateExact(n: NetworkState)
    requires NetworkStateTyped(n)
    ensures Exact(NetworkStateToJson(n))
  {
    hide Built, Distinct, PortsToJson, PortsFromJson, StrOrNull, Exact;
    NetstateKeysDistinct();
    PortsSurvive(n.published, s => Err);
    NetworkStateLeaves(n);
    BuiltExact(NETSTATE_KEYS, NetworkStateValues(n));
  }

  lemma NetworkStateLeaves(n: NetworkState)
    requires NetworkStateTyped(n)
    ensures Exact(Str(n.mode)) && Exact(StrOrNull(n.bridge)) && Exact(StrOrNull(n.hostVeth))
    ensures Exact(StrOrNull(n.containerVeth)) && Exact(StrOrNull(n.ip)) && Exact(StrOrNull(n.gateway))
    ensures Exact(Int(n.prefix))
  {
  }

  // -------------------------------------------------------------------------
  // Statuses
  // -------------------------------------------------------------------------

  function StatusText(s: Lifecycle.Status): string {
    match s
    case Creating => "creating"
    case Created => "created"
    case Running => "running"
    case Paused => "paused"
    case Stopping => "stopping"
    case Stopped => "stopped"
  }

  function ParseStatus(s: string): Result<Lifecycle.Status> {
    if s == "creating" then Ok(Lifecycle.Creating)
    else if s == "created" then Ok(Lifecycle.Created)
    else if s == "running" then Ok(Lifecycle.Running)
    else if s == "paused" then Ok(Lifecycle.Paused)
    else if s == "stopping" then Ok(Lifecycle.Stopping)
    else if s == "stopped" then Ok(Lifecycle.Stopped)
    else Err
  }

  lemma StatusSurvives(s: Lifecycle.Status)
    ensures ParseStatus(StatusText(s)) == Ok(s)
  {
  }

  // -------------------------------------------------------------------------
  // The record
  // -------------------------------------------------------------------------

  datatype State = State(
    id: string, name: Option<string>, status: Lifecycle.Status, initPid: int, initStartTime: nat, shimPid: int,
    createdAt: nat, startedAt: nat, finishedAt: nat, exit: ExitRelay.ExitStatus, oomKilled: bool, error: Option<string>,
    cgroupPath: Option<string>, network: NetworkState, config: Container)

  const STATE_KEYS: seq<string> :=
    ["id", "name", "status", "init_pid", "init_start_time", "shim_pid", "created_at", "started_at", "finished_at",
     "exit_code", "exit_signal", "oom_killed", "error", "cgroup_path", "network", "config"]

  predicate StateTyped(s: State) {
    && ExitRelay.IsI32(s.initPid) && ExitRelay.IsI32(s.shimPid)
    && IsU64(Some(s.initStartTime)) && IsU64(Some(s.createdAt)) && IsU64(Some(s.startedAt)) && IsU64(Some(s.finishedAt))
    && ExitRelay.Representable(s.exit) && NetworkStateTyped(s.network) && Typed(s.config)
  }

  /** Times that a signed 64-bit integer holds. */
  predicate TimesFit(s: State) {
    Fits(Some(s.initStartTime)) && Fits(Some(s.createdAt)) && Fits(Some(s.startedAt)) && Fits(Some(s.finishedAt))
  }

  function SignedOrNull(v: Option<int>): Json { if v.Some? then Int(v.value) else Null }

  function StateValues(s: State): seq<Json> {
    [Str(s.id), StrOrNull(s.name), Str(StatusText(s.status)), Int(s.initPid), Int(AsI64(s.initStartTime)),
     Int(s.shimPid), Int(AsI64(s.createdAt)), Int(AsI64(s.startedAt)), Int(AsI64(s.finishedAt)),
     SignedOrNull(s.exit.code), SignedOrNull(s.exit.signal), Bool(s.oomKilled), StrOrNull(s.error),
     StrOrNull(s.cgroupPath), NetworkStateToJson(s.network), Config.ToJson(s.config)]
  }

  function ToJson(s: State): Json { Obj(Built(STATE_KEYS, StateValues(s))) }

  /** A cast to `i32`. */
  function AsI32(i: int): int {
    var n := i % 0x1_0000_0000;
    if n >= 0x8000_0000 then n - 0x1_0000_0000 else n
  }

  lemma AsI32Stays(i: int)
    requires ExitRelay.IsI32(i)
    ensures AsI32(i) == i
  {
  }

  function GetI32(j: Json, key: string): Option<int> {
    var v := Get(j, key);
    if v.Some? && v.value.Int? then Some(AsI32(v.value.i)) else None
  }

  function FromJson(j: Json, f: Readers): Result<State> {
    var cj, id := Get(j, "config"), GetStr(j, "id");
    var config := if cj.Some? then Config.FromJson(cj.value, f) else Err;
    var status := ParseStatus(Or(GetStr(j, "status"), "stopped"));
    if config.Err? || id.None? || status.Err? then Err
    else
      var nj := Get(j, "network");
      Ok(State(
        id.value, GetStr(j, "name"), status.value, Or(GetI32(j, "init_pid"), 0), Or(GetUint(j, "init_start_time"), 0),
        Or(GetI32(j, "shim_pid"), 0), Or(GetUint(j, "created_at"), 0), Or(GetUint(j, "started_at"), 0),
        Or(GetUint(j, "finished_at"), 0),
        ExitRelay.ExitStatus(GetI32(j, "exit_code"), GetI32(j, "exit_signal")), Or(GetBool(j, "oom_killed"), false),
        GetStr(j, "error"), GetStr(j, "cgroup_path"), NetworkStateFromJson(Or(nj, Null)), config.value))
  }

  lemma StateKeysDistinct()
    ensures Distinct(STATE_KEYS)
  {
  }

  lemma StateFieldsA(values: seq<Json>)
    requires |values| == |STATE_KEYS|
    ensures
      var j := Obj(Built(STATE_KEYS, values));
      && Get(j, "id") == Some(values[0]) && Get(j, "name") == Some(values[1]) && Get(j, "status") == Some(values[2])
      && Get(j, "init_pid") == Some(values[3]) && Get(j, "init_start_time") == Some(values[4])
      && Get(j, "shim_pid") == Some(values[5])
  {
    StateKeysDistinct();
    hide Built, Get, Distinct;
    BuiltField(STATE_KEYS, values, 0, "id");
    BuiltField(STATE_KEYS, values, 1, "name");
    BuiltField(STATE_KEYS, values, 2, "status");
    BuiltField(STATE_KEYS, values, 3, "init_pid");
    BuiltField(STATE_KEYS, values, 4, "init_start_time");
    BuiltField(STATE_KEYS, values, 5, "shim_pid");
  }

  lemma StateFieldsB(values: seq<Json>)
    requires |values| == |STATE_KEYS|
    ensures
      var j := Obj(Built(STATE_KEYS, values));
      && Get(j, "created_at") == Some(values[6]) && Get(j, "started_at") == Some(values[7])
      && Get(j, "finished_at") == Some(values[8])
      && Get(j, "exit_code") == Some(values[9]) && Get(j, "exit_signal") == Some(values[10])
  {
    StateKeysDistinct();
    hide Built, Get, Distinct;
    BuiltField(STATE_KEYS, values, 6, "created_at");
    BuiltField(STATE_KEYS, values, 7, "started_at");
    BuiltField(STATE_KEYS, values, 8, "finished_at");
    BuiltField(STATE_KEYS, values, 9, "exit_code");
    BuiltField(STATE_KEYS, values, 10, "exit_signal");
  }

  lemma StateFieldsC(values: seq<Json>)
    requires |values| == |STATE_KEYS|
    ensures
      var j := Obj(Built(STATE_KEYS, values));
      && Get(j, "oom_killed") == Some(values[11]) && Get(j, "error") == Some(values[12])
      && Get(j, "cgroup_path") == Some(values[13])
      && Get(j, "network") == Some(values[14]) && Get(j, "config") == Some(values[15])
  {
    StateKeysDistinct();
    hide Built, Get, Distinct;
    BuiltField(STATE_KEYS, values, 11, "oom_killed");
    BuiltField(STATE_KEYS, values, 12, "error");
    BuiltField(STATE_KEYS, values, 13, "cgroup_path");
    BuiltField(STATE_KEYS, values, 14, "network");
    BuiltField(STATE_KEYS, values, 15, "config");
  }

  lemma TimeOf(j: Json, key: string, n: nat)
    requires Get(j, key) == Some(Int(AsI64(n))) && IsU64(Some(n))
    ensures Or(GetUint(j, key), 0) == n <==> Fits(Some(n))
  {
  }

  lemma SignedOf(j: Json, key: string, v: Option<int>)
    requires Get(j, key) == Some(SignedOrNull(v)) && (v.Some? ==> ExitRelay.IsI32(v.value))
    ensures GetI32(j, key) == v
  {
    if v.Some? { AsI32Stays(v.value); }
  }

  lemma NameGets(s: State)
    requires StateTyped(s)
    ensures
      var j := ToJson(s);
      && GetStr(j, "id") == Some(s.id) && GetStr(j, "name") == s.name
      && GetStr(j, "status") == Some(StatusText(s.status))
      && GetI32(j, "init_pid") == Some(s.initPid) && GetI32(j, "shim_pid") == Some(s.shimPid)
      && (Or(GetUint(j, "init_start_time"), 0) == s.initStartTime <==> Fits(Some(s.initStartTime)))
  {
    hide Built, Get, AsI32, AsI64, StatusText, NetworkStateToJson, Config.ToJson, GetUint, Fits, GetI32;
    StateFieldsA(StateValues(s));
    SignedOf(ToJson(s), "init_pid", Some(s.initPid));
    SignedOf(ToJson(s), "shim_pid", Some(s.shimPid));
    TimeOf(ToJson(s), "init_start_time", s.initStartTime);
  }

  lemma TimeGets(s: State)
    requires StateTyped(s)
    ensures
      var j := ToJson(s);
      && (Or(GetUint(j, "created_at"), 0) == s.createdAt <==> Fits(Some(s.createdAt)))
      && (Or(GetUint(j, "started_at"), 0) == s.startedAt <==> Fits(Some(s.startedAt)))
      && (Or(GetUint(j, "finished_at"), 0) == s.finishedAt <==> Fits(Some(s.finishedAt)))
      && ExitRelay.ExitStatus(GetI32(j, "exit_code"), GetI32(j, "exit_signal")) == s.exit
  {
    hide Built, Get, AsI64, StatusText, NetworkStateToJson, Config.ToJson, StrOrNull, SignedOrNull, GetUint, Fits,
      GetI32;
    StateFieldsB(StateValues(s));
    TimeOf(ToJson(s), "created_at", s.createdAt);
    TimeOf(ToJson(s), "started_at", s.startedAt);
    TimeOf(ToJson(s), "finished_at", s.finishedAt);
    SignedOf(ToJson(s), "exit_code", s.exit.code);
    SignedOf(ToJson(s), "exit_signal", s.exit.signal);
  }

  lemma RestGets(s: State)
    ensures
      var j := ToJson(s);
      && GetBool(j, "oom_killed") == Some(s.oomKilled) && GetStr(j, "error") == s.error
      && GetStr(j, "cgroup_path") == s.cgroupPath && Get(j, "network") == Some(NetworkStateToJson(s.network))
      && Get(j, "config") == Some(Config.ToJson(s.config))
  {
    hide Built, Get, AsI64, StatusText, NetworkStateToJson, Config.ToJson, SignedOrNull;
    StateFieldsC(StateValues(s));
  }

  /** A saved state is loaded as it was, but for `detach`, exactly if its times fit a
      signed integer and its configuration survives. */
  lemma StateSurvives(s: State, f: Readers)
    requires StateTyped(s) && Env.WasSet(s.config.env)
    ensures FromJson(ToJson(s), f) == Ok(s.(config := s.config.(detach := false))) <==>
            TimesFit(s) && ResourcesFit(s.config.resources) && Distinct(LabelKeys(s.config.labels))
  {
    hide ToJson, Get, GetStr, GetBool, GetI32, GetUint, StatusText, ParseStatus, NetworkStateToJson,
      NetworkStateFromJson, Config.ToJson, Config.FromJson, Distinct, ResourcesFit, Typed, Env.WasSet, LabelKeys, Fits;
    StatusSurvives(s.status);
    NetworkStateSurvives(s.network);
    ConfigurationSurvives(s.config, f);
    NameGets(s);
    TimeGets(s);
    RestGets(s);
  }

  lemma StateLeaves(s: State)
    requires StateTyped(s)
    ensures Exact(Str(s.id)) && Exact(StrOrNull(s.name)) && Exact(Str(StatusText(s.status)))
    ensures Exact(Int(s.initPid)) && Exact(Int(s.shimPid)) && Exact(Int(AsI64(s.initStartTime)))
    ensures Exact(Int(AsI64(s.createdAt))) && Exact(Int(AsI64(s.startedAt))) && Exact(Int(AsI64(s.finishedAt)))
    ensures Exact(SignedOrNull(s.exit.code)) && Exact(SignedOrNull(s.exit.signal)) && Exact(Bool(s.oomKilled))
    ensures Exact(StrOrNull(s.error)) && Exact(StrOrNull(s.cgroupPath))
  {
  }

  lemma StateExact(s: State)
    requires StateTyped(s)
    ensures Exact(ToJson(s))
  {
    hide Built, Distinct, Exact, StrOrNull, SignedOrNull, AsI64, StatusText, NetworkStateToJson, Config.ToJson,
      NetworkStateTyped, Typed;
    StateKeysDistinct();
    StateLeaves(s);
    NetworkStateExact(s.network);
    ConfigurationExact(s.config);
    BuiltExact(STATE_KEYS, StateValues(s));
  }

  /** Whatever its configuration and its times, a saved state is read with the exit
      status it had. */
  lemma ExitIsRead(s: State, f: Readers)
    requires StateTyped(s)
    ensures FromJson(ToJson(s), f).Ok? && FromJson(ToJson(s), f).value.exit == s.exit
  {
    hide ToJson, Get, GetStr, GetBool, GetI32, GetUint, StatusText, ParseStatus, NetworkStateToJson,
      NetworkStateFromJson, Config.ToJson, Config.FromJson, Typed, Fits;
    StatusSurvives(s.status);
    ConfigurationIsRead(s.config, f);
    NameGets(s);
    TimeGets(s);
    RestGets(s);
  }

  lemma StateParses(s: State)
    requires StateTyped(s)
    ensures Parse(Print(ToJson(s), Some(2), 0)) == Ok(ToJson(s))
  {
    hide Parse, Print, Exact, StateTyped, ToJson;
    StateExact(s);
    JsonRoundTrip.PrintedTreeParses(ToJson(s), Some(2));
  }

  /** From save to load through the bytes of `state.json`: every saved state is
      loaded, with its exit status and so the exit code that stands for. */
  lemma ExitIsLoaded(s: State, f: Readers)
    requires StateTyped(s)
    ensures
      var read := Parse(Print(ToJson(s), Some(2), 0));
      read.Ok? && FromJson(read.value, f).Ok? && FromJson(read.value, f).value.exit == s.exit
  {
    hide Parse, Print, StateTyped, ToJson, FromJson;
    StateParses(s);
    ExitIsRead(s, f);
  }

  /** ... and all the rest of it exactly if its times fit and its configuration
      survives. */
  lemma StateIsLoaded(s: State, f: Readers)
    requires StateTyped(s) && Env.WasSet(s.config.env)
    ensures
      var read := Parse(Print(ToJson(s), Some(2), 0));
      && read.Ok? && FromJson(read.value, f).Ok? && FromJson(read.value, f).value.exit == s.exit
      && (FromJson(read.value, f) == Ok(s.(config := s.config.(detach := false))) <==>
            TimesFit(s) && ResourcesFit(s.config.resources) && Distinct(LabelKeys(s.config.labels)))
  {
    hide Parse, Print, Distinct, Env.WasSet, StateTyped, TimesFit, ResourcesFit, ToJson, FromJson;
    StateParses(s);
    ExitIsRead(s, f);
    StateSurvives(s, f);
  }
}
