/** The container configuration as JSON: what the command line tool writes to
`config.json` and what init reads from it (`src/config.rs`). */
module Config {
  import opened Bytes
  import opened Wrappers
  import opened Text
  import opened Json
  import JsonRoundTrip
  import Env

  // -------------------------------------------------------------------------
  // Objects
  // -------------------------------------------------------------------------

  /** `Json::set`: replace the value of a key that is there, else append. */
  function SetMember(members: seq<Member>, key: string, value: Json): seq<Member> {
    if members == [] then [Member(key, value)]
    else if members[0].key == key then [Member(key, value)] + members[1..]
    else [members[0]] + SetMember(members[1..], key, value)
  }

  /** An object built by one `set` after the other. */
  function Built(keys: seq<string>, values: seq<Json>): seq<Member>
    requires |keys| == |values|
  {
    if keys == [] then []
    else
      var n := |keys| - 1;
      SetMember(Built(keys[..n], values[..n]), keys[n], values[n])
  }

  predicate Distinct(keys: seq<string>) {
    forall i, j :: 0 <= i < j < |keys| ==> keys[i] != keys[j]
  }

  lemma {:induction false} SetNew(members: seq<Member>, key: string, value: Json)
    requires forall i :: 0 <= i < |members| ==> members[i].key != key
    ensures SetMember(members, key, value) == members + [Member(key, value)]
  {
    if members != [] {
      SetNew(members[1..], key, value);
      assert members == [members[0]] + members[1..];
    }
  }

  lemma {:induction false} BuiltInOrder(keys: seq<string>, values: seq<Json>)
    requires |keys| == |values| && Distinct(keys)
    ensures |Built(keys, values)| == |keys|
    ensures forall i :: 0 <= i < |keys| ==> Built(keys, values)[i] == Member(keys[i], values[i])
  {
    if keys != [] {
      var n := |keys| - 1;
      BuiltInOrder(keys[..n], values[..n]);
      SetNew(Built(keys[..n], values[..n]), keys[n], values[n]);
    }
  }

  lemma {:induction false} FindFirst(members: seq<Member>, k: nat)
    requires k < |members| && forall i :: 0 <= i < k ==> members[i].key != members[k].key
    ensures Find(members, members[k].key) == Some(members[k].value)
  {
    if k > 0 {
      FindFirst(members[1..], k - 1);
    }
  }

  lemma {:induction false} FindNone(members: seq<Member>, key: string)
    requires forall i :: 0 <= i < |members| ==> members[i].key != key
    ensures Find(members, key) == None
  {
    if members != [] {
      FindNone(members[1..], key);
    }
  }

  /** A field that was set is found, one that was not is not. */
  lemma BuiltField(keys: seq<string>, values: seq<Json>, k: nat, key: string)
    requires |keys| == |values| && Distinct(keys) && k < |keys| && keys[k] == key
    ensures Get(Obj(Built(keys, values)), key) == Some(values[k])
  {
    BuiltInOrder(keys, values);
    FindFirst(Built(keys, values), k);
  }

  lemma BuiltMissing(keys: seq<string>, values: seq<Json>, key: string)
    requires |keys| == |values| && Distinct(keys) && key !in keys
    ensures Get(Obj(Built(keys, values)), key) == None
  {
    BuiltInOrder(keys, values);
    FindNone(Built(keys, values), key);
  }

  lemma BuiltExact(keys: seq<string>, values: seq<Json>)
    requires |keys| == |values| && Distinct(keys) && forall i :: 0 <= i < |values| ==> Exact(values[i])
    ensures Exact(Obj(Built(keys, values)))
  {
    BuiltInOrder(keys, values);
  }

  function GetBool(j: Json, key: string): Option<bool> {
    var v := Get(j, key);
    if v.Some? && v.value.Bool? then Some(v.value.b) else None
  }

  /** `as_u64` of a field; a float is not looked into. */
  function GetUint(j: Json, key: string): Option<nat> {
    var v := Get(j, key);
    if v.Some? && v.value.Int? && v.value.i >= 0 then Some(v.value.i) else None
  }

  function GetArr(j: Json, key: string): Option<seq<Json>> {
    var v := Get(j, key);
    if v.Some? && v.value.Arr? then Some(v.value.items) else None
  }

  function Or<T>(v: Option<T>, d: T): T { if v.Some? then v.value else d }

  function StrOrNull(s: Option<string>): Json { if s.Some? then Str(s.value) else Null }

  /** An unsigned 64-bit value stored as a signed one. */
  function AsI64(n: nat): int { if n < 0x8000_0000_0000_0000 then n else n - 0x1_0000_0000_0000_0000 }

  function IntOrNull(n: Option<nat>): Json { if n.Some? then Int(AsI64(n.value)) else Null }

  predicate IsU64(n: Option<nat>) { n.Some? ==> n.value < 0x1_0000_0000_0000_0000 }

  predicate Fits(n: Option<nat>) { n.Some? ==> n.value < 0x8000_0000_0000_0000 }

  // -------------------------------------------------------------------------
  // Namespaces
  // -------------------------------------------------------------------------

  datatype Namespaces = Namespaces(pid: bool, mount: bool, uts: bool, ipc: bool, net: bool, cgroup: bool)

  const NS_KEYS: seq<string> := ["pid", "mount", "uts", "ipc", "net", "cgroup"]

  function NamespacesToJson(n: Namespaces): Json {
    Obj(Built(NS_KEYS, [Bool(n.pid), Bool(n.mount), Bool(n.uts), Bool(n.ipc), Bool(n.net), Bool(n.cgroup)]))
  }

  function NamespacesFromJson(j: Json): Namespaces {
    Namespaces(Or(GetBool(j, "pid"), true), Or(GetBool(j, "mount"), true), Or(GetBool(j, "uts"), true),
               Or(GetBool(j, "ipc"), true), Or(GetBool(j, "net"), true), Or(GetBool(j, "cgroup"), true))
  }

  lemma NsKeysDistinct()
    ensures Distinct(NS_KEYS)
  {
  }

  lemma NsFields(values: seq<Json>)
    requires |values| == |NS_KEYS|
    ensures
      var j := Obj(Built(NS_KEYS, values));
      && Get(j, "pid") == Some(values[0]) && Get(j, "mount") == Some(values[1]) && Get(j, "uts") == Some(values[2])
      && Get(j, "ipc") == Some(values[3]) && Get(j, "net") == Some(values[4]) && Get(j, "cgroup") == Some(values[5])
  {
    NsKeysDistinct();
    hide Built, Get, Distinct;
    BuiltField(NS_KEYS, values, 0, "pid");
    BuiltField(NS_KEYS, values, 1, "mount");
    BuiltField(NS_KEYS, values, 2, "uts");
    BuiltField(NS_KEYS, values, 3, "ipc");
    BuiltField(NS_KEYS, values, 4, "net");
    BuiltField(NS_KEYS, values, 5, "cgroup");
  }

  lemma NamespacesSurvive(n: Namespaces)
    ensures NamespacesFromJson(NamespacesToJson(n)) == n
  {
    hide Built, Get;
    NsFields([Bool(n.pid), Bool(n.mount), Bool(n.uts), Bool(n.ipc), Bool(n.net), Bool(n.cgroup)]);
  }

  // -------------------------------------------------------------------------
  // Resources
  // -------------------------------------------------------------------------

  /** A number of processors, as the text a float is printed with: whole ones look
      like integers. */
  datatype Cpus = Whole(n: int) | Fraction(text: seq<byte>)

  predicate CpusTyped(c: Option<Cpus>) {
    c.Some? ==> if c.value.Whole? then IsI64(c.value.n) else IsDecimalText(c.value.text) && ParseI64(c.value.text).None?
  }

  function CpusToJson(c: Option<Cpus>): Json {
    if c.None? then Null else if c.value.Whole? then Int(c.value.n) else Float(c.value.text)
  }

  /** `as_f64`. */
  function GetCpus(j: Json, key: string): Option<Cpus> {
    var v := Get(j, key);
    if v.Some? && v.value.Int? then Some(Whole(v.value.i))
    else if v.Some? && v.value.Float? then Some(Fraction(v.value.text)) else None
  }

  datatype Resources = Resources(
    memory: Option<nat>, memorySwap: Option<nat>, cpus: Option<Cpus>, cpuWeight: Option<nat>, pids: Option<nat>)

  const RES_KEYS: seq<string> := ["memory", "memory_swap", "cpus", "cpu_weight", "pids"]

  predicate ResourcesTyped(r: Resources) {
    IsU64(r.memory) && IsU64(r.memorySwap) && CpusTyped(r.cpus) && IsU64(r.cpuWeight) && IsU64(r.pids)
  }

  predicate ResourcesFit(r: Resources) {
    Fits(r.memory) && Fits(r.memorySwap) && Fits(r.cpuWeight) && Fits(r.pids)
  }

  function ResourcesValues(r: Resources): seq<Json> {
    [IntOrNull(r.memory), IntOrNull(r.memorySwap), CpusToJson(r.cpus), IntOrNull(r.cpuWeight), IntOrNull(r.pids)]
  }

  function ResourcesToJson(r: Resources): Json {
    Obj(Built(RES_KEYS, ResourcesValues(r)))
  }

  /** A number, or a size in words, which `size` reads. */
  function NumOrSize(j: Json, key: string, size: string -> Result<Option<nat>>): Result<Option<nat>> {
    var v := Get(j, key);
    if v.Some? && v.value.Str? then size(v.value.s) else Ok(GetUint(j, key))
  }

  function ResourcesFromJson(j: Json, size: string -> Result<Option<nat>>): Result<Resources> {
    var memory := NumOrSize(j, "memory", size);
    var swap := NumOrSize(j, "memory_swap", size);
    if memory.Err? || swap.Err? then Err
    else Ok(Resources(memory.value, swap.value, GetCpus(j, "cpus"), GetUint(j, "cpu_weight"), GetUint(j, "pids")))
  }

  lemma ResKeysDistinct()
    ensures Distinct(RES_KEYS)
  {
  }

  lemma ResFields(values: seq<Json>)
    requires |values| == |RES_KEYS|
    ensures
      var j := Obj(Built(RES_KEYS, values));
      && Get(j, "memory") == Some(values[0]) && Get(j, "memory_swap") == Some(values[1])
      && Get(j, "cpus") == Some(values[2])
      && Get(j, "cpu_weight") == Some(values[3]) && Get(j, "pids") == Some(values[4])
  {
    ResKeysDistinct();
    hide Built, Get, Distinct;
    BuiltField(RES_KEYS, values, 0, "memory");
    BuiltField(RES_KEYS, values, 1, "memory_swap");
    BuiltField(RES_KEYS, values, 2, "cpus");
    BuiltField(RES_KEYS, values, 3, "cpu_weight");
    BuiltField(RES_KEYS, values, 4, "pids");
  }

  lemma LimitOf(j: Json, key: string, n: Option<nat>, size: string -> Result<Option<nat>>)
    requires Get(j, key) == Some(IntOrNull(n)) && IsU64(n)
    ensures GetUint(j, key) == n <==> Fits(n)
    ensures NumOrSize(j, key, size) == Ok(GetUint(j, key))
  {
  }

  lemma CpusOf(j: Json, key: string, c: Option<Cpus>)
    requires Get(j, key) == Some(CpusToJson(c))
    ensures GetCpus(j, key) == c
  {
  }

  /** Limits survive exactly if they are below 2^63: larger ones turn negative and
      are read as no limit at all. */
  lemma ResourcesSurvive(r: Resources, size: string -> Result<Option<nat>>)
    requires ResourcesTyped(r)
    ensures ResourcesFromJson(ResourcesToJson(r), size).Ok?
    ensures ResourcesFromJson(ResourcesToJson(r), size) == Ok(r) <==> ResourcesFit(r)
  {
    hide Built, Get, IntOrNull, CpusToJson, GetUint, GetCpus, NumOrSize, Fits, CpusTyped;
    ResFields(ResourcesValues(r));
    var j := ResourcesToJson(r);
    LimitOf(j, "memory", r.memory, size);
    LimitOf(j, "memory_swap", r.memorySwap, size);
    CpusOf(j, "cpus", r.cpus);
    LimitOf(j, "cpu_weight", r.cpuWeight, size);
    LimitOf(j, "pids", r.pids, size);
  }

  // -------------------------------------------------------------------------
  // Lists of strings, ports and mounts
  // -------------------------------------------------------------------------

  function Texts(ss: seq<string>): Json { Arr(Env.Strings(ss)) }

  /** The strings of an array field, if there is one. */
  function GetTexts(j: Json, key: string): Option<seq<string>> {
    var a := GetArr(j, key);
    if a.Some? then Some(Env.AsStrings(a.value)) else None
  }

  lemma TextsSurvive(ss: seq<string>)
    ensures Env.AsStrings(Env.Strings(ss)) == ss && Exact(Texts(ss))
  {
    Env.StringsRoundTrip(ss);
  }

  datatype Port = Port(host: nat, container: nat, protocol: string)

  predicate PortTyped(p: Port) { p.host < 0x1_0000 && p.container < 0x1_0000 }

  const PORT_KEYS: seq<string> := ["host_port", "container_port", "protocol"]

  function PortToJson(p: Port): Json { Obj(Built(PORT_KEYS, [Int(p.host), Int(p.container), Str(p.protocol)])) }

  function OrElse(a: Option<Json>, b: Option<Json>): Option<Json> { if a.Some? then a else b }

  function AsUint(v: Option<Json>): Option<nat> {
    if v.Some? && v.value.Int? && v.value.i >= 0 then Some(v.value.i) else None
  }

  /** An object, or a mapping in words, which `read` reads. */
  function PortFromJson(j: Json, read: string -> Result<Port>): Result<Port> {
    if j.Str? then read(j.s)
    else
      var host := AsUint(OrElse(Get(j, "host"), Get(j, "host_port")));
      var container := AsUint(OrElse(Get(j, "container"), Get(j, "container_port")));
      if host.None? || container.None? then Err
      else Ok(Port(host.value % 0x1_0000, container.value % 0x1_0000, Or(GetStr(j, "protocol"), "tcp")))
  }

  lemma PortKeysDistinct()
    ensures Distinct(PORT_KEYS)
  {
  }

  lemma PortFields(values: seq<Json>)
    requires |values| == |PORT_KEYS|
    ensures
      var j := Obj(Built(PORT_KEYS, values));
      && Get(j, "host_port") == Some(values[0]) && Get(j, "container_port") == Some(values[1])
      && Get(j, "protocol") == Some(values[2])
  {
    PortKeysDistinct();
    hide Built, Get, Distinct;
    BuiltField(PORT_KEYS, values, 0, "host_port");
    BuiltField(PORT_KEYS, values, 1, "container_port");
    BuiltField(PORT_KEYS, values, 2, "protocol");
  }

  lemma PortSurvives(p: Port, read: string -> Result<Port>)
    requires PortTyped(p)
    ensures PortFromJson(PortToJson(p), read) == Ok(p)
  {
    PortKeysDistinct();
    hide Built, Get, Distinct;
    var values := [Int(p.host), Int(p.container), Str(p.protocol)];
    PortFields(values);
    BuiltMissing(PORT_KEYS, values, "host");
    BuiltMissing(PORT_KEYS, values, "container");
  }

  lemma PortExact(p: Port)
    requires PortTyped(p)
    ensures Exact(PortToJson(p))
  {
    PortKeysDistinct();
    BuiltExact(PORT_KEYS, [Int(p.host), Int(p.container), Str(p.protocol)]);
  }

  function PortsToJson(ps: seq<Port>): seq<Json> {
    if ps == [] then [] else [PortToJson(ps[0])] + PortsToJson(ps[1..])
  }

  function PortsFromJson(js: seq<Json>, read: string -> Result<Port>): Result<seq<Port>> {
    if js == [] then Ok([])
    else
      var p := PortFromJson(js[0], read);
      if p.Err? then Err
      else
        var rest := PortsFromJson(js[1..], read);
        if rest.Err? then Err else Ok([p.value] + rest.value)
  }

  lemma {:induction false} PortsSurvive(ps: seq<Port>, read: string -> Result<Port>)
    requires forall i :: 0 <= i < |ps| ==> PortTyped(ps[i])
    ensures PortsFromJson(PortsToJson(ps), read) == Ok(ps) && Exact(Arr(PortsToJson(ps)))
  {
    hide PortToJson, PortFromJson, PortTyped;
    if ps != [] {
      PortsSurvive(ps[1..], read);
      PortSurvives(ps[0], read);
      PortExact(ps[0]);
      var js := PortsToJson(ps);
      assert js[1..] == PortsToJson(ps[1..]);
      assert ps == [ps[0]] + ps[1..];
      forall k | 0 <= k < |js| ensures Exact(js[k]) {
        if k > 0 { assert js[k] == Arr(PortsToJson(ps[1..])).items[k - 1]; }
      }
    }
  }

  datatype Mount = Mount(source: string, destination: string, fstype: string, readonly: bool)

  const MOUNT_KEYS: seq<string> := ["source", "destination", "type", "readonly"]

  function MountToJson(m: Mount): Json {
    Obj(Built(MOUNT_KEYS, [Str(m.source), Str(m.destination), Str(m.fstype), Bool(m.readonly)]))
  }

  function MountFromJson(j: Json, read: string -> Result<Mount>): Result<Mount> {
    if j.Str? then read(j.s)
    else
      var source, destination := GetStr(j, "source"), GetStr(j, "destination");
      if source.None? || destination.None? then Err
      else Ok(Mount(source.value, destination.value, Or(GetStr(j, "type"), "bind"), Or(GetBool(j, "readonly"), false)))
  }

  lemma MountKeysDistinct()
    ensures Distinct(MOUNT_KEYS)
  {
  }

  lemma MountFields(values: seq<Json>)
    requires |values| == |MOUNT_KEYS|
    ensures
      var j := Obj(Built(MOUNT_KEYS, values));
      && Get(j, "source") == Some(values[0]) && Get(j, "destination") == Some(values[1])
      && Get(j, "type") == Some(values[2])
      && Get(j, "readonly") == Some(values[3])
  {
    MountKeysDistinct();
    hide Built, Get, Distinct;
    BuiltField(MOUNT_KEYS, values, 0, "source");
    BuiltField(MOUNT_KEYS, values, 1, "destination");
    BuiltField(MOUNT_KEYS, values, 2, "type");
    BuiltField(MOUNT_KEYS, values, 3, "readonly");
  }

  lemma MountSurvives(m: Mount, read: string -> Result<Mount>)
    ensures MountFromJson(MountToJson(m), read) == Ok(m)
  {
    hide Built, Get;
    MountFields([Str(m.source), Str(m.destination), Str(m.fstype), Bool(m.readonly)]);
  }

  lemma MountExact(m: Mount)
    ensures Exact(MountToJson(m))
  {
    MountKeysDistinct();
    BuiltExact(MOUNT_KEYS, [Str(m.source), Str(m.destination), Str(m.fstype), Bool(m.readonly)]);
  }

  function MountsToJson(ms: seq<Mount>): seq<Json> {
    if ms == [] then [] else [MountToJson(ms[0])] + MountsToJson(ms[1..])
  }

  function MountsFromJson(js: seq<Json>, read: string -> Result<Mount>): Result<seq<Mount>> {
    if js == [] then Ok([])
    else
      var m := MountFromJson(js[0], read);
      if m.Err? then Err
      else
        var rest := MountsFromJson(js[1..], read);
        if rest.Err? then Err else Ok([m.value] + rest.value)
  }

  lemma {:induction false} MountsSurvive(ms: seq<Mount>, read: string -> Result<Mount>)
    ensures MountsFromJson(MountsToJson(ms), read) == Ok(ms) && Exact(Arr(MountsToJson(ms)))
  {
    hide MountToJson, MountFromJson;
    if ms != [] {
      MountsSurvive(ms[1..], read);
      MountSurvives(ms[0], read);
      MountExact(ms[0]);
      var js := MountsToJson(ms);
      assert js[1..] == MountsToJson(ms[1..]);
      assert ms == [ms[0]] + ms[1..];
      forall k | 0 <= k < |js| ensures Exact(js[k]) {
        if k > 0 { assert js[k] == Arr(MountsToJson(ms[1..])).items[k - 1]; }
      }
    }
  }

  // -------------------------------------------------------------------------
  // Named modes and users
  // -------------------------------------------------------------------------

  function LowerChar(c: char): char { if 'A' <= c <= 'Z' then (c as int + 0x20) as char else c }

  function Lower(s: string): string {
    if s == [] then [] else [LowerChar(s[0])] + Lower(s[1..])
  }

  predicate LowerLetters(s: string) { forall i :: 0 <= i < |s| ==> 'a' <= s[i] <= 'z' }

  lemma {:induction false} LowerStays(s: string)
    requires LowerLetters(s)
    ensures Lower(s) == s && Lower(Trim(s)) == s
  {
    TrimIsIdentity(s);
    if s != [] {
      assert 'a' <= s[0] <= 'z';
      LowerStays(s[1..]);
      assert s == [s[0]] + s[1..];
    }
  }

  datatype NetMode = NoNet | BridgeNet | HostNet

  function ModeText(m: NetMode): string {
    match m case NoNet => "none" case BridgeNet => "bridge" case HostNet => "host"
  }

  function ParseMode(s: string): Result<NetMode> {
    var t := Lower(Trim(s));
    if t == "none" then Ok(NoNet) else if t == "bridge" then Ok(BridgeNet) else if t == "host" then Ok(HostNet) else Err
  }

  lemma ModeSurvives(m: NetMode)
    ensures ParseMode(ModeText(m)) == Ok(m)
  {
    LowerStays(ModeText(m));
  }

  datatype Seccomp = Unconfined | Default | Strict

  function SeccompText(m: Seccomp): string {
    match m case Unconfined => "unconfined" case Default => "default" case Strict => "strict"
  }

  function ParseSeccomp(s: string): Result<Seccomp> {
    var t := Lower(Trim(s));
    if t == "unconfined" || t == "off" || t == "none" then Ok(Unconfined)
    else if t == "default" || t == "on" then Ok(Default)
    else if t == "strict" then Ok(Strict) else Err
  }

  lemma SeccompLetters(m: Seccomp)
    ensures LowerLetters(SeccompText(m))
  {
  }

  lemma SeccompSurvives(m: Seccomp)
    ensures ParseSeccomp(SeccompText(m)) == Ok(m)
  {
    hide Lower, Trim, LowerLetters;
    SeccompLetters(m);
    LowerStays(SeccompText(m));
  }

  datatype User = User(uid: nat, gid: nat)

  const U32_MAX := 0xffff_ffff

  predicate UserTyped(u: User) { u.uid <= U32_MAX && u.gid <= U32_MAX }

  function UserText(u: User): string { Decimal(u.uid) + ([':'] + Decimal(u.gid)) }

  /** `uid[:gid]`; the group defaults to the user's number. */
  function ParseUser(s: string): Result<User> {
    var parts := SplitOnce(s, ':');
    var uid := ParseUnsigned(Trim(if parts.Some? then parts.value.0 else s), U32_MAX);
    var gid := if parts.Some? then ParseUnsigned(Trim(parts.value.1), U32_MAX) else uid;
    if uid.Some? && gid.Some? then Ok(User(uid.value, gid.value)) else Err
  }

  lemma NumberReads(n: nat)
    requires n <= U32_MAX
    ensures ParseUnsigned(Trim(Decimal(n)), U32_MAX) == Some(n) && ':' !in Decimal(n)
  {
    DecimalRoundTrip(n);
    var d := Decimal(n);
    assert Text.IsDigit(d[0]) && Text.IsDigit(d[|d| - 1]);
    TrimIsIdentity(d);
    ParseDecimal(n, U32_MAX);
    forall i | 0 <= i < |d| ensures d[i] != ':' { assert Text.IsDigit(d[i]); }
  }

  lemma UserSurvives(u: User)
    requires UserTyped(u)
    ensures ParseUser(UserText(u)) == Ok(u)
  {
    NumberReads(u.uid);
    NumberReads(u.gid);
    SplitOnceAt(Decimal(u.uid), ':', Decimal(u.gid));
  }

  // -------------------------------------------------------------------------
  // Security
  // -------------------------------------------------------------------------

  datatype Security = Security(
    noNewPrivs: bool, capAdd: seq<string>, capDrop: seq<string>, seccomp: Seccomp,
    maskedPaths: seq<string>, readonlyPaths: seq<string>, user: Option<User>, privileged: bool)

  const SEC_KEYS: seq<string> :=
    ["no_new_privs", "cap_add", "cap_drop", "seccomp", "masked_paths", "readonly_paths", "user", "privileged"]

  predicate SecurityTyped(s: Security) { s.user.Some? ==> UserTyped(s.user.value) }

  function SecurityValues(s: Security): seq<Json> {
    [Bool(s.noNewPrivs), Texts(s.capAdd), Texts(s.capDrop), Str(SeccompText(s.seccomp)), Texts(s.maskedPaths),
     Texts(s.readonlyPaths), if s.user.Some? then Str(UserText(s.user.value)) else Null, Bool(s.privileged)]
  }

  function SecurityToJson(s: Security): Json { Obj(Built(SEC_KEYS, SecurityValues(s))) }

  /** Missing fields keep the value they have in `d`, the defaults. */
  function SecurityFromJson(j: Json, d: Security): Result<Security> {
    var mode := GetStr(j, "seccomp");
    var seccomp := if mode.Some? then ParseSeccomp(mode.value) else Ok(d.seccomp);
    var name := GetStr(j, "user");
    var user := if name.Some? then ParseUser(name.value) else Err;
    if seccomp.Err? || (name.Some? && user.Err?) then Err
    else Ok(Security(
      Or(GetBool(j, "no_new_privs"), d.noNewPrivs), Or(GetTexts(j, "cap_add"), d.capAdd),
      Or(GetTexts(j, "cap_drop"), d.capDrop), seccomp.value, Or(GetTexts(j, "masked_paths"), d.maskedPaths),
      Or(GetTexts(j, "readonly_paths"), d.readonlyPaths), if name.Some? then Some(user.value) else d.user,
      Or(GetBool(j, "privileged"), d.privileged)))
  }

  lemma SecKeysDistinct()
    ensures Distinct(SEC_KEYS)
  {
  }

  lemma SecFields(values: seq<Json>)
    requires |values| == |SEC_KEYS|
    ensures
      var j := Obj(Built(SEC_KEYS, values));
      && Get(j, "no_new_privs") == Some(values[0]) && Get(j, "cap_add") == Some(values[1])
      && Get(j, "cap_drop") == Some(values[2])
      && Get(j, "seccomp") == Some(values[3]) && Get(j, "masked_paths") == Some(values[4])
      && Get(j, "readonly_paths") == Some(values[5])
      && Get(j, "user") == Some(values[6]) && Get(j, "privileged") == Some(values[7])
  {
    SecKeysDistinct();
    hide Built, Get, Distinct;
    BuiltField(SEC_KEYS, values, 0, "no_new_privs");
    BuiltField(SEC_KEYS, values, 1, "cap_add");
    BuiltField(SEC_KEYS, values, 2, "cap_drop");
    BuiltField(SEC_KEYS, values, 3, "seccomp");
    BuiltField(SEC_KEYS, values, 4, "masked_paths");
    BuiltField(SEC_KEYS, values, 5, "readonly_paths");
    BuiltField(SEC_KEYS, values, 6, "user");
    BuiltField(SEC_KEYS, values, 7, "privileged");
  }

  lemma SecurityGets(s: Security)
    ensures
      var j := SecurityToJson(s);
      && GetBool(j, "no_new_privs") == Some(s.noNewPrivs) && GetTexts(j, "cap_add") == Some(s.capAdd)
      && GetTexts(j, "cap_drop") == Some(s.capDrop) && GetStr(j, "seccomp") == Some(SeccompText(s.seccomp))
      && GetTexts(j, "masked_paths") == Some(s.maskedPaths) && GetTexts(j, "readonly_paths") == Some(s.readonlyPaths)
      && GetStr(j, "user") == (if s.user.Some? then Some(UserText(s.user.value)) else None)
      && GetBool(j, "privileged") == Some(s.privileged)
  {
    TextsSurvive(s.capAdd);
    TextsSurvive(s.capDrop);
    TextsSurvive(s.maskedPaths);
    TextsSurvive(s.readonlyPaths);
    hide Built, Get, Exact, UserText, SeccompText, Env.AsStrings, Env.Strings;
    SecFields(SecurityValues(s));
  }

  lemma SecuritySurvives(s: Security, d: Security)
    requires SecurityTyped(s) && d.user.None?
    ensures SecurityFromJson(SecurityToJson(s), d) == Ok(s)
  {
    SeccompSurvives(s.seccomp);
    if s.user.Some? { UserSurvives(s.user.value); }
    hide GetStr, GetBool, GetTexts, ParseUser, UserText, ParseSeccomp, SeccompText, SecurityToJson;
    SecurityGets(s);
  }

  lemma SecurityExact(s: Security)
    ensures Exact(SecurityToJson(s))
  {
    SecKeysDistinct();
    TextsSurvive(s.capAdd);
    TextsSurvive(s.capDrop);
    TextsSurvive(s.maskedPaths);
    TextsSurvive(s.readonlyPaths);
    assert Exact(Null);
    hide Built, Distinct, Texts;
    BuiltExact(SEC_KEYS, SecurityValues(s));
  }

  // -------------------------------------------------------------------------
  // Network
  // -------------------------------------------------------------------------

  datatype Network = Network(
    mode: NetMode, bridge: string, subnet: string, ip: Option<string>, gateway: Option<string>, mtu: nat,
    publish: seq<Port>, masquerade: bool, dns: seq<string>)

  const NET_KEYS: seq<string> := ["mode", "bridge", "subnet", "ip", "gateway", "mtu", "publish", "nat", "dns"]

  predicate NetworkTyped(n: Network) {
    n.mtu <= U32_MAX && forall i :: 0 <= i < |n.publish| ==> PortTyped(n.publish[i])
  }

  function NetworkValues(n: Network): seq<Json> {
    [Str(ModeText(n.mode)), Str(n.bridge), Str(n.subnet), StrOrNull(n.ip), StrOrNull(n.gateway), Int(n.mtu),
     Arr(PortsToJson(n.publish)), Bool(n.masquerade), Texts(n.dns)]
  }

  function NetworkToJson(n: Network): Json { Obj(Built(NET_KEYS, NetworkValues(n))) }

  function NetworkFromJson(j: Json, d: Network, read: string -> Result<Port>): Result<Network> {
    var name := GetStr(j, "mode");
    var mode := if name.Some? then ParseMode(name.value) else Ok(d.mode);
    var list := GetArr(j, "publish");
    var publish := if list.Some? then PortsFromJson(list.value, read) else Ok(d.publish);
    if mode.Err? || publish.Err? then Err
    else Ok(Network(
      mode.value, Or(GetStr(j, "bridge"), d.bridge), Or(GetStr(j, "subnet"), d.subnet), GetStr(j, "ip"),
      GetStr(j, "gateway"), Or(GetUint(j, "mtu"), d.mtu) % 0x1_0000_0000, publish.value,
      Or(GetBool(j, "nat"), d.masquerade),
      Or(GetTexts(j, "dns"), d.dns)))
  }

  lemma NetKeysDistinct()
    ensures Distinct(NET_KEYS)
  {
  }

  lemma NetFields(values: seq<Json>)
    requires |values| == |NET_KEYS|
    ensures
      var j := Obj(Built(NET_KEYS, values));
      && Get(j, "mode") == Some(values[0]) && Get(j, "bridge") == Some(values[1]) && Get(j, "subnet") == Some(values[2])
      && Get(j, "ip") == Some(values[3]) && Get(j, "gateway") == Some(values[4]) && Get(j, "mtu") == Some(values[5])
      && Get(j, "publish") == Some(values[6]) && Get(j, "nat") == Some(values[7]) && Get(j, "dns") == Some(values[8])
  {
    NetKeysDistinct();
    hide Built, Get, Distinct;
    BuiltField(NET_KEYS, values, 0, "mode");
    BuiltField(NET_KEYS, values, 1, "bridge");
    BuiltField(NET_KEYS, values, 2, "subnet");
    BuiltField(NET_KEYS, values, 3, "ip");
    BuiltField(NET_KEYS, values, 4, "gateway");
    BuiltField(NET_KEYS, values, 5, "mtu");
    BuiltField(NET_KEYS, values, 6, "publish");
    BuiltField(NET_KEYS, values, 7, "nat");
    BuiltField(NET_KEYS, values, 8, "dns");
  }

  lemma NetworkGets(n: Network)
    ensures
      var j := NetworkToJson(n);
      && GetStr(j, "mode") == Some(ModeText(n.mode)) && GetStr(j, "bridge") == Some(n.bridge)
      && GetStr(j, "subnet") == Some(n.subnet) && GetStr(j, "ip") == n.ip && GetStr(j, "gateway") == n.gateway
      && GetUint(j, "mtu") == Some(n.mtu) && GetArr(j, "publish") == Some(PortsToJson(n.publish))
      && GetBool(j, "nat") == Some(n.masquerade) && GetTexts(j, "dns") == Some(n.dns)
  {
    TextsSurvive(n.dns);
    hide Built, Get, Exact, ModeText, PortsToJson, Env.AsStrings, Env.Strings;
    NetFields(NetworkValues(n));
  }

  lemma SmallMod(a: nat, m: nat)
    requires a < m
    ensures a % m == a
  {
  }

  lemma NetworkSurvives(n: Network, d: Network, read: string -> Result<Port>)
    requires NetworkTyped(n)
    ensures NetworkFromJson(NetworkToJson(n), d, read) == Ok(n)
  {
    ModeSurvives(n.mode);
    PortsSurvive(n.publish, read);
    SmallMod(n.mtu, 0x1_0000_0000);
    hide PortTyped, GetStr, GetUint, GetArr, GetBool, GetTexts, Exact, ParseMode, ModeText, PortsFromJson,
      PortsToJson, NetworkToJson;
    NetworkGets(n);
  }

  lemma NetworkLeavesExact(n: Network)
    requires NetworkTyped(n)
    ensures Exact(Str(ModeText(n.mode))) && Exact(Str(n.bridge)) && Exact(Str(n.subnet))
    ensures Exact(StrOrNull(n.ip)) && Exact(StrOrNull(n.gateway)) && Exact(Int(n.mtu))
    ensures Exact(Bool(n.masquerade))
  {
  }

  lemma NetworkExact(n: Network)
    requires NetworkTyped(n)
    ensures Exact(NetworkToJson(n))
  {
    hide Built, Distinct, Texts, PortsToJson, PortsFromJson, StrOrNull, Exact;
    NetKeysDistinct();
    TextsSurvive(n.dns);
    PortsSurvive(n.publish, s => Err);
    NetworkLeavesExact(n);
    BuiltExact(NET_KEYS, NetworkValues(n));
  }

  // -------------------------------------------------------------------------
  // Labels
  // -------------------------------------------------------------------------

  datatype Label = Label(key: string, value: string)

  function LabelKeys(ls: seq<Label>): seq<string> { seq(|ls|, i requires 0 <= i < |ls| => ls[i].key) }
  function LabelValues(ls: seq<Label>): seq<Json> { seq(|ls|, i requires 0 <= i < |ls| => Str(ls[i].value)) }

  function LabelsToJson(ls: seq<Label>): Json { Obj(Built(LabelKeys(ls), LabelValues(ls))) }

  function LabelsOf(members: seq<Member>): seq<Label> {
    if members == [] then []
    else (if members[0].value.Str? then [Label(members[0].key, members[0].value.s)] else []) + LabelsOf(members[1..])
  }

  function LabelsFromJson(v: Option<Json>): seq<Label> {
    if v.Some? && v.value.Obj? then LabelsOf(v.value.members) else []
  }

  lemma {:induction false} SetMemberSize(members: seq<Member>, key: string, value: Json)
    ensures
      var has := exists i :: 0 <= i < |members| && members[i].key == key;
      |SetMember(members, key, value)| == if has then |members| else |members| + 1
  {
    if members != [] && members[0].key != key {
      SetMemberSize(members[1..], key, value);
      if exists i :: 0 <= i < |members| && members[i].key == key {
        var i :| 0 <= i < |members| && members[i].key == key;
        assert members[1..][i - 1].key == key;
      }
    }
  }

  /** Setting a key twice makes the object shorter than the list of settings. */
  lemma {:induction false} BuiltSize(keys: seq<string>, values: seq<Json>)
    requires |keys| == |values|
    ensures |Built(keys, values)| <= |keys|
    ensures !Distinct(keys) ==> |Built(keys, values)| < |keys|
  {
    if keys != [] {
      var n := |keys| - 1;
      var before := Built(keys[..n], values[..n]);
      BuiltSize(keys[..n], values[..n]);
      SetMemberSize(before, keys[n], values[n]);
      if Distinct(keys[..n]) && !Distinct(keys) {
        BuiltInOrder(keys[..n], values[..n]);
        hide Built, SetMember;
        var i := LastIsRepeated(keys);
        assert before[i].key == keys[n];
      }
    }
  }

  lemma LastIsRepeated(keys: seq<string>) returns (i: nat)
    requires keys != [] && Distinct(keys[..|keys| - 1]) && !Distinct(keys)
    ensures i < |keys| - 1 && keys[i] == keys[|keys| - 1]
  {
    var front := keys[..|keys| - 1];
    forall k, j | 0 <= k < j < |front| ensures keys[k] != keys[j] {
      assert front[k] != front[j];
    }
    var k, j :| 0 <= k < j < |keys| && keys[k] == keys[j];
    i := k;
  }

  lemma {:induction false} LabelsOfSize(members: seq<Member>)
    ensures |LabelsOf(members)| <= |members|
  {
    if members != [] {
      LabelsOfSize(members[1..]);
    }
  }

  lemma {:induction false} LabelsOfStrings(members: seq<Member>, ls: seq<Label>)
    requires |members| == |ls| && forall i :: 0 <= i < |ls| ==> members[i] == Member(ls[i].key, Str(ls[i].value))
    ensures LabelsOf(members) == ls
  {
    if ls != [] {
      LabelsOfStrings(members[1..], ls[1..]);
      assert ls == [ls[0]] + ls[1..];
    }
  }

  /** Labels survive exactly if no key is given twice. */
  lemma LabelsSurvive(ls: seq<Label>)
    ensures LabelsFromJson(Some(LabelsToJson(ls))) == ls <==> Distinct(LabelKeys(ls))
    ensures Exact(LabelsToJson(ls))
  {
    var keys, values := LabelKeys(ls), LabelValues(ls);
    if Distinct(keys) {
      BuiltInOrder(keys, values);
      LabelsOfStrings(Built(keys, values), ls);
    } else {
      BuiltSize(keys, values);
      LabelsOfSize(Built(keys, values));
    }
    StringsBuilt(keys, values);
  }

  lemma {:induction false} StringsBuilt(keys: seq<string>, values: seq<Json>)
    requires |keys| == |values| && forall i :: 0 <= i < |values| ==> values[i].Str?
    ensures forall i :: 0 <= i < |Built(keys, values)| ==> Built(keys, values)[i].value.Str?
  {
    if keys != [] {
      var n := |keys| - 1;
      StringsBuilt(keys[..n], values[..n]);
      StringsSet(Built(keys[..n], values[..n]), keys[n], values[n]);
    }
  }

  lemma {:induction false} StringsSet(members: seq<Member>, key: string, value: Json)
    requires value.Str? && forall i :: 0 <= i < |members| ==> members[i].value.Str?
    ensures forall i :: 0 <= i < |SetMember(members, key, value)| ==> SetMember(members, key, value)[i].value.Str?
  {
    if members != [] {
      StringsSet(members[1..], key, value);
    }
  }

  // -------------------------------------------------------------------------
  // The whole configuration
  // -------------------------------------------------------------------------

  datatype Container = Container(
    id: string, name: Option<string>, rootfs: string, command: seq<string>, env: seq<string>, cwd: string,
    hostname: string, readOnly: bool, autoRemove: bool, mounts: seq<Mount>, resources: Resources, network: Network,
    security: Security, namespaces: Namespaces, labels: seq<Label>, detach: bool)

  const DEFAULT_NETWORK := Network(NoNet, "myrun0", "10.87.0.0/24", None, None, 1500, [], true, ["1.1.1.1", "8.8.8.8"])

  const DEFAULT_SECURITY := Security(
    true, [], [], Default,
    ["/proc/kcore", "/proc/keys", "/proc/latency_stats", "/proc/timer_list", "/proc/timer_stats",
     "/proc/sched_debug", "/proc/scsi", "/sys/firmware", "/sys/devices/virtual/powercap"],
    ["/proc/bus", "/proc/fs", "/proc/irq", "/proc/sys", "/proc/sysrq-trigger"], None, false)

  const KEYS: seq<string> :=
    ["id", "name", "rootfs", "command", "env", "cwd", "hostname", "read_only", "auto_remove", "mounts",
     "resources", "network", "security", "namespaces", "labels"]

  function Values(c: Container): seq<Json> {
    [Str(c.id), StrOrNull(c.name), Str(c.rootfs), Texts(c.command), Texts(c.env), Str(c.cwd), Str(c.hostname),
     Bool(c.readOnly), Bool(c.autoRemove), Arr(MountsToJson(c.mounts)), ResourcesToJson(c.resources),
     NetworkToJson(c.network), SecurityToJson(c.security), NamespacesToJson(c.namespaces), LabelsToJson(c.labels)]
  }

  function ToJson(c: Container): Json { Obj(Built(KEYS, Values(c))) }

  /** The readers for values written in words, which do not matter here. */
  datatype Readers = Readers(
    size: string -> Result<Option<nat>>, port: string -> Result<Port>, mount: string -> Result<Mount>)

  function CommandOf(j: Json): seq<string> {
    var v := Get(j, "command");
    if v.None? then [] else if v.value.Arr? then Env.AsStrings(v.value.items)
    else if v.value.Str? then [v.value.s] else []
  }

  function CwdOf(j: Json): string {
    var cwd := OrElse(Get(j, "cwd"), Get(j, "workdir"));
    if cwd.Some? && cwd.value.Str? then cwd.value.s else "/"
  }

  function Entries(pairs: seq<Label>): seq<string> {
    seq(|pairs|, i requires 0 <= i < |pairs| => pairs[i].key + ['='] + pairs[i].value)
  }

  /** `env` entries over the defaults, then `environment` pairs over those. */
  function EnvFrom(j: Json): seq<string> {
    var pairs := LabelsFromJson(Get(j, "environment"));
    Env.SetAll(Env.EnvOf(j), Entries(pairs))
  }

  function FromJson(j: Json, f: Readers): Result<Container> {
    var ms, rs, ns, ss := GetArr(j, "mounts"), Get(j, "resources"), Get(j, "network"), Get(j, "security");
    var mounts := if ms.Some? then MountsFromJson(ms.value, f.mount) else Ok([]);
    var resources :=
      if rs.Some? then ResourcesFromJson(rs.value, f.size) else Ok(Resources(None, None, None, None, None));
    var network := if ns.Some? then NetworkFromJson(ns.value, DEFAULT_NETWORK, f.port) else Ok(DEFAULT_NETWORK);
    var security := if ss.Some? then SecurityFromJson(ss.value, DEFAULT_SECURITY) else Ok(DEFAULT_SECURITY);
    if mounts.Err? || resources.Err? || network.Err? || security.Err? then Err
    else
      var nj := Get(j, "namespaces");
      Ok(Container(
        Or(GetStr(j, "id"), ""), GetStr(j, "name"), Or(GetStr(j, "rootfs"), ""), CommandOf(j), EnvFrom(j),
        CwdOf(j), Or(GetStr(j, "hostname"), ""),
        Or(GetBool(j, "read_only"), false), Or(GetBool(j, "auto_remove"), false), mounts.value, resources.value,
        network.value, security.value,
        NamespacesFromJson(if nj.Some? then nj.value else Null), LabelsFromJson(Get(j, "labels")), false))
  }

  /** What a container is where nothing is said. */
  const DEFAULT_CONTAINER := Container(
    "", None, "", [], ["PATH=" + Env.DEFAULT_PATH, "TERM=xterm"], "/", "", false, false, [],
    Resources(None, None, None, None, None), DEFAULT_NETWORK, DEFAULT_SECURITY,
    Namespaces(true, true, true, true, true, true), [], false)

  predicate Typed(c: Container) {
    ResourcesTyped(c.resources) && NetworkTyped(c.network) && SecurityTyped(c.security)
  }

  lemma KeysDistinct()
    ensures Distinct(KEYS) && "environment" !in KEYS
  {
  }

  lemma FirstFields(values: seq<Json>)
    requires |values| == |KEYS|
    ensures
      var j := Obj(Built(KEYS, values));
      && Get(j, "id") == Some(values[0]) && Get(j, "name") == Some(values[1]) && Get(j, "rootfs") == Some(values[2])
      && Get(j, "command") == Some(values[3]) && Get(j, "env") == Some(values[4])
  {
    KeysDistinct();
    hide Built, Get, Distinct;
    BuiltField(KEYS, values, 0, "id");
    BuiltField(KEYS, values, 1, "name");
    BuiltField(KEYS, values, 2, "rootfs");
    BuiltField(KEYS, values, 3, "command");
    BuiltField(KEYS, values, 4, "env");
  }

  lemma MiddleFields(values: seq<Json>)
    requires |values| == |KEYS|
    ensures
      var j := Obj(Built(KEYS, values));
      && Get(j, "cwd") == Some(values[5]) && Get(j, "hostname") == Some(values[6])
      && Get(j, "read_only") == Some(values[7])
      && Get(j, "auto_remove") == Some(values[8]) && Get(j, "mounts") == Some(values[9])
  {
    KeysDistinct();
    hide Built, Get, Distinct;
    BuiltField(KEYS, values, 5, "cwd");
    BuiltField(KEYS, values, 6, "hostname");
    BuiltField(KEYS, values, 7, "read_only");
    BuiltField(KEYS, values, 8, "auto_remove");
    BuiltField(KEYS, values, 9, "mounts");
  }

  lemma LastFields(values: seq<Json>)
    requires |values| == |KEYS|
    ensures
      var j := Obj(Built(KEYS, values));
      && Get(j, "resources") == Some(values[10]) && Get(j, "network") == Some(values[11])
      && Get(j, "security") == Some(values[12])
      && Get(j, "namespaces") == Some(values[13]) && Get(j, "labels") == Some(values[14])
  {
    KeysDistinct();
    hide Built, Get, Distinct;
    BuiltField(KEYS, values, 10, "resources");
    BuiltField(KEYS, values, 11, "network");
    BuiltField(KEYS, values, 12, "security");
    BuiltField(KEYS, values, 13, "namespaces");
    BuiltField(KEYS, values, 14, "labels");
  }

  /** What the plain fields of the written document read as. */
  lemma PlainGets(c: Container)
    ensures
      var j := ToJson(c);
      && GetStr(j, "id") == Some(c.id) && GetStr(j, "name") == c.name && GetStr(j, "rootfs") == Some(c.rootfs)
      && CommandOf(j) == c.command && Get(j, "env") == Some(Texts(c.env))
  {
    TextsSurvive(c.command);
    hide Built, Get, Exact, Env.AsStrings, Env.Strings, LabelsToJson, MountsToJson, ResourcesToJson, NetworkToJson,
      SecurityToJson, NamespacesToJson;
    FirstFields(Values(c));
  }

  lemma MoreGets(c: Container)
    ensures
      var j := ToJson(c);
      && Get(j, "cwd") == Some(Str(c.cwd)) && GetStr(j, "hostname") == Some(c.hostname)
      && GetBool(j, "read_only") == Some(c.readOnly) && GetBool(j, "auto_remove") == Some(c.autoRemove)
      && GetArr(j, "mounts") == Some(MountsToJson(c.mounts))
  {
    hide Built, Get, Texts, LabelsToJson, MountsToJson, ResourcesToJson, NetworkToJson, SecurityToJson,
      NamespacesToJson;
    MiddleFields(Values(c));
  }

  lemma RecordGets(c: Container)
    ensures
      var j := ToJson(c);
      && Get(j, "resources") == Some(ResourcesToJson(c.resources))
      && Get(j, "network") == Some(NetworkToJson(c.network))
      && Get(j, "security") == Some(SecurityToJson(c.security))
      && Get(j, "namespaces") == Some(NamespacesToJson(c.namespaces))
      && Get(j, "labels") == Some(LabelsToJson(c.labels)) && Get(j, "environment") == None
  {
    KeysDistinct();
    hide Built, Get, Texts, Distinct, LabelsToJson, MountsToJson, ResourcesToJson, NetworkToJson, SecurityToJson,
      NamespacesToJson;
    LastFields(Values(c));
    BuiltMissing(KEYS, Values(c), "environment");
  }

  lemma EnvSurvives(c: Container)
    requires Env.WasSet(c.env)
    ensures EnvFrom(ToJson(c)) == c.env
  {
    hide Env.AsStrings, Env.Strings, ToJson, Get, GetStr, CommandOf;
    var kvs :| c.env == Env.SetAll(Env.DEFAULT_ENV, kvs);
    PlainGets(c);
    RecordGets(c);
    Env.StringsRoundTrip(c.env);
    Env.RefoldIsIdentity(kvs);
    assert Env.EnvOf(ToJson(c)) == c.env;
  }

  /** What init makes of the document is the configuration that was written, except
      that `detach` is not part of it, exactly if every limit is below 2^63 and no
      label is given twice. */
  lemma ConfigurationSurvives(c: Container, f: Readers)
    requires Typed(c) && Env.WasSet(c.env)
    ensures FromJson(ToJson(c), f) == Ok(c.(detach := false)) <==>
            ResourcesFit(c.resources) && Distinct(LabelKeys(c.labels))
  {
    hide ToJson, Get, GetStr, GetBool, GetArr, CommandOf, EnvFrom, MountsToJson, MountsFromJson, ResourcesToJson,
      ResourcesFromJson, NetworkToJson, NetworkFromJson, SecurityToJson, SecurityFromJson, NamespacesToJson,
      NamespacesFromJson, LabelsToJson, LabelsFromJson, Distinct, ResourcesFit, Exact, Env.WasSet, LabelKeys;
    hide ResourcesTyped, NetworkTyped, SecurityTyped;
    MountsSurvive(c.mounts, f.mount);
    ResourcesSurvive(c.resources, f.size);
    NetworkSurvives(c.network, DEFAULT_NETWORK, f.port);
    SecuritySurvives(c.security, DEFAULT_SECURITY);
    NamespacesSurvive(c.namespaces);
    LabelsSurvive(c.labels);
    EnvSurvives(c);
    PlainGets(c);
    MoreGets(c);
    RecordGets(c);
  }

  /** A written configuration can always be read. */
  lemma ConfigurationIsRead(c: Container, f: Readers)
    requires Typed(c)
    ensures FromJson(ToJson(c), f).Ok?
  {
    hide ToJson, Get, GetStr, GetBool, GetArr, CommandOf, EnvFrom, MountsToJson, MountsFromJson, ResourcesToJson,
      ResourcesFromJson, NetworkToJson, NetworkFromJson, SecurityToJson, SecurityFromJson, NamespacesToJson,
      NamespacesFromJson, LabelsFromJson, ResourcesFit, Exact, ResourcesTyped, NetworkTyped, SecurityTyped;
    MountsSurvive(c.mounts, f.mount);
    ResourcesSurvive(c.resources, f.size);
    NetworkSurvives(c.network, DEFAULT_NETWORK, f.port);
    SecuritySurvives(c.security, DEFAULT_SECURITY);
    MoreGets(c);
    RecordGets(c);
  }

  lemma ConfigurationExact(c: Container)
    requires Typed(c)
    ensures Exact(ToJson(c))
  {
    KeysDistinct();
    PartsExact(c);
    hide Built, Distinct, Values;
    BuiltExact(KEYS, Values(c));
  }

  lemma PartsExact(c: Container)
    requires Typed(c)
    ensures |Values(c)| == |KEYS| && forall i :: 0 <= i < |Values(c)| ==> Exact(Values(c)[i])
  {
    hide Exact, Texts, StrOrNull, MountsToJson, ResourcesToJson, NetworkToJson, SecurityToJson, NamespacesToJson,
      LabelsToJson, MountsFromJson, LabelsFromJson, Env.AsStrings, Env.Strings, Distinct, LabelKeys;
    hide ResourcesTyped, NetworkTyped, SecurityTyped;
    TextsSurvive(c.command);
    TextsSurvive(c.env);
    MountsSurvive(c.mounts, s => Err);
    ResourcesExact(c.resources);
    NetworkExact(c.network);
    SecurityExact(c.security);
    NamespacesExact(c.namespaces);
    LabelsSurvive(c.labels);
    LeavesExact(c);
  }

  lemma LeavesExact(c: Container)
    ensures Exact(Str(c.id)) && Exact(StrOrNull(c.name)) && Exact(Str(c.rootfs)) && Exact(Str(c.cwd))
    ensures Exact(Str(c.hostname)) && Exact(Bool(c.readOnly)) && Exact(Bool(c.autoRemove))
  {
  }

  lemma ResourcesExact(r: Resources)
    requires ResourcesTyped(r)
    ensures Exact(ResourcesToJson(r))
  {
    ResKeysDistinct();
    hide Built, Distinct;
    BuiltExact(RES_KEYS, ResourcesValues(r));
  }

  lemma NamespacesExact(n: Namespaces)
    ensures Exact(NamespacesToJson(n))
  {
    NsKeysDistinct();
    hide Built, Distinct;
    BuiltExact(NS_KEYS, [Bool(n.pid), Bool(n.mount), Bool(n.uts), Bool(n.ipc), Bool(n.net), Bool(n.cgroup)]);
  }

  /** The bytes of `config.json` are parsed to the tree that was printed. */
  lemma DocumentParses(c: Container)
    requires Typed(c)
    ensures Parse(Print(ToJson(c), Some(2), 0)) == Ok(ToJson(c))
  {
    hide ToJson, Parse, Print, Exact, Typed;
    ConfigurationExact(c);
    JsonRoundTrip.PrintedTreeParses(ToJson(c), Some(2));
  }

  /** Whatever document a configuration is read from, its environment is settings
      over the defaults. */
  lemma ReadEnvWasSet(j: Json)
    ensures Env.WasSet(EnvFrom(j))
  {
    hide Env.SetAll, Env.WasSet;
    Env.DefaultWasSet();
    var v := Get(j, "env");
    if v.Some? && v.value.Arr? {
      Env.StillWasSet(Env.DEFAULT_ENV, Env.AsStrings(v.value.items));
    }
    var pairs := LabelsFromJson(Get(j, "environment"));
    Env.StillWasSet(Env.EnvOf(j), Entries(pairs));
  }

  // -------------------------------------------------------------------------
  // What a document does not say
  // -------------------------------------------------------------------------

  predicate Silent(j: Json, keys: seq<string>) { forall i :: 0 <= i < |keys| ==> Get(j, keys[i]).None? }

  lemma SilentAbout(j: Json, keys: seq<string>, k: nat, key: string)
    requires Silent(j, keys) && k < |keys| && keys[k] == key
    ensures Get(j, key).None?
  {
  }

  /** A section that is silent about all its fields leaves the defaults. */
  lemma SilentNetwork(j: Json, d: Network, read: string -> Result<Port>)
    requires Silent(j, NET_KEYS) && d.mtu <= U32_MAX
    ensures NetworkFromJson(j, d, read) == Ok(d.(ip := None, gateway := None))
  {
    hide Get;
    SilentAbout(j, NET_KEYS, 0, "mode");
    SilentAbout(j, NET_KEYS, 1, "bridge");
    SilentAbout(j, NET_KEYS, 2, "subnet");
    SilentAbout(j, NET_KEYS, 3, "ip");
    SilentAbout(j, NET_KEYS, 4, "gateway");
    SilentAbout(j, NET_KEYS, 5, "mtu");
    SilentAbout(j, NET_KEYS, 6, "publish");
    SilentAbout(j, NET_KEYS, 7, "nat");
    SilentAbout(j, NET_KEYS, 8, "dns");
    SmallMod(d.mtu, 0x1_0000_0000);
  }

  lemma SilentSecurity(j: Json, d: Security)
    requires Silent(j, SEC_KEYS)
    ensures SecurityFromJson(j, d) == Ok(d)
  {
    hide Get;
    SilentAbout(j, SEC_KEYS, 0, "no_new_privs");
    SilentAbout(j, SEC_KEYS, 1, "cap_add");
    SilentAbout(j, SEC_KEYS, 2, "cap_drop");
    SilentAbout(j, SEC_KEYS, 3, "seccomp");
    SilentAbout(j, SEC_KEYS, 4, "masked_paths");
    SilentAbout(j, SEC_KEYS, 5, "readonly_paths");
    SilentAbout(j, SEC_KEYS, 6, "user");
    SilentAbout(j, SEC_KEYS, 7, "privileged");
  }

  lemma SilentNamespaces(j: Json)
    requires Silent(j, NS_KEYS)
    ensures NamespacesFromJson(j) == Namespaces(true, true, true, true, true, true)
  {
    hide Get;
    SilentAbout(j, NS_KEYS, 0, "pid");
    SilentAbout(j, NS_KEYS, 1, "mount");
    SilentAbout(j, NS_KEYS, 2, "uts");
    SilentAbout(j, NS_KEYS, 3, "ipc");
    SilentAbout(j, NS_KEYS, 4, "net");
    SilentAbout(j, NS_KEYS, 5, "cgroup");
  }

  lemma SilentResources(j: Json, size: string -> Result<Option<nat>>)
    requires Silent(j, RES_KEYS)
    ensures ResourcesFromJson(j, size) == Ok(Resources(None, None, None, None, None))
  {
    hide Get;
    SilentAbout(j, RES_KEYS, 0, "memory");
    SilentAbout(j, RES_KEYS, 1, "memory_swap");
    SilentAbout(j, RES_KEYS, 2, "cpus");
    SilentAbout(j, RES_KEYS, 3, "cpu_weight");
    SilentAbout(j, RES_KEYS, 4, "pids");
  }

  /** A document that says nothing of a container, whatever else is in it, stands for
      the default one. */
  lemma SilentDocument(j: Json, f: Readers)
    requires Silent(j, KEYS) && Get(j, "environment").None? && Get(j, "workdir").None?
    ensures FromJson(j, f) == Ok(DEFAULT_CONTAINER)
  {
    hide Get, NetworkFromJson, SecurityFromJson, ResourcesFromJson, MountsFromJson, NamespacesFromJson;
    SilentWords(j);
    SilentParts(j);
    assert NamespacesFromJson(Null) == DEFAULT_CONTAINER.namespaces by { SilentNull(); }
  }

  lemma SilentNull()
    ensures NamespacesFromJson(Null) == Namespaces(true, true, true, true, true, true)
  {
  }

  lemma SilentWords(j: Json)
    requires Silent(j, KEYS) && Get(j, "environment").None?
    ensures Get(j, "id").None? && Get(j, "name").None? && Get(j, "rootfs").None? && Get(j, "cwd").None?
    ensures Get(j, "hostname").None? && CommandOf(j) == [] && EnvFrom(j) == DEFAULT_CONTAINER.env
  {
    hide Get;
    SilentAbout(j, KEYS, 0, "id");
    SilentAbout(j, KEYS, 1, "name");
    SilentAbout(j, KEYS, 2, "rootfs");
    SilentAbout(j, KEYS, 3, "command");
    SilentAbout(j, KEYS, 4, "env");
    SilentAbout(j, KEYS, 5, "cwd");
    SilentAbout(j, KEYS, 6, "hostname");
  }

  lemma SilentParts(j: Json)
    requires Silent(j, KEYS)
    ensures Get(j, "read_only").None? && Get(j, "auto_remove").None? && Get(j, "mounts").None?
    ensures Get(j, "resources").None? && Get(j, "network").None? && Get(j, "security").None?
    ensures Get(j, "namespaces").None? && Get(j, "labels").None?
  {
    hide Get;
    SilentAbout(j, KEYS, 7, "read_only");
    SilentAbout(j, KEYS, 8, "auto_remove");
    SilentAbout(j, KEYS, 9, "mounts");
    SilentAbout(j, KEYS, 10, "resources");
    SilentAbout(j, KEYS, 11, "network");
    SilentAbout(j, KEYS, 12, "security");
    SilentAbout(j, KEYS, 13, "namespaces");
    SilentAbout(j, KEYS, 14, "labels");
  }

  // -------------------------------------------------------------------------
  // Other ways to say the same
  // -------------------------------------------------------------------------

  /** Two documents that say the same of everything but the command, the directory and
      the environment. */
  predicate Agree(j: Json, k: Json) {
    && Get(j, "id") == Get(k, "id") && Get(j, "name") == Get(k, "name") && Get(j, "rootfs") == Get(k, "rootfs")
    && Get(j, "hostname") == Get(k, "hostname") && Get(j, "read_only") == Get(k, "read_only")
    && Get(j, "auto_remove") == Get(k, "auto_remove") && Get(j, "mounts") == Get(k, "mounts")
    && Get(j, "resources") == Get(k, "resources") && Get(j, "network") == Get(k, "network")
    && Get(j, "security") == Get(k, "security") && Get(j, "namespaces") == Get(k, "namespaces")
    && Get(j, "labels") == Get(k, "labels")
  }

  predicate SameCommand(j: Json, k: Json) {
    || Get(j, "command") == Get(k, "command")
    || (&& Get(j, "command").Some? && Get(j, "command").value.Str?
        && Get(k, "command") == Some(Arr([Get(j, "command").value])))
  }

  predicate SameDirectory(j: Json, k: Json) {
    || (Get(j, "cwd") == Get(k, "cwd") && Get(j, "workdir") == Get(k, "workdir"))
    || (Get(j, "cwd") == None && Get(j, "workdir").Some? && Get(k, "cwd") == Get(j, "workdir"))
  }

  /** A map of variables, or the list of its entries after those of `env`. */
  predicate SameEnvironment(j: Json, k: Json) {
    || (Get(j, "env") == Get(k, "env") && Get(j, "environment") == Get(k, "environment"))
    || (&& Get(k, "environment") == None && Get(k, "env").Some? && Get(k, "env").value.Arr?
        && (Get(j, "env").Some? ==> Get(j, "env").value.Arr?)
        && Env.AsStrings(Get(k, "env").value.items)
           == (if Get(j, "env").Some? then Env.AsStrings(Get(j, "env").value.items) else [])
              + Entries(LabelsFromJson(Get(j, "environment"))))
  }

  /** A command in one word is a list of one, `workdir` is another name for `cwd`, and
      a map of variables says what its entries say at the end of the list; the order
      of fields, and fields that are none of ours, say nothing. */
  lemma SaidOtherwise(j: Json, k: Json, f: Readers)
    requires Agree(j, k) && SameCommand(j, k) && SameDirectory(j, k) && SameEnvironment(j, k)
    ensures FromJson(j, f) == FromJson(k, f)
  {
    hide FromJson, CommandOf, CwdOf, EnvFrom, Agree, SameCommand, SameDirectory, SameEnvironment;
    SameCommandReads(j, k);
    SameDirectoryReads(j, k);
    SameEnvironmentReads(j, k);
    FieldsDecide(j, k, f);
  }

  lemma SameGets(j: Json, k: Json, key: string)
    requires Get(j, key) == Get(k, key)
    ensures GetStr(j, key) == GetStr(k, key) && GetBool(j, key) == GetBool(k, key) && GetArr(j, key) == GetArr(k, key)
  {
    hide Get;
  }

  lemma FieldsDecide(j: Json, k: Json, f: Readers)
    requires Agree(j, k) && CommandOf(j) == CommandOf(k) && CwdOf(j) == CwdOf(k) && EnvFrom(j) == EnvFrom(k)
    ensures FromJson(j, f) == FromJson(k, f)
  {
    hide Get, GetStr, GetBool, GetArr, Or, CommandOf, CwdOf, EnvFrom, NetworkFromJson, SecurityFromJson,
      ResourcesFromJson, MountsFromJson, NamespacesFromJson, LabelsFromJson;
    SameGets(j, k, "id");
    SameGets(j, k, "name");
    SameGets(j, k, "rootfs");
    SameGets(j, k, "hostname");
    SameGets(j, k, "read_only");
    SameGets(j, k, "auto_remove");
    SameGets(j, k, "mounts");
  }

  lemma SameDirectoryReads(j: Json, k: Json)
    requires SameDirectory(j, k)
    ensures CwdOf(j) == CwdOf(k)
  {
    hide Get;
  }

  lemma SameCommandReads(j: Json, k: Json)
    requires SameCommand(j, k)
    ensures CommandOf(j) == CommandOf(k)
  {
    hide Get;
    if Get(j, "command") != Get(k, "command") {
      assert [Get(j, "command").value][1..] == [];
      assert Env.AsStrings([]) == [];
    }
  }

  lemma SameEnvironmentReads(j: Json, k: Json)
    requires SameEnvironment(j, k)
    ensures EnvFrom(j) == EnvFrom(k)
  {
    if Get(j, "env") != Get(k, "env") || Get(j, "environment") != Get(k, "environment") {
      hide Get, LabelsOf, Env.AsStrings, Env.SetAll;
      var own := if Get(j, "env").Some? then Env.AsStrings(Get(j, "env").value.items) else [];
      var more := Entries(LabelsFromJson(Get(j, "environment")));
      Env.SetAllConcat(Env.DEFAULT_ENV, own, more);
      SetNothing(Env.DEFAULT_ENV);
      SetNothing(Env.EnvOf(k));
      assert EnvFrom(j) == Env.SetAll(Env.EnvOf(j), more);
      assert EnvFrom(k) == Env.SetAll(Env.EnvOf(k), []);
    }
  }

  lemma SetNothing(env: seq<string>)
    ensures Env.SetAll(env, []) == env
  {
  }
}
