/** Address leases (`src/runtime/ipam.rs`): the lease file, and `allocate`,
`release` and `gc` as operations on it. */
module Ipam {
  import opened Bytes
  import opened Wrappers
  import opened Ipv4
  import Json
  import JsonRoundTrip
  import JsonParser
  import JsonText
  import Utf8

  datatype Lease = Lease(ip: Ip, id: string)

  datatype Leases = Leases(subnet: string, entries: seq<Lease>)

  const NO_LEASES := Leases("", [])

  // -------------------------------------------------------------------------
  // The lease file
  // -------------------------------------------------------------------------

  function LeaseToJson(l: Lease): Json.Json {
    Json.Obj([Json.Member("ip", Json.Str(FormatIpv4(l.ip))), Json.Member("id", Json.Str(l.id))])
  }

  function ToJson(l: Leases): Json.Json {
    Json.Obj([Json.Member("subnet", Json.Str(l.subnet)),
              Json.Member("leases",
                Json.Arr(seq(|l.entries|, i requires 0 <= i < |l.entries| => LeaseToJson(l.entries[i]))))])
  }

  /** An entry with an unreadable address or no id is skipped. */
  function LeaseFromJson(j: Json.Json): Option<Lease> {
    var ip := Json.GetStr(j, "ip");
    var id := Json.GetStr(j, "id");
    if ip.None? || id.None? || ParseIpv4(ip.value).Err? then None
    else Some(Lease(ParseIpv4(ip.value).value, id.value))
  }

  function EntriesFromJson(items: seq<Json.Json>): seq<Lease> {
    if items == [] then []
    else
      var l := LeaseFromJson(items[0]);
      (if l.Some? then [l.value] else []) + EntriesFromJson(items[1..])
  }

  function FromJson(j: Json.Json): Leases {
    var subnet := Json.GetStr(j, "subnet");
    var leases := Json.Get(j, "leases");
    Leases(if subnet.Some? then subnet.value else "",
           if leases.Some? && leases.value.Arr? then EntriesFromJson(leases.value.items) else [])
  }

  /** `load`: a missing file, or a text that is not JSON, holds no leases. */
  function Load(file: Option<seq<byte>>): Leases {
    if file.None? then NO_LEASES
    else
      var j := Json.Parse(file.value);
      if j.Ok? then FromJson(j.value) else NO_LEASES
  }

  /** `read_to_string` takes the file. */
  predicate IsReadable(file: Option<seq<byte>>) { file.Some? ==> Utf8.IsText(file.value) }

  /** The text `store` writes. */
  function FileText(l: Leases): seq<byte> {
    Json.Print(ToJson(l), Some(2), 0)
  }

  lemma LeaseJsonRoundTrip(l: Lease)
    ensures LeaseFromJson(LeaseToJson(l)) == Some(l)
  {
    hide ParseIpv4, FormatIpv4;
    Ipv4RoundTrip(l.ip);
    assert "ip"[1] != "id"[1];
    TwoMembers("ip", Json.Str(FormatIpv4(l.ip)), "id", Json.Str(l.id));
  }

  lemma TwoMembers(k: string, v: Json.Json, k': string, v': Json.Json)
    requires k != k'
    ensures var j := Json.Obj([Json.Member(k, v), Json.Member(k', v')]);
            Json.Get(j, k) == Some(v) && Json.Get(j, k') == Some(v')
  {
    var m := [Json.Member(k, v), Json.Member(k', v')];
    assert m[1..] == [Json.Member(k', v')];
    assert Json.Find(m[1..], k') == Some(v');
  }

  lemma {:induction false} EntriesRoundTrip(entries: seq<Lease>, items: seq<Json.Json>)
    requires |items| == |entries|
    requires forall i :: 0 <= i < |items| ==> items[i] == LeaseToJson(entries[i])
    ensures EntriesFromJson(items) == entries
  {
    hide LeaseToJson, LeaseFromJson;
    if entries != [] {
      LeaseJsonRoundTrip(entries[0]);
      EntriesRoundTrip(entries[1..], items[1..]);
      assert entries == [entries[0]] + entries[1..];
    }
  }

  /** What one process stores is what the next one loads, for every set of
      leases: the JSON text, the dotted addresses and the ids all come back. */
  lemma LoadAfterStore(l: Leases)
    ensures Load(Some(FileText(l))) == l
  {
    hide Json.Parse, Json.Print, EntriesFromJson, LeaseToJson;
    var j := ToJson(l);
    LeasesAreExact(l);
    JsonRoundTrip.PrintedTreeParses(j, Some(2));
    assert "subnet"[0] != "leases"[0];
    TwoMembers("subnet", j.members[0].value, "leases", j.members[1].value);
    EntriesRoundTrip(l.entries, j.members[1].value.items);
  }

  /** ... and the file can be read as text. */
  lemma StoredIsReadable(l: Leases)
    ensures IsReadable(Some(FileText(l)))
  {
    LeasesAreExact(l);
    JsonText.PrintIsText(ToJson(l), Some(2), 0);
  }

  lemma LeasesAreExact(l: Leases)
    ensures Json.Exact(ToJson(l))
  {
    assert forall i :: 0 <= i < |l.entries| ==> Json.Exact(LeaseToJson(l.entries[i]));
  }

  // -------------------------------------------------------------------------
  // Leases
  // -------------------------------------------------------------------------

  /** No id holds two leases and no address is leased twice. */
  ghost predicate Consistent(l: Leases) {
    forall i, j :: 0 <= i < j < |l.entries| ==>
      l.entries[i].id != l.entries[j].id && l.entries[i].ip != l.entries[j].ip
  }

  function Holder(entries: seq<Lease>, id: string): Option<Ip> {
    if entries == [] then None
    else if entries[0].id == id then Some(entries[0].ip)
    else Holder(entries[1..], id)
  }

  /** `retain`. */
  function Keep(entries: seq<Lease>, p: Lease -> bool): (r: seq<Lease>)
    ensures |r| <= |entries|
    ensures forall l :: l in r <==> l in entries && p(l)
  {
    if entries == [] then []
    else if p(entries[0]) then [entries[0]] + Keep(entries[1..], p)
    else Keep(entries[1..], p)
  }

  function Without(entries: seq<Lease>, id: string): seq<Lease> {
    Keep(entries, (l: Lease) => l.id != id)
  }

  ghost predicate Taken(entries: seq<Lease>, ip: Ip) {
    exists l :: l in entries && l.ip == ip
  }

  /** The leases that count for `subnet`: another subnet's are dropped. */
  function ForSubnet(l: Leases, subnet: string): Leases {
    if l.subnet == subnet then l else Leases(subnet, [])
  }

  /** An address automatic allocation may hand out. */
  ghost predicate Available(entries: seq<Lease>, net: Ip, prefix: nat, gateway: Ip, u: nat)
    requires prefix <= 30
  {
    var (lo, hi) := UsableRange(ToU32(net), prefix).value;
    lo <= u <= hi < U32 && u != ToU32(gateway) && !Taken(entries, OfU32(u))
  }

  /** What `allocate` promises, before leases `l` and after `l'`:
      a held lease is returned unchanged; a requested address is granted exactly
      when it is neither leased to someone else nor the gateway; otherwise the
      least available address is granted, and the call fails exactly when there
      is none; a failed call changes nothing. */
  ghost predicate Allocates(l: Leases, subnet: string, id: string, requested: Option<Ip>, gateway: Ip,
                            r: Result<(Ip, nat)>, l': Leases)
  {
    match ParseCidr(subnet)
    case Err => r.Err? && l' == l
    case Ok((net, prefix)) =>
      var held := Holder(ForSubnet(l, subnet).entries, id);
      if held.Some? && (requested.None? || requested == held) then
        r == Ok((held.value, prefix)) && l' == l
      else
        var others := Without(ForSubnet(l, subnet).entries, id);
        match r
        case Err =>
          && l' == l
          && (requested.Some? ==> Taken(others, requested.value) || requested.value == gateway)
          && (requested.None? && prefix <= 30 ==> forall u: nat :: !Available(others, net, prefix, gateway, u))
        case Ok((ip, p)) =>
          && p == prefix
          && l' == Leases(subnet, others + [Lease(ip, id)])
          && !Taken(others, ip) && ip != gateway
          && (requested.Some? ==> ip == requested.value)
          && (requested.None? ==> prefix <= 30 && LeastAvailable(others, net, prefix, gateway, ip))
  }

  ghost predicate LeastAvailable(entries: seq<Lease>, net: Ip, prefix: nat, gateway: Ip, ip: Ip)
    requires prefix <= 30
  {
    && Available(entries, net, prefix, gateway, ToU32(ip))
    && forall u: nat :: Available(entries, net, prefix, gateway, u) ==> ToU32(ip) <= u
  }

  ghost predicate Releases(l: Leases, id: string, l': Leases) {
    l' == Leases(l.subnet, Without(l.entries, id))
  }

  ghost predicate Collects(l: Leases, live: seq<string>, removed: nat, l': Leases) {
    && l' == Leases(l.subnet, Keep(l.entries, (e: Lease) => e.id in live))
    && removed == |l.entries| - |l'.entries|
  }

  // -------------------------------------------------------------------------
  // What the operations keep
  // -------------------------------------------------------------------------

  lemma {:induction false} KeepIsConsistent(subnet: string, entries: seq<Lease>, p: Lease -> bool)
    requires Consistent(Leases(subnet, entries))
    ensures Consistent(Leases(subnet, Keep(entries, p)))
  {
    if entries != [] {
      var rest := entries[1..];
      assert Consistent(Leases(subnet, rest)) by {
        assert forall i :: 0 <= i < |rest| ==> rest[i] == entries[i + 1];
      }
      KeepIsConsistent(subnet, rest, p);
      var kept := Keep(rest, p);
      forall k | 0 <= k < |kept|
        ensures kept[k].id != entries[0].id && kept[k].ip != entries[0].ip
      {
        assert kept[k] in rest;
        var j :| 0 <= j < |rest| && rest[j] == kept[k];
        assert entries[j + 1] == kept[k];
      }
    }
  }

  /** Every operation keeps ids and addresses pairwise distinct. */
  lemma AllocateKeepsConsistency(l: Leases, subnet: string, id: string, requested: Option<Ip>, gateway: Ip,
                                 r: Result<(Ip, nat)>, l': Leases)
    requires Consistent(l)
    requires Allocates(l, subnet, id, requested, gateway, r, l')
    ensures Consistent(l')
    ensures r.Ok? ==> Holder(l'.entries, id) == Some(r.value.0)
  {
    var c := ForSubnet(l, subnet);
    var held := Holder(c.entries, id);
    if r.Ok? && !(held.Some? && (requested.None? || requested == held)) {
      KeepIsConsistent(subnet, c.entries, (l: Lease) => l.id != id);
      var others := Without(c.entries, id);
      forall i | 0 <= i < |others|
        ensures others[i].id != id && others[i].ip != r.value.0
      {
        assert others[i] in others;
      }
      HolderOfLast(others, id, r.value.0);
    }
  }

  lemma {:induction false} HolderOfLast(entries: seq<Lease>, id: string, ip: Ip)
    requires forall i :: 0 <= i < |entries| ==> entries[i].id != id
    ensures Holder(entries + [Lease(ip, id)], id) == Some(ip)
  {
    if entries == [] {
      assert entries + [Lease(ip, id)] == [Lease(ip, id)];
    } else {
      assert (entries + [Lease(ip, id)])[1..] == entries[1..] + [Lease(ip, id)];
      HolderOfLast(entries[1..], id, ip);
    }
  }

  lemma ReleaseKeepsConsistency(l: Leases, id: string, l': Leases)
    requires Consistent(l) && Releases(l, id, l')
    ensures Consistent(l')
    ensures forall e :: e in l'.entries <==> e in l.entries && e.id != id
  {
    KeepIsConsistent(l.subnet, l.entries, (e: Lease) => e.id != id);
  }

  lemma CollectKeepsConsistency(l: Leases, live: seq<string>, removed: nat, l': Leases)
    requires Consistent(l) && Collects(l, live, removed, l')
    ensures Consistent(l')
    ensures forall e :: e in l'.entries <==> e in l.entries && e.id in live
    ensures removed == 0 ==> l' == l
  {
    KeepIsConsistent(l.subnet, l.entries, (e: Lease) => e.id in live);
    KeepAll(l.entries, (e: Lease) => e.id in live);
  }

  lemma {:induction false} KeepAll(entries: seq<Lease>, p: Lease -> bool)
    ensures |Keep(entries, p)| == |entries| ==> Keep(entries, p) == entries
  {
    if entries != [] {
      KeepAll(entries[1..], p);
    }
  }

  /** A released address can be handed out again, and a lease survives the
      release and collection of others. */
  lemma OthersKeepTheirLease(l: Leases, id: string, other: string, l': Leases)
    requires Releases(l, id, l') && other != id
    ensures Holder(l'.entries, other) == Holder(l.entries, other)
    ensures Holder(l'.entries, id) == None
  {
    KeepHolder(l.entries, id, other);
    KeepHolder(l.entries, id, id);
  }

  lemma {:induction false} KeepHolder(entries: seq<Lease>, id: string, other: string)
    ensures Holder(Without(entries, id), other) == if other == id then None else Holder(entries, other)
  {
    if entries != [] {
      KeepHolder(entries[1..], id, other);
      if entries[0].id != id {
        assert Without(entries, id)[1..] == Without(entries[1..], id);
      }
    }
  }

  // -------------------------------------------------------------------------
  // The operations
  // -------------------------------------------------------------------------

  /** Which of the system calls of an operation succeed. */
  datatype IoPlan = IoPlan(lock: bool, read: bool, write: bool)

  /** The runtime directory's lease file. */
  class LeaseStore {
    var file: Option<seq<byte>>

    constructor ()
      ensures file == None
    {
      file := None;
    }

    ghost function Contents(): Leases
      reads this
    {
      Load(file)
    }

    method LoadFile(io: IoPlan) returns (r: Result<Leases>)
      ensures r == if io.read && IsReadable(file) then Ok(Contents()) else Err
    {
      if !io.read || !IsReadable(file) {
        return Err;
      }
      if file.None? {
        return Ok(NO_LEASES);
      }
      var j := JsonParser.ParseText(file.value);
      r := if j.Ok? then Ok(FromJson(j.value)) else Ok(NO_LEASES);
    }

    /** Replaces the file in one step, or leaves it alone. */
    method StoreFile(l: Leases, io: IoPlan) returns (ok: bool)
      modifies this
      ensures ok == io.write
      ensures ok ==> Contents() == l && IsReadable(file)
      ensures !ok ==> file == old(file)
    {
      ok := io.write;
      if ok {
        hide Json.Print, Load, ToJson;
        LeasesAreExact(l);
        var w := new JsonParser.Writer();
        w.Write(ToJson(l), Some(2), 0);
        assert w.out == FileText(l);
        LoadAfterStore(l);
        StoredIsReadable(l);
        file := Some(w.out);
      }
    }

    /** The search of `allocate` for an automatic address. */
    method FindFree(others: seq<Lease>, net: Ip, prefix: nat, gateway: Ip) returns (r: Result<Ip>)
      requires prefix <= 32
      ensures prefix > 30 ==> r.Err?
      ensures prefix <= 30 && r.Ok? ==> LeastAvailable(others, net, prefix, gateway, r.value)
      ensures prefix <= 30 && r.Err? ==> forall u: nat :: !Available(others, net, prefix, gateway, u)
    {
      var range := UsableRange(ToU32(net), prefix);
      if range.Err? {
        return Err;
      }
      var (lo, hi) := range.value;
      UsableRangeIsExact(0, ToU32(net), prefix);
      var candidate := lo;
      while candidate <= hi
        invariant lo <= candidate <= hi + 1
        invariant forall u: nat :: u < candidate ==> !Available(others, net, prefix, gateway, u)
      {
        if candidate != ToU32(gateway) {
          var addr := OfU32(candidate);
          if !IsTaken(others, addr) {
            U32RoundTrip(candidate);
            return Ok(addr);
          }
        }
        candidate := candidate + 1;
      }
      r := Err;
    }

    static function IsTaken(entries: seq<Lease>, ip: Ip): (r: bool)
      ensures r <==> Taken(entries, ip)
    {
      if entries == [] then false
      else if entries[0].ip == ip then assert entries[0] in entries; true
      else
        var rest := IsTaken(entries[1..], ip);
        assert forall l :: l in entries <==> l == entries[0] || l in entries[1..];
        rest
    }

    /** `allocate`.  When every system call succeeds it does what `Allocates`
        says; when one fails the file is unchanged. */
    method Allocate(subnet: string, id: string, requested: Option<Ip>, gateway: Ip, io: IoPlan)
      returns (r: Result<(Ip, nat)>)
      modifies this
      ensures io.lock && io.read && io.write && IsReadable(old(file)) ==>
        Allocates(old(Contents()), subnet, id, requested, gateway, r, Contents())
      ensures r.Err? ==> file == old(file)
      ensures r.Ok? ==> IsReadable(file)
    {
      hide Load, ParseCidr;
      if !io.lock {
        return Err;
      }
      var cidr := ParseCidr(subnet);
      if cidr.Err? {
        return Err;
      }
      var (net, prefix) := cidr.value;
      CidrPrefix(subnet);
      var loaded := LoadFile(io);
      if loaded.Err? {
        return Err;
      }
      var leases := ForSubnet(loaded.value, subnet);
      var held := Holder(leases.entries, id);
      if held.Some? && (requested.None? || requested == held) {
        return Ok((held.value, prefix));
      }
      var others := leases.entries;
      if held.Some? {
        others := Without(leases.entries, id);
      } else {
        NothingToDrop(leases.entries, id);
      }
      var chosen;
      if requested.Some? {
        if IsTaken(others, requested.value) || ToU32(requested.value) == ToU32(gateway) {
          ToU32Injective(requested.value, gateway);
          return Err;
        }
        chosen := requested.value;
      } else {
        var found := FindFree(others, net, prefix, gateway);
        if found.Err? {
          return Err;
        }
        chosen := found.value;
        U32RoundTrip(ToU32(chosen));
        ToU32Injective(OfU32(ToU32(chosen)), chosen);
      }
      var ok := StoreFile(Leases(subnet, others + [Lease(chosen, id)]), io);
      if !ok {
        return Err;
      }
      r := Ok((chosen, prefix));
    }

    /** `release`: also for an id that holds nothing. */
    method Release(id: string, io: IoPlan) returns (ok: bool)
      modifies this
      ensures ok ==> Releases(old(Contents()), id, Contents())
      ensures !ok ==> file == old(file)
      ensures ok ==> IsReadable(file)
      ensures io.lock && io.read && io.write && IsReadable(old(file)) ==> ok
    {
      hide Load;
      if !io.lock {
        return false;
      }
      var loaded := LoadFile(io);
      if loaded.Err? {
        return false;
      }
      var leases := loaded.value;
      var kept := Without(leases.entries, id);
      KeepAll(leases.entries, (l: Lease) => l.id != id);
      if |kept| != |leases.entries| {
        ok := StoreFile(Leases(leases.subnet, kept), io);
      } else {
        ok := true;
      }
    }

    /** `gc`. */
    method Collect(live: seq<string>, io: IoPlan) returns (r: Result<nat>)
      modifies this
      ensures r.Ok? ==> Collects(old(Contents()), live, r.value, Contents())
      ensures r.Err? ==> file == old(file)
      ensures r.Ok? ==> IsReadable(file)
      ensures io.lock && io.read && io.write && IsReadable(old(file)) ==> r.Ok?
    {
      hide Load;
      if !io.lock {
        return Err;
      }
      var loaded := LoadFile(io);
      if loaded.Err? {
        return Err;
      }
      var leases := loaded.value;
      var kept := Keep(leases.entries, (l: Lease) => l.id in live);
      KeepAll(leases.entries, (l: Lease) => l.id in live);
      var removed := |leases.entries| - |kept|;
      if removed > 0 {
        var ok := StoreFile(Leases(leases.subnet, kept), io);
        if !ok {
          return Err;
        }
      }
      r := Ok(removed);
    }
  }

  // -------------------------------------------------------------------------
  // Which addresses a subnet's text stands for
  // -------------------------------------------------------------------------

  /** A host address of `net/n`: in the subnet, and neither its first nor its last. */
  predicate IsHost(ip: Ip, net: Ip, n: nat)
    requires n <= 32
  {
    var u := ToU32(ip);
    InSubnet(u, ToU32(net), n) && u != Masked(ToU32(net), n) && u != Broadcast(ToU32(net), n)
  }

  lemma AvailableIsFreeHost(entries: seq<Lease>, net: Ip, n: nat, gateway: Ip, ip: Ip)
    requires n <= 30
    ensures Available(entries, net, n, gateway, ToU32(ip)) <==>
      IsHost(ip, net, n) && ip != gateway && !Taken(entries, ip)
  {
    hide Masked, InSubnet, Broadcast;
    UsableRangeIsExact(ToU32(ip), ToU32(net), n);
    U32RoundTrip(ToU32(ip));
    ToU32Injective(OfU32(ToU32(ip)), ip);
    ToU32Injective(ip, gateway);
  }

  /** `allocate` on a subnet written `a.b.c.d/n`, for a container without a lease
      that asks for no address: it gets the least free host address of just that
      subnet, with its prefix; it gets none exactly if the prefix is beyond 30 or
      every host address is taken. */
  lemma FreshLeaseIsInTheSubnet(l: Leases, net: Ip, n: nat, id: string, gateway: Ip,
                                r: Result<(Ip, nat)>, l': Leases)
    requires Allocates(l, CidrText(net, n), id, None, gateway, r, l')
    requires Holder(ForSubnet(l, CidrText(net, n)).entries, id).None?
    ensures r.Ok? ==>
      var entries := ForSubnet(l, CidrText(net, n)).entries;
      && n <= 30 && r.value.1 == n
      && IsHost(r.value.0, net, n) && r.value.0 != gateway && !Taken(entries, r.value.0)
      && l' == Leases(CidrText(net, n), entries + [Lease(r.value.0, id)])
      && (forall ip :: IsHost(ip, net, n) && ip != gateway && !Taken(entries, ip) ==>
            ToU32(r.value.0) <= ToU32(ip))
    ensures r.Err? ==>
      && l' == l
      && (n <= 30 ==> forall ip :: IsHost(ip, net, n) && ip != gateway ==>
            Taken(ForSubnet(l, CidrText(net, n)).entries, ip))
  {
    hide ParseCidr, Available, IsHost, Taken, CidrText;
    var entries := ForSubnet(l, CidrText(net, n)).entries;
    CidrRoundTrip(net, n);
    NothingToDrop(entries, id);
    if n <= 30 {
      forall ip
        ensures Available(entries, net, n, gateway, ToU32(ip)) <==>
          IsHost(ip, net, n) && ip != gateway && !Taken(entries, ip)
      {
        AvailableIsFreeHost(entries, net, n, gateway, ip);
      }
    }
  }

  /** Leases of another subnet do not count and are dropped with the next new one. */
  lemma AnotherSubnetStartsAfresh(l: Leases, subnet: string, id: string, requested: Option<Ip>, gateway: Ip,
                                  r: Result<(Ip, nat)>, l': Leases)
    requires Allocates(l, subnet, id, requested, gateway, r, l') && l.subnet != subnet
    ensures r.Ok? ==> l' == Leases(subnet, [Lease(r.value.0, id)])
    ensures requested.Some? && requested.value != gateway && ParseCidr(subnet).Ok? ==>
      r == Ok((requested.value, ParseCidr(subnet).value.1))
  {
    hide ParseCidr, LeastAvailable, Available;
    NothingToDrop([], id);
    assert [] + [Lease(gateway, id)] == [Lease(gateway, id)];
  }

  /** The first container of a subnet gets the address after the default gateway. */
  lemma FirstLeaseFollowsTheGateway(l: Leases, net: Ip, n: nat, id: string, r: Result<(Ip, nat)>, l': Leases)
    requires n <= 30 && ForSubnet(l, CidrText(net, n)).entries == []
    requires
      var gateway := DefaultGateway(ToU32(net), n);
      gateway < U32 && Allocates(l, CidrText(net, n), id, None, OfU32(gateway), r, l')
    ensures
      var next := Masked(ToU32(net), n) + 2;
      next < U32 && r == Ok((OfU32(next), n))
  {
    hide ParseCidr, CidrText, Masked, Broadcast, ToU32, OfU32, Without;
    var next := Masked(ToU32(net), n) + 2;
    CidrRoundTrip(net, n);
    UsableRangeIsExact(0, ToU32(net), n);
    U32RoundTrip(next);
    U32RoundTrip(next - 1);
    NothingToDrop([], id);
    assert !Taken([], OfU32(next));
    assert Available([], net, n, OfU32(next - 1), next);
    if r.Ok? {
      ToU32Injective(r.value.0, OfU32(next));
    }
  }

  lemma CidrPrefix(subnet: string)
    ensures ParseCidr(subnet).Ok? ==> ParseCidr(subnet).value.1 <= 32
  {
  }

  lemma {:induction false} NothingToDrop(entries: seq<Lease>, id: string)
    requires Holder(entries, id).None?
    ensures Without(entries, id) == entries
  {
    if entries != [] {
      NothingToDrop(entries[1..], id);
      assert entries == [entries[0]] + entries[1..];
    }
  }
}
