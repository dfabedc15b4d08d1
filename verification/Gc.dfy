/** `myrun gc`: bringing the records of all containers and the host back in line
(`gc` in `src/runtime/supervisor.rs`), when every kernel operation works and no
launch is under way. */
module Gc {
  import opened Wrappers
  import opened Lifecycle
  import opened Launch
  import Ipam

  /** The host as gc sees it: the stored records, which of their inits are alive,
      the cgroup directories and whether each still has processes, the lease file, the
      rules of published ports, the network links, the shared bridge and the number of
      shared packet filter rules. */
  datatype Fleet = Fleet(
    records: map<string, Record>, alive: set<string>, cgroups: map<string, bool>,
    leases: Ipam.Leases, rules: seq<Rule>, links: set<string>, bridge: bool, baseRules: nat)

  /** The name of a container's interface. */
  type Naming = string -> string

  predicate IsOurs(link: string) { "mrv" <= link }

  /** No two stored containers have the same interface name, which is a hash. */
  predicate Distinct(ids: set<string>, veth: Naming) {
    forall i, j :: i in ids && j in ids && veth(i) == veth(j) ==> i == j
  }

  function Live(f: Fleet): set<string> {
    set id | id in f.records && IsLive(f.records[id].status) && id in f.alive
  }

  /** Recorded live, but init is gone. */
  function Lost(f: Fleet): set<string> {
    set id | id in f.records && IsLive(f.records[id].status) && id !in f.alive
  }

  function Names(ids: set<string>, veth: Naming): set<string> {
    set id | id in ids :: veth(id)
  }

  function Orphans(links: set<string>, live: set<string>, veth: Naming): set<string> {
    set l | l in links && IsOurs(l) && l !in Names(live, veth)
  }

  /** The rules of everybody but `ids`, in order. */
  function Disowned(rules: seq<Rule>, ids: set<string>): seq<Rule> {
    if rules == [] then []
    else
      var n := |rules| - 1;
      Disowned(rules[..n], ids) + if rules[n].owner in ids then [] else [rules[n]]
  }

  function LeasesBut(l: Ipam.Leases, ids: set<string>): Ipam.Leases {
    Ipam.Leases(l.subnet, Ipam.Keep(l.entries, (e: Ipam.Lease) => e.id !in ids))
  }

  function LeasesOf(l: Ipam.Leases, ids: set<string>): Ipam.Leases {
    Ipam.Leases(l.subnet, Ipam.Keep(l.entries, (e: Ipam.Lease) => e.id in ids))
  }

  // -------------------------------------------------------------------------
  // What gc makes of a host
  // -------------------------------------------------------------------------

  /** The lost containers among `seen` are stopped and torn down. */
  function Swept(f: Fleet, seen: set<string>, now: nat, veth: Naming): Fleet {
    var lost := Lost(f) * seen;
    f.(records := map id | id in f.records :: if id in lost then ForceStopped(f.records[id], now) else f.records[id],
       cgroups := f.cgroups - lost,
       leases := LeasesBut(f.leases, lost),
       rules := Disowned(f.rules, lost),
       links := f.links - Names(lost, veth))
  }

  /** What no container in `live` accounts for is removed. */
  function Trimmed(f: Fleet, live: set<string>, veth: Naming): Fleet {
    var links := f.links - Orphans(f.links, live, veth);
    f.(cgroups := map id | id in f.cgroups && (id in live || f.cgroups[id]) :: f.cgroups[id],
       leases := LeasesOf(f.leases, live),
       links := links,
       bridge := f.bridge && (live != {} || exists l :: l in links && IsOurs(l)),
       baseRules := if live == {} then 0 else f.baseRules)
  }

  function Collected(f: Fleet, now: nat, veth: Naming): Fleet {
    Trimmed(Swept(f, f.records.Keys, now, veth), Live(f), veth)
  }

  /** There is nothing to collect. */
  predicate Tidy(f: Fleet, veth: Naming) {
    && Lost(f) == {}
    && (forall id :: id in f.cgroups ==> id in Live(f) || f.cgroups[id])
    && (forall l :: l in f.leases.entries ==> l.id in Live(f))
    && Orphans(f.links, Live(f), veth) == {}
    && (Live(f) == {} ==> f.baseRules == 0 && (f.bridge ==> exists l :: l in f.links && IsOurs(l)))
  }

  // -------------------------------------------------------------------------
  // Filters
  // -------------------------------------------------------------------------

  lemma {:induction false} KeepTwice(
    entries: seq<Ipam.Lease>, p: Ipam.Lease -> bool, q: Ipam.Lease -> bool, both: Ipam.Lease -> bool)
    requires forall e :: e in entries ==> (both(e) <==> p(e) && q(e))
    ensures Ipam.Keep(Ipam.Keep(entries, p), q) == Ipam.Keep(entries, both)
  {
    if entries != [] {
      KeepTwice(entries[1..], p, q, both);
      var kept := Ipam.Keep(entries, p);
      assert entries[0] in entries;
      if p(entries[0]) { assert kept[1..] == Ipam.Keep(entries[1..], p); }
    }
  }

  lemma {:induction false} KeepEverything(entries: seq<Ipam.Lease>, p: Ipam.Lease -> bool)
    requires forall e :: e in entries ==> p(e)
    ensures Ipam.Keep(entries, p) == entries
  {
    if entries != [] {
      KeepEverything(entries[1..], p);
      assert entries[0] in entries && entries == [entries[0]] + entries[1..];
    }
  }

  lemma {:induction false} KeepKeepsHolder(entries: seq<Ipam.Lease>, p: Ipam.Lease -> bool, id: string)
    requires forall e :: e in entries && e.id == id ==> p(e)
    ensures Ipam.Holder(Ipam.Keep(entries, p), id) == Ipam.Holder(entries, id)
  {
    if entries != [] {
      KeepKeepsHolder(entries[1..], p, id);
      assert entries[0] in entries;
      var kept := Ipam.Keep(entries, p);
      if p(entries[0]) { assert kept[1..] == Ipam.Keep(entries[1..], p); }
    }
  }

  lemma {:induction false} DisownedMore(rules: seq<Rule>, ids: set<string>, id: string)
    ensures Foreign(Disowned(rules, ids), id) == Disowned(rules, ids + {id})
  {
    if rules != [] {
      var n := |rules| - 1;
      DisownedMore(rules[..n], ids, id);
      var d := Disowned(rules, ids);
      if rules[n].owner !in ids {
        assert d[..|d| - 1] == Disowned(rules[..n], ids) && d[|d| - 1] == rules[n];
      } else {
        assert d == Disowned(rules[..n], ids);
      }
    }
  }

  lemma {:induction false} DisownedNothing(rules: seq<Rule>)
    ensures Disowned(rules, {}) == rules
  {
    if rules != [] {
      var n := |rules| - 1;
      DisownedNothing(rules[..n]);
      assert rules == rules[..n] + [rules[n]];
    }
  }

  /** Nothing of a disowned container's rules is left, and everybody else keeps
      theirs, in order. */
  lemma {:induction false} DisownedKeeps(rules: seq<Rule>, ids: set<string>, id: string)
    ensures Bodies(Disowned(rules, ids), id) == if id in ids then [] else Bodies(rules, id)
  {
    if rules != [] {
      var n := |rules| - 1;
      DisownedKeeps(rules[..n], ids, id);
      var d := Disowned(rules, ids);
      if rules[n].owner !in ids {
        assert d[..|d| - 1] == Disowned(rules[..n], ids) && d[|d| - 1] == rules[n];
      } else {
        assert d == Disowned(rules[..n], ids);
      }
    }
  }

  // -------------------------------------------------------------------------
  // What that achieves
  // -------------------------------------------------------------------------

  /** After gc every record tells the truth, every lease and interface of ours and
      every empty cgroup belongs to a live container, and a container found dead has
      no rules left. */
  lemma CollectedIsTruthful(f: Fleet, now: nat, veth: Naming)
    ensures
      var g := Collected(f, now, veth);
      && (forall id :: id in g.records && IsLive(g.records[id].status) ==> id in g.alive)
      && (forall l :: l in g.leases.entries ==> l.id in g.records && IsLive(g.records[l.id].status))
      && (forall l :: l in g.links && IsOurs(l) ==>
            exists id :: id in g.records && IsLive(g.records[id].status) && l == veth(id))
      && (forall id :: id in g.cgroups && !g.cgroups[id] ==> id in g.records && IsLive(g.records[id].status))
      && (forall id :: id in Lost(f) ==> Bodies(g.rules, id) == [])
  {
    var g := Collected(f, now, veth);
    assert forall id :: id in Live(f) ==> id in g.records && IsLive(g.records[id].status);
    forall l | l in g.links && IsOurs(l)
      ensures exists id :: id in g.records && IsLive(g.records[id].status) && l == veth(id)
    {
      var id :| id in Live(f) && veth(id) == l;
      assert id in g.records && IsLive(g.records[id].status);
    }
    forall id | id in Lost(f) ensures Bodies(g.rules, id) == [] {
      DisownedKeeps(f.rules, Lost(f) * f.records.Keys, id);
    }
  }

  /** Live containers keep all they have, nobody's record is touched but those of
      the lost, and nothing appears. */
  lemma CollectedKeepsTheLiving(f: Fleet, now: nat, veth: Naming, id: string)
    requires Distinct(f.records.Keys, veth)
    ensures
      var g := Collected(f, now, veth);
      && g.records.Keys == f.records.Keys && g.alive == f.alive
      && (id in f.records && id !in Lost(f) ==> g.records[id] == f.records[id])
      && (id in Lost(f) ==> g.records[id] == ForceStopped(f.records[id], now))
      && (id in Live(f) ==>
            && Ipam.Holder(g.leases.entries, id) == Ipam.Holder(f.leases.entries, id)
            && (id in g.cgroups <==> id in f.cgroups)
            && (veth(id) in g.links <==> veth(id) in f.links))
      && (id !in Lost(f) ==> Bodies(g.rules, id) == Bodies(f.rules, id))
      && (forall l :: l in g.leases.entries ==> l in f.leases.entries) && g.links <= f.links
      && (forall l :: l in f.links && !IsOurs(l) && l !in Names(Lost(f), veth) ==> l in g.links)
  {
    var lost := Lost(f) * f.records.Keys;
    DisownedKeeps(f.rules, lost, id);
    if id in Live(f) {
      var entries := f.leases.entries;
      KeepKeepsHolder(entries, (e: Ipam.Lease) => e.id !in lost, id);
      KeepKeepsHolder(LeasesBut(f.leases, lost).entries, (e: Ipam.Lease) => e.id in Live(f), id);
    }
  }

  lemma CollectedIsTidy(f: Fleet, now: nat, veth: Naming)
    ensures Tidy(Collected(f, now, veth), veth)
  {
    var g := Collected(f, now, veth);
    assert Live(g) == Live(f);
    assert Lost(g) == {};
  }

  lemma TidyIsLeftAlone(f: Fleet, now: nat, veth: Naming)
    requires Tidy(f, veth)
    ensures Collected(f, now, veth) == f
  {
    var none: set<string> := Lost(f) * f.records.Keys;
    assert none == {};
    NothingSwept(f, now, veth);
    assert Swept(f, f.records.Keys, now, veth) == Swept(f, {}, now, veth);
    KeepEverything(f.leases.entries, (e: Ipam.Lease) => e.id in Live(f));
    var g := Collected(f, now, veth);
    assert g.cgroups == f.cgroups;
    assert g.links == f.links;
  }

  /** A second gc finds nothing to do. */
  lemma CollectingTwiceIsOnce(f: Fleet, now: nat, later: nat, veth: Naming)
    ensures
      var g := Collected(f, now, veth);
      Tidy(g, veth) && Collected(g, later, veth) == g
  {
    CollectedIsTidy(f, now, veth);
    TidyIsLeftAlone(Collected(f, now, veth), later, veth);
  }

  /** gc leaves a host as it is, and so has nothing to report, exactly if it is tidy. */
  lemma TidyIsUnchanged(f: Fleet, now: nat, veth: Naming)
    ensures Tidy(f, veth) <==> Collected(f, now, veth) == f
  {
    if Tidy(f, veth) {
      TidyIsLeftAlone(f, now, veth);
    }
    if Collected(f, now, veth) == f {
      CollectedIsTidy(f, now, veth);
    }
  }

  // -------------------------------------------------------------------------
  // Sweeping one after the other
  // -------------------------------------------------------------------------

  lemma NothingSwept(f: Fleet, now: nat, veth: Naming)
    ensures Swept(f, {}, now, veth) == f
  {
    var none: set<string> := {};
    assert Lost(f) * none == none;
    assert Names(none, veth) == {};
    assert Swept(f, none, now, veth).records == f.records;
    DisownedNothing(f.rules);
    KeepEverything(f.leases.entries, (e: Ipam.Lease) => e.id !in none);
  }

  lemma SweptLost(f: Fleet, seen: set<string>, id: string, now: nat, veth: Naming)
    requires id in f.records
    ensures
      var g := Swept(f, seen, now, veth);
      && Lost(g) * {id} == (Lost(f) - seen) * {id}
      && (Lost(f) * seen) + (Lost(g) * {id}) == Lost(f) * (seen + {id})
      && (id in Lost(g) <==> id in Lost(f) && id !in seen)
      && id in g.records
  {
  }

  /** Sweeping one more container. */
  lemma SweptSees(f: Fleet, seen: set<string>, id: string, now: nat, veth: Naming)
    requires id in f.records
    ensures Swept(Swept(f, seen, now, veth), {id}, now, veth) == Swept(f, seen + {id}, now, veth)
  {
    var g := Swept(f, seen, now, veth);
    var both, h := Swept(f, seen + {id}, now, veth), Swept(g, {id}, now, veth);
    SweptLost(f, seen, id, now, veth);
    var a, b := Lost(f) * seen, Lost(g) * {id};
    assert h.records == both.records;
    assert h.cgroups == both.cgroups;
    assert h.links == both.links by { assert Names(a + b, veth) == Names(a, veth) + Names(b, veth); }
    KeepTwice(f.leases.entries, (e: Ipam.Lease) => e.id !in a, (e: Ipam.Lease) => e.id !in b,
      (e: Ipam.Lease) => e.id !in a + b);
    if id in Lost(g) {
      assert b == {id};
      DisownedMore(f.rules, a, id);
      DisownedMore(g.rules, {}, id);
      DisownedNothing(g.rules);
      assert {} + {id} == b;
    } else {
      assert b == {} && a + b == a;
      DisownedNothing(g.rules);
    }
    assert h.rules == both.rules;
  }

  /** Sweeping a single container that is lost: it is torn down. */
  lemma SweptOne(f: Fleet, id: string, now: nat, veth: Naming)
    requires id in f.records && id in Lost(f)
    ensures
      var g := Swept(f, {id}, now, veth);
      && g.records == f.records[id := ForceStopped(f.records[id], now)] && g.cgroups == f.cgroups - {id}
      && g.leases == Ipam.Leases(f.leases.subnet, Ipam.Without(f.leases.entries, id)) && g.rules == Foreign(f.rules, id)
      && g.links == f.links - {veth(id)}
      && g.alive == f.alive && g.bridge == f.bridge && g.baseRules == f.baseRules
  {
    hide LeasesBut, Disowned, Names;
    assert Lost(f) * {id} == {id};
    DisownedOne(f.rules, id);
    LeasesButOne(f.leases, id);
    NamesOne(id, veth);
  }

  /** ... and one that is not: nothing happens. */
  lemma SweptNone(f: Fleet, id: string, now: nat, veth: Naming)
    requires id !in Lost(f)
    ensures Swept(f, {id}, now, veth) == f
  {
    hide LeasesBut, Disowned, Names;
    assert Lost(f) * {id} == {} == Lost(f) * {};
    NothingSwept(f, now, veth);
  }

  lemma NamesOne(id: string, veth: Naming)
    ensures Names({id}, veth) == {veth(id)}
  {
  }

  lemma DisownedOne(rules: seq<Rule>, id: string)
    ensures Disowned(rules, {id}) == Foreign(rules, id)
  {
    assert {} + {id} == {id};
    DisownedMore(rules, {}, id);
    DisownedNothing(rules);
  }

  lemma LeasesButOne(l: Ipam.Leases, id: string)
    ensures LeasesBut(l, {id}) == Ipam.Leases(l.subnet, Ipam.Without(l.entries, id))
  {
    var ids := {id};
    KeepEverything(l.entries, (e: Ipam.Lease) => true);
    KeepTwice(l.entries, (e: Ipam.Lease) => true, (e: Ipam.Lease) => e.id != id, (e: Ipam.Lease) => e.id !in ids);
  }

  lemma SweptStatus(f: Fleet, seen: set<string>, id: string, now: nat, veth: Naming)
    requires id in f.records && id in seen
    ensures
      var g := Swept(f, seen, now, veth);
      id in g.records && (IsLive(g.records[id].status) <==> id in Live(f))
  {
  }

  lemma LostAreStored(f: Fleet)
    ensures Lost(f) <= f.records.Keys && Live(f) <= f.records.Keys
  {
  }

  lemma SweptKeys(f: Fleet, seen: set<string>, now: nat, veth: Naming)
    ensures Swept(f, seen, now, veth).records.Keys == f.records.Keys
  {
  }

  // -------------------------------------------------------------------------
  // gc as it runs
  // -------------------------------------------------------------------------

  datatype Finding =
    | MarkedStopped(id: string) | RemovedCgroups(n: nat) | ReleasedLeases(n: nat)
    | DeletedLink(name: string) | RemovedBridge | RemovedRules(n: nat)

  class Host {
    var records: map<string, Record>
    var alive: set<string>
    var cgroups: map<string, bool>
    var leases: Ipam.Leases
    var rules: seq<Rule>
    var links: set<string>
    var bridge: bool
    var baseRules: nat

    function View(): Fleet
      reads this
    {
      Fleet(records, alive, cgroups, leases, rules, links, bridge, baseRules)
    }

    /** `reconcile`, and `teardown` of a container found dead. */
    method Sweep(id: string, now: nat, veth: Naming) returns (corrected: bool)
      requires id in records
      modifies this
      ensures corrected <==> id in Lost(old(View()))
      ensures View() == Swept(old(View()), {id}, now, veth)
    {
      hide Swept;
      var r := records[id];
      corrected := IsLive(r.status) && id !in alive;
      if corrected {
        SweptOne(View(), id, now, veth);
        records := records[id := r.(status := Stopped, finishedAt := if r.finishedAt == 0 then now else r.finishedAt)];
        cgroups := cgroups - {id};
        rules := Foreign(rules, id);
        links := links - {veth(id)};
        leases := Ipam.Leases(leases.subnet, Ipam.Without(leases.entries, id));
      } else {
        SweptNone(View(), id, now, veth);
      }
    }

    /** The first loop: every stored container is reconciled. */
    method SweepAll(listing: seq<string>, now: nat, veth: Naming) returns (live: seq<string>, report: seq<Finding>)
      requires forall id :: id in listing <==> id in records
      modifies this
      ensures View() == Swept(old(View()), old(records).Keys, now, veth)
      ensures forall id :: id in live <==> id in Live(old(View()))
      ensures report == [] <==> Lost(old(View())) == {}
    {
      hide Swept, Live, Lost;
      live, report := [], [];
      ghost var f := View();
      ghost var seen: set<string> := {};
      NothingSwept(f, now, veth);
      for k := 0 to |listing|
        invariant forall id :: id in seen <==> id in listing[..k]
        invariant View() == Swept(f, seen, now, veth)
        invariant forall id :: id in live <==> id in Live(f) && id in seen
        invariant report == [] <==> Lost(f) * seen == {}
      {
        var id := listing[k];
        assert id in listing;
        SweptKeys(f, seen, now, veth);
        SweptLost(f, seen, id, now, veth);
        SweptSees(f, seen, id, now, veth);
        SweptStatus(f, seen + {id}, id, now, veth);
        var corrected := Sweep(id, now, veth);
        if corrected {
          report := report + [MarkedStopped(id)];
        }
        if IsLive(records[id].status) {
          live := live + [id];
        }
        seen := seen + {id};
      }
      assert seen == f.records.Keys;
      assert Lost(f) * seen == Lost(f) by { LostAreStored(f); }
      LostAreStored(f);
    }

    /** `gc_empty`: one directory after the other; those of live containers and those
        with processes are passed over. */
    method CollectCgroups(live: set<string>) returns (n: nat)
      modifies this`cgroups
      ensures cgroups == map id | id in old(cgroups) && (id in live || old(cgroups)[id]) :: old(cgroups)[id]
      ensures n == 0 <==> cgroups == old(cgroups)
    {
      n := 0;
      ghost var before := cgroups;
      var todo := cgroups.Keys;
      while todo != {}
        invariant todo <= before.Keys && cgroups.Keys <= before.Keys
        invariant forall id :: id in cgroups <==> id in before && (id in todo || id in live || before[id])
        invariant forall id :: id in cgroups ==> cgroups[id] == before[id]
        invariant n == 0 <==> cgroups == before
        decreases todo
      {
        var id :| id in todo;
        todo := todo - {id};
        if id !in live && !cgroups[id] {
          assert id in before;
          cgroups := cgroups - {id};
          assert id !in cgroups;
          n := n + 1;
        }
      }
    }

    /** `ipam::gc`. */
    method CollectLeases(live: seq<string>) returns (n: nat)
      modifies this`leases
      ensures Ipam.Collects(old(leases), live, n, leases)
      ensures n == 0 <==> leases == old(leases)
    {
      var kept := Ipam.Keep(leases.entries, (e: Ipam.Lease) => e.id in live);
      Ipam.KeepAll(leases.entries, (e: Ipam.Lease) => e.id in live);
      n := |leases.entries| - |kept|;
      if n > 0 {
        leases := Ipam.Leases(leases.subnet, kept);
      }
    }

    /** One interface after the other, each with its line in the report. */
    method CollectLinks(live: set<string>, veth: Naming) returns (report: seq<Finding>)
      modifies this`links
      ensures links == old(links) - Orphans(old(links), live, veth)
      ensures report == [] <==> links == old(links)
    {
      report := [];
      var orphans := Orphans(links, live, veth);
      ghost var all := orphans;
      while orphans != {}
        invariant orphans <= all
        invariant links == old(links) - (all - orphans)
        invariant report == [] <==> orphans == all
        decreases orphans
      {
        var v :| v in orphans;
        links := links - {v};
        orphans := orphans - {v};
        report := report + [DeletedLink(v)];
      }
      assert links == old(links) - all;
      assert all != {} ==> exists l :: l in all && l in old(links);
    }

    /** The bridge and the shared rules go when nobody lives and no interface of
        ours is left. */
    method CollectShared(live: set<string>) returns (report: seq<Finding>)
      modifies this`bridge, this`baseRules
      ensures bridge == (old(bridge) && (live != {} || exists l :: l in links && IsOurs(l)))
      ensures baseRules == if live == {} then 0 else old(baseRules)
      ensures report == [] <==> bridge == old(bridge) && baseRules == old(baseRules)
    {
      report := [];
      if live == {} {
        if bridge && !(exists l :: l in links && IsOurs(l)) {
          bridge := false;
          report := report + [RemovedBridge];
        }
        if baseRules > 0 {
          report := report + [RemovedRules(baseRules)];
          baseRules := 0;
        }
      }
    }

    method Trim(live: seq<string>, ghost ids: set<string>, veth: Naming) returns (report: seq<Finding>)
      requires forall id :: id in live <==> id in ids
      modifies this
      ensures View() == Trimmed(old(View()), ids, veth)
      ensures report == [] <==> View() == old(View())
    {
      report := [];
      var liveSet := set id | id in live;
      assert liveSet == ids;
      var n := CollectCgroups(liveSet);
      if n > 0 { report := report + [RemovedCgroups(n)]; }
      var m := CollectLeases(live);
      SameLeases(old(leases), live, ids);
      if m > 0 { report := report + [ReleasedLeases(m)]; }
      var gone := CollectLinks(liveSet, veth);
      var shared := CollectShared(liveSet);
      report := report + gone + shared;
    }

    method Collect(listing: seq<string>, now: nat, veth: Naming) returns (report: seq<Finding>)
      requires forall id :: id in listing <==> id in records
      modifies this
      ensures View() == Collected(old(View()), now, veth)
      ensures report == [] <==> View() == old(View())
    {
      hide Trimmed;
      ghost var f := View();
      var live, stopped := SweepAll(listing, now, veth);
      var rest := Trim(live, Live(f), veth);
      report := stopped + rest;
      if stopped == [] {
        assert Lost(f) * f.records.Keys == {};
        NothingSwept(f, now, veth);
        assert Swept(f, f.records.Keys, now, veth) == Swept(f, {}, now, veth);
      } else {
        LostAreChanged(f, now, veth);
      }
    }
  }

  lemma SameLeases(l: Ipam.Leases, live: seq<string>, ids: set<string>)
    requires forall id :: id in live <==> id in ids
    ensures Ipam.Keep(l.entries, (e: Ipam.Lease) => e.id in live) == LeasesOf(l, ids).entries
  {
    KeepEverything(l.entries, (e: Ipam.Lease) => true);
    KeepTwice(l.entries, (e: Ipam.Lease) => true, (e: Ipam.Lease) => e.id in live, (e: Ipam.Lease) => e.id in ids);
  }

  lemma LostAreChanged(f: Fleet, now: nat, veth: Naming)
    requires Lost(f) != {}
    ensures Collected(f, now, veth) != f
  {
    var id :| id in Lost(f);
    assert Collected(f, now, veth).records[id].status.Stopped?;
  }
}
