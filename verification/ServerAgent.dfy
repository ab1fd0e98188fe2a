/** The server agent: which servers its interfaces demand, and the map of managers it drives. */
module ServerAgent {
  import opened TrafficElements
  import opened ServerLifecycle
  import opened ServerOperations
  import opened ServerManagers

  datatype Interface = Interface(name: string, address: Endpoint)

  const INTERFACE_PREFIXES: seq<string> := ["veth", "eth"]

  /** Python's substring test, which is what the "prefix" check does. */
  predicate Contains(name: string, part: string) {
    exists i :: 0 <= i <= |name| && OccursAt(name, part, i)
  }

  predicate OccursAt(name: string, part: string, i: nat) {
    i + |part| <= |name| && name[i..i + |part|] == part
  }

  /** The test holds for the names in which the part occurs, and for no others. */
  lemma ContainsPart(before: string, part: string, after: string)
    ensures Contains(before + part + after, part)
  {
    assert OccursAt(before + part + after, part, |before|);
  }

  lemma ContainsMeans(name: string, part: string) returns (before: string, after: string)
    requires Contains(name, part)
    ensures name == before + part + after
  {
    var i :| 0 <= i <= |name| && OccursAt(name, part, i);
    before, after := name[..i], name[i + |part|..];
  }

  /** The comprehension over interfaces and prefixes: one copy per matching prefix. */
  function Matching(ifaces: seq<Interface>): seq<Interface> {
    if ifaces == [] then []
    else
      (if Contains(ifaces[0].name, INTERFACE_PREFIXES[0]) then [ifaces[0]] else [])
      + (if Contains(ifaces[0].name, INTERFACE_PREFIXES[1]) then [ifaces[0]] else [])
      + Matching(ifaces[1..])
  }

  /** The servers configured at the valid addresses of a namespace's interfaces. */
  function DemandsOf(namespace: string, ifaces: seq<Interface>, valid: set<Endpoint>,
                     config: map<Endpoint, seq<ServerKey>>): seq<Demand> {
    if ifaces == [] then []
    else
      var a := ifaces[0].address;
      (if a in valid && a in config && config[a] != [] then [Demand(ManagerKey(namespace, a), config[a])] else [])
      + DemandsOf(namespace, ifaces[1..], valid, config)
  }

  function Plan(namespaces: seq<string>, ifaces: map<string, seq<Interface>>, valid: set<Endpoint>,
                config: map<Endpoint, seq<ServerKey>>): seq<Demand>
    requires forall n :: n in namespaces ==> n in ifaces
  {
    if namespaces == [] then []
    else
      DemandsOf(namespaces[0], Matching(ifaces[namespaces[0]]), valid, config)
      + Plan(namespaces[1..], ifaces, valid, config)
  }

  lemma VethContainsEth(name: string)
    requires Contains(name, "veth")
    ensures Contains(name, "eth")
  {
    var i :| 0 <= i <= |name| && OccursAt(name, "veth", i);
    assert name[i + 1..i + 4] == name[i..i + 4][1..];
    assert OccursAt(name, "eth", i + 1);
  }

  lemma {:induction false} MatchingMembers(ifaces: seq<Interface>, x: Interface)
    ensures x in Matching(ifaces) <==> x in ifaces && Contains(x.name, "eth")
  {
    if ifaces != [] {
      MatchingMembers(ifaces[1..], x);
      if Contains(ifaces[0].name, "veth") { VethContainsEth(ifaces[0].name); }
      assert ifaces == [ifaces[0]] + ifaces[1..];
    }
  }

  lemma {:induction false} DemandsOfMembers(namespace: string, ifaces: seq<Interface>, valid: set<Endpoint>,
                                            config: map<Endpoint, seq<ServerKey>>, d: Demand)
    ensures d in DemandsOf(namespace, ifaces, valid, config)
            <==> d.manager.namespace == namespace && d.manager.src in valid && d.manager.src in config
                 && d.servers == config[d.manager.src] != []
                 && exists x :: x in ifaces && x.address == d.manager.src
  {
    if ifaces != [] {
      DemandsOfMembers(namespace, ifaces[1..], valid, config, d);
      assert forall x :: x in ifaces <==> x == ifaces[0] || x in ifaces[1..];
    }
  }

  /** What a namespace start call demands: the configured servers of every valid address carried by
      an interface whose name contains "eth". */
  lemma {:induction false} PlanMembers(namespaces: seq<string>, ifaces: map<string, seq<Interface>>,
                                       valid: set<Endpoint>, config: map<Endpoint, seq<ServerKey>>, d: Demand)
    requires forall n :: n in namespaces ==> n in ifaces
    ensures d in Plan(namespaces, ifaces, valid, config)
            <==> d.manager.namespace in namespaces && d.manager.src in valid && d.manager.src in config
                 && d.servers == config[d.manager.src] != []
                 && exists x :: x in ifaces[d.manager.namespace] && Contains(x.name, "eth")
                                && x.address == d.manager.src
  {
    if namespaces != [] {
      PlanMembers(namespaces[1..], ifaces, valid, config, d);
      DemandsOfMembers(namespaces[0], Matching(ifaces[namespaces[0]]), valid, config, d);
      forall x { MatchingMembers(ifaces[namespaces[0]], x); }
      assert forall n :: n in namespaces <==> n == namespaces[0] || n in namespaces[1..];
    }
  }

  /** End to end in namespace mode: after start_servers, a server configured at a valid address of an
      "eth" interface serves exactly when its slot was not held by a process still shutting down. */
  lemma ConfiguredServersServeIff(w: World, namespaces: seq<string>, ifaces: map<string, seq<Interface>>,
                                  valid: set<Endpoint>, config: map<Endpoint, seq<ServerKey>>,
                                  namespace: string, x: Interface, k: ServerKey)
    requires NoLeak(w) && forall n :: n in namespaces ==> n in ifaces
    requires PlanSupported(Plan(namespaces, ifaces, valid, config))
    requires namespace in namespaces && x in ifaces[namespace] && Contains(x.name, "eth")
    requires x.address in valid && x.address in config && k in config[x.address]
    ensures var mk := ManagerKey(namespace, x.address);
            Serving(StartAll(w, false, Plan(namespaces, ifaces, valid, config)), mk, k)
            <==> SlotOf(w, mk, k) != Filled(Terminating)
  {
    var plan := Plan(namespaces, ifaces, valid, config);
    var d := Demand(ManagerKey(namespace, x.address), config[x.address]);
    PlanMembers(namespaces, ifaces, valid, config, d);
    var i :| 0 <= i < |plan| && plan[i] == d;
    assert plan[i].manager == d.manager && k in plan[i].servers;
    StartServesIff(w, false, plan, d.manager, k);
  }

  // ----- the agent object -----

  lemma {:induction false} RaiseEndsList(procs: seq<Process>, m: Manager, owner: ManagerKey, ks: seq<ServerKey>, i: nat)
    requires i <= |ks| && StartedList(procs, m, owner, ks[..i]).raised
    ensures StartedList(procs, m, owner, ks) == StartedList(procs, m, owner, ks[..i])
  {
    if i == |ks| {
      assert ks[..i] == ks;
    } else {
      assert ks[..|ks| - 1][..i] == ks[..i];
      RaiseEndsList(procs, m, owner, ks[..|ks| - 1], i);
    }
  }

  method StartList(m: ServerManager, ks: seq<ServerKey>) returns (raised: bool)
    modifies m, m.table
    ensures Attempt(m.table.procs, m.Now(), raised) == StartedList(old(m.table.procs), old(m.Now()), m.owner, ks)
  {
    ghost var procs, was := m.table.procs, m.Now();
    raised := false;
    for i := 0 to |ks|
      invariant Attempt(m.table.procs, m.Now(), false) == StartedList(procs, was, m.owner, ks[..i])
    {
      assert ks[..i + 1][..i] == ks[..i];
      raised := m.StartServer(ks[i]);
      if raised {
        RaiseEndsList(procs, was, m.owner, ks, i + 1);
        return;
      }
    }
    assert ks[..|ks|] == ks;
  }

  function Attempted(w: World, rootMode: bool, d: Demand): Attempt {
    StartedList(w.procs, ManagerAt(w, d.manager, HomeOf(rootMode, d.manager)), d.manager, d.servers)
  }

  lemma AttemptSucceeds(w: World, rootMode: bool, d: Demand)
    requires AllSupported(d.servers)
    ensures !Attempted(w, rootMode, d).raised
  {
    AllSupportedNeverRaises(w.procs, ManagerAt(w, d.manager, HomeOf(rootMode, d.manager)), d.manager, d.servers);
  }

  class ServerAgent {
    const table: ProcessTable
    const rootMode: bool
    var mngrsMap: map<ManagerKey, ServerManager>

    ghost predicate Valid()
      reads this, mngrsMap.Values
    {
      forall mk :: mk in mngrsMap ==>
        mngrsMap[mk].table == table && mngrsMap[mk].owner == mk && mngrsMap[mk].home == HomeOf(rootMode, mk)
    }

    ghost function Now(): World
      reads this, mngrsMap.Values, table
    {
      World(table.procs, map mk | mk in mngrsMap :: mngrsMap[mk].Now())
    }

    constructor (rootMode: bool)
      ensures Valid() && fresh(table) && Now() == EMPTY_WORLD && this.rootMode == rootMode
    {
      table := new ProcessTable();
      this.rootMode := rootMode;
      mngrsMap := map[];
    }

    /** The manager of the endpoint is in the map and keeps whatever it started. */
    method StartKnown(d: Demand) returns (raised: bool)
      requires Valid() && d.manager in mngrsMap
      modifies mngrsMap[d.manager], table
      ensures Valid() && Now() == StartAt(old(Now()), d.manager, HomeOf(rootMode, d.manager), d.servers)
      ensures raised == Attempted(old(Now()), rootMode, d).raised
    {
      var m := mngrsMap[d.manager];
      raised := StartList(m, d.servers);
      assert Now().managers == old(Now()).managers[d.manager := m.Now()];
    }

    /** A new manager starts the servers before it is in the map. */
    method TryNew(d: Demand) returns (m: ServerManager, raised: bool)
      requires Valid() && d.manager !in mngrsMap
      modifies table
      ensures Valid() && fresh(m) && m.table == table && m.owner == d.manager && m.home == HomeOf(rootMode, d.manager)
      ensures Attempt(table.procs, m.Now(), raised) == Attempted(old(Now()), rootMode, d)
      ensures Now().managers == old(Now()).managers
    {
      m := new ServerManager(table, d.manager, HomeOf(rootMode, d.manager));
      raised := StartList(m, d.servers);
    }

    method EnterManager(m: ServerManager)
      requires Valid() && m.table == table && m.home == HomeOf(rootMode, m.owner)
      modifies this
      ensures Valid() && mngrsMap == old(mngrsMap)[m.owner := m]
      ensures Now() == World(old(Now()).procs, old(Now()).managers[m.owner := m.Now()])
    {
      mngrsMap := mngrsMap[m.owner := m];
    }

    /** It enters the map only if nothing was raised. */
    method StartNew(d: Demand) returns (raised: bool)
      requires Valid() && d.manager !in mngrsMap
      modifies this, table
      ensures Valid() && fresh(mngrsMap.Values - old(mngrsMap.Values))
      ensures Now() == StartAt(old(Now()), d.manager, HomeOf(rootMode, d.manager), d.servers)
      ensures raised == Attempted(old(Now()), rootMode, d).raised
    {
      var m;
      m, raised := TryNew(d);
      if !raised {
        EnterManager(m);
      }
    }

    /** The servers of one endpoint. */
    method StartServersAt(d: Demand) returns (raised: bool)
      requires Valid()
      modifies this, mngrsMap.Values, table
      ensures Valid() && fresh(mngrsMap.Values - old(mngrsMap.Values))
      ensures Now() == StartAt(old(Now()), d.manager, HomeOf(rootMode, d.manager), d.servers)
      ensures raised == Attempted(old(Now()), rootMode, d).raised
    {
      if d.manager in mngrsMap {
        raised := StartKnown(d);
      } else {
        raised := StartNew(d);
      }
    }

    /** start_servers over a plan. An exception ends the call: what came before it in the plan has been
        started, the demand that raised as far as it came, and nothing of the rest. */
    method StartServers(plan: seq<Demand>) returns (raised: bool, ghost n: nat)
      requires Valid()
      modifies this, mngrsMap.Values, table
      ensures Valid() && fresh(mngrsMap.Values - old(mngrsMap.Values))
      ensures PlanSupported(plan) ==> !raised
      ensures !raised ==> Now() == StartAll(old(Now()), rootMode, plan)
      ensures raised ==>
                && n < |plan|
                && Attempted(StartAll(old(Now()), rootMode, plan[..n]), rootMode, plan[n]).raised
                && Now() == StartAll(old(Now()), rootMode, plan[..n + 1])
    {
      raised, n := false, |plan|;
      for i := 0 to |plan|
        invariant Valid() && fresh(mngrsMap.Values - old(mngrsMap.Values))
        invariant Now() == StartAll(old(Now()), rootMode, plan[..i])
      {
        assert plan[..i + 1][..i] == plan[..i];
        ghost var w := Now();
        raised := StartServersAt(plan[i]);
        if raised {
          if AllSupported(plan[i].servers) {
            AttemptSucceeds(w, rootMode, plan[i]);
          }
          n := i;
          return;
        }
      }
      assert plan[..|plan|] == plan;
    }

    method StopServersAt(mk: ManagerKey)
      requires Valid() && mk in mngrsMap
      modifies mngrsMap[mk], table
      ensures Valid() && Now() == StopAllAt(old(Now()), mk)
    {
      mngrsMap[mk].StopAllServers();
    }

    /** stop_servers: every manager of the namespaces given, or of all of them, in arbitrary order. */
    method StopServers(all: bool, namespaces: seq<string>) returns (ghost order: seq<ManagerKey>)
      requires Valid()
      modifies mngrsMap.Values, table
      ensures Valid() && mngrsMap == old(mngrsMap)
      ensures Now() == StopAllIn(old(Now()), order)
      ensures forall mk :: mk in order <==> mk in mngrsMap && (all || mk.namespace in namespaces)
    {
      order := [];
      var todo := set mk | mk in mngrsMap && (all || mk.namespace in namespaces);
      while todo != {}
        invariant Valid() && mngrsMap == old(mngrsMap)
        invariant forall mk :: mk in todo ==> mk in mngrsMap && (all || mk.namespace in namespaces)
        invariant forall mk :: mk in order || mk in todo <==> mk in mngrsMap && (all || mk.namespace in namespaces)
        invariant Now() == StopAllIn(old(Now()), order)
      {
        var mk :| mk in todo;
        StopServersAt(mk);
        todo := todo - {mk};
        assert (order + [mk])[..|order|] == order;
        order := order + [mk];
      }
    }
  }
}
