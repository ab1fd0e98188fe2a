/**
 From rules to processes: after any run of the controller, lost pushes included, what an agent that starts
 the servers of its store brings up.
 */
module Serving {
  import opened TrafficElements
  import opened ConnectedState
  import opened RuleCompiler
  import opened Deployment
  import opened ServerLifecycle
  import opened ServerOperations
  import opened ServerAgent
  import DC = DataCenterDeployment

  function NameOf(p: Protocol): string {
    match p
    case TCP => "TCP"
    case UDP => "UDP"
    case HTTP => "HTTP"
  }

  /** The slot a deployed server is started in. */
  function SlotKey(s: Server): ServerKey { ServerKey(s.port, NameOf(s.protocol)) }

  /** What get_servers answers from a store, in whatever order. */
  ghost predicate ReadFrom(config: map<Endpoint, seq<ServerKey>>, st: Store) {
    && config.Keys == st.Keys
    && forall a, k :: a in config ==> (k in config[a] <==> exists s :: s in st[a].servers && SlotKey(s) == k)
  }

  /** Some rule the host knows of asks for the server. */
  ghost predicate AskedFor(rules: seq<Rule>, h: Endpoint, k: ServerKey) {
    exists r :: r in rules && r.dst == h && SlotKey(Server(r.protocol, r.port)) == k
  }

  /** Every demand is for what the configuration lists at the manager's address. */
  ghost predicate DrawnFrom(plan: seq<Demand>, config: map<Endpoint, seq<ServerKey>>) {
    forall i :: 0 <= i < |plan| ==> plan[i].manager.src in config && plan[i].servers == config[plan[i].manager.src]
  }

  lemma ReadIsSupported(config: map<Endpoint, seq<ServerKey>>, st: Store, plan: seq<Demand>)
    requires ReadFrom(config, st) && DrawnFrom(plan, config)
    ensures PlanSupported(plan)
  {
    forall i, j | 0 <= i < |plan| && 0 <= j < |plan[i].servers| ensures Supported(plan[i].servers[j].protocol) {
      var k := plan[i].servers[j];
      assert k in config[plan[i].manager.src];
    }
  }

  lemma ReadMeans(calls: seq<Call>, h: Endpoint, config: map<Endpoint, seq<ServerKey>>, a: Endpoint, k: ServerKey)
    requires ValidRun(calls) && ReadFrom(config, StoreAt(Run(calls).fleet, h)) && a in config
    ensures a == h && (k in config[a] <==> AskedFor(Known(calls, h), h, k))
  {
    var st := StoreAt(Run(calls).fleet, h);
    RunConsistent(calls);
    assert OwnStore(Run(calls).recs, h, st);
    if k in config[a] {
      var s :| s in st[a].servers && SlotKey(s) == k;
      RowServers(calls, h, s);
    }
    if AskedFor(Known(calls, h), h, k) {
      var r :| r in Known(calls, h) && r.dst == h && SlotKey(Server(r.protocol, r.port)) == k;
      RowServers(calls, h, Server(r.protocol, r.port));
    }
  }

  /** After any run of the controller and a start over a plan drawn from the host's store: the slots filled
      are exactly the free ones some rule the host knows of asks for, at the managers of the plan. */
  lemma StartedFromRules(calls: seq<Call>, h: Endpoint, config: map<Endpoint, seq<ServerKey>>,
                         w: World, rootMode: bool, plan: seq<Demand>, mk: ManagerKey, k: ServerKey)
    requires ValidRun(calls) && ReadFrom(config, StoreAt(Run(calls).fleet, h))
    requires NoLeak(w) && DrawnFrom(plan, config)
    ensures SlotOf(StartAll(w, rootMode, plan), mk, k)
            == if (exists i :: 0 <= i < |plan| && plan[i].manager == mk) && AskedFor(Known(calls, h), h, k)
                  && Free(SlotOf(w, mk, k))
               then Filled(Running) else SlotOf(w, mk, k)
  {
    ReadIsSupported(config, StoreAt(Run(calls).fleet, h), plan);
    StartAllSlots(w, rootMode, plan, mk, k);
    if i :| 0 <= i < |plan| && plan[i].manager == mk {
      assert k in plan[i].servers <==> k in config[mk.src];
      ReadMeans(calls, h, config, mk.src, k);
    }
  }

  lemma NamespacePlan(namespaces: seq<string>, ifaces: map<string, seq<Interface>>, valid: set<Endpoint>,
                      config: map<Endpoint, seq<ServerKey>>, namespace: string, x: Interface)
    requires forall n :: n in namespaces ==> n in ifaces
    requires namespace in namespaces && x in ifaces[namespace] && Contains(x.name, "eth") && x.address in valid
    ensures DrawnFrom(Plan(namespaces, ifaces, valid, config), config)
    ensures x.address in config && config[x.address] != [] ==>
              exists i :: 0 <= i < |Plan(namespaces, ifaces, valid, config)| &&
                          Plan(namespaces, ifaces, valid, config)[i].manager == ManagerKey(namespace, x.address)
  {
    var plan := Plan(namespaces, ifaces, valid, config);
    forall i | 0 <= i < |plan| ensures plan[i].manager.src in config && plan[i].servers == config[plan[i].manager.src] {
      PlanMembers(namespaces, ifaces, valid, config, plan[i]);
    }
    if x.address in config && config[x.address] != [] {
      var d := Demand(ManagerKey(namespace, x.address), config[x.address]);
      PlanMembers(namespaces, ifaces, valid, config, d);
      var i :| 0 <= i < |plan| && plan[i] == d;
      assert plan[i].manager == d.manager;
    }
  }

  /** A server some rule asks for at the host serves after start_servers of the namespace agent exactly if
      its slot was not still shutting down. */
  lemma KnownServerServesIff(calls: seq<Call>, h: Endpoint, r: Rule, config: map<Endpoint, seq<ServerKey>>, w: World,
                             namespaces: seq<string>, ifaces: map<string, seq<Interface>>, valid: set<Endpoint>,
                             namespace: string, x: Interface)
    requires ValidRun(calls) && r in Known(calls, h) && r.dst == h
    requires ReadFrom(config, StoreAt(Run(calls).fleet, h)) && NoLeak(w)
    requires forall n :: n in namespaces ==> n in ifaces
    requires namespace in namespaces && x in ifaces[namespace] && Contains(x.name, "eth")
    requires x.address == h && h in valid
    ensures var mk := ManagerKey(namespace, h);
            var name := if r.protocol == TCP then "TCP" else if r.protocol == UDP then "UDP" else "HTTP";
            var k := ServerKey(r.port, name);
            Serving(StartAll(w, false, Plan(namespaces, ifaces, valid, config)), mk, k)
            <==> SlotOf(w, mk, k) != Filled(Terminating)
  {
    var mk, k := ManagerKey(namespace, h), SlotKey(Server(r.protocol, r.port));
    RowServers(calls, h, Server(r.protocol, r.port));
    assert h in config;
    ReadMeans(calls, h, config, h, k);
    NamespacePlan(namespaces, ifaces, valid, config, namespace, x);
    StartedFromRules(calls, h, config, w, false, Plan(namespaces, ifaces, valid, config), mk, k);
  }

  /** After a complete register call and the start of the servers, each rule of each call has its server
      serving at its destination, up to slots still shutting down. */
  lemma RuleServesIff(calls: seq<Call>, c: Call, r: Rule, config: map<Endpoint, seq<ServerKey>>, w: World,
                      namespaces: seq<string>, ifaces: map<string, seq<Interface>>, valid: set<Endpoint>,
                      namespace: string, x: Interface)
    requires ValidRun(calls) && Complete(Run(calls), c) && c.kind.RegisterCall? && r in AllRules(calls) + c.rules
    requires ReadFrom(config, StoreAt(Step(Run(calls), c).fleet, r.dst)) && NoLeak(w)
    requires forall n :: n in namespaces ==> n in ifaces
    requires namespace in namespaces && x in ifaces[namespace] && Contains(x.name, "eth")
    requires x.address == r.dst && r.dst in valid
    ensures var mk := ManagerKey(namespace, r.dst);
            var name := if r.protocol == TCP then "TCP" else if r.protocol == UDP then "UDP" else "HTTP";
            var k := ServerKey(r.port, name);
            Serving(StartAll(w, false, Plan(namespaces, ifaces, valid, config)), mk, k)
            <==> SlotOf(w, mk, k) != Filled(Terminating)
  {
    assert (calls + [c])[..|calls|] == calls;
    CompleteKnows(calls, c, r);
    KnownServerServesIff(calls + [c], r.dst, r, config, w, namespaces, ifaces, valid, namespace, x);
  }

  lemma CompleteKnows(calls: seq<Call>, c: Call, r: Rule)
    requires ValidRun(calls) && Complete(Run(calls), c) && c.kind.RegisterCall? && r in AllRules(calls) + c.rules
    ensures ValidRun(calls + [c]) && Run(calls + [c]) == Step(Run(calls), c)
    ensures r in Known(calls + [c], r.dst)
  {
    assert (calls + [c])[..|calls|] == calls;
    RunConsistent(calls);
    CompileConcat(map[], AllRules(calls), c.rules);
    RecordOf(AllRules(calls) + c.rules, r.dst);
    assert Mentions(r, r.dst);
  }

  // ----- under the data-center controller -----

  /** On a host of the data-center controller every row is that of an interface the host carries. */
  lemma InterfaceReadMeans(workloads: map<Endpoint, string>, calls: seq<DC.Call>, h: Endpoint,
                           config: map<Endpoint, seq<ServerKey>>, v: Endpoint, k: ServerKey)
    requires DC.ValidRun(workloads, calls) && v in config
    requires ReadFrom(config, StoreAt(DC.Run(workloads, calls).fleet, h))
    ensures DC.HostOf(workloads, v) == h
    ensures k in config[v] <==> AskedFor(DC.Known(workloads, calls, v), v, k)
  {
    var st, known := StoreAt(DC.Run(workloads, calls).fleet, h), DC.Known(workloads, calls, v);
    DC.RunConsistent(workloads, calls);
    assert DC.HostStore(workloads, DC.Run(workloads, calls).recs, h, st);
    DC.RowAfterRun(workloads, calls, v);
    assert At(st, v) == st[v];
    if k in config[v] {
      var s :| s in st[v].servers && SlotKey(s) == k;
      DeployedServers(known, v, s);
    }
    if AskedFor(known, v, k) {
      var r :| r in known && r.dst == v && SlotKey(Server(r.protocol, r.port)) == k;
      DeployedServers(known, v, Server(r.protocol, r.port));
    }
  }

  /** After any run of the data-center controller: a start over a plan drawn from a host's store fills exactly
      the free slots some rule the interface's row goes back to asks for. */
  lemma InterfacesStartedFromRules(workloads: map<Endpoint, string>, calls: seq<DC.Call>, h: Endpoint,
                                   config: map<Endpoint, seq<ServerKey>>, w: World, rootMode: bool,
                                   plan: seq<Demand>, mk: ManagerKey, k: ServerKey)
    requires DC.ValidRun(workloads, calls) && ReadFrom(config, StoreAt(DC.Run(workloads, calls).fleet, h))
    requires NoLeak(w) && DrawnFrom(plan, config)
    ensures SlotOf(StartAll(w, rootMode, plan), mk, k)
            == if (exists i :: 0 <= i < |plan| && plan[i].manager == mk)
                  && AskedFor(DC.Known(workloads, calls, mk.src), mk.src, k) && Free(SlotOf(w, mk, k))
               then Filled(Running) else SlotOf(w, mk, k)
  {
    ReadIsSupported(config, StoreAt(DC.Run(workloads, calls).fleet, h), plan);
    StartAllSlots(w, rootMode, plan, mk, k);
    if i :| 0 <= i < |plan| && plan[i].manager == mk {
      assert k in plan[i].servers <==> k in config[mk.src];
      InterfaceReadMeans(workloads, calls, h, config, mk.src, k);
    }
  }

  /** After a call that reached every host and the start of the namespace agent on the destination's host,
      each rule of each call has its server serving at its interface, up to slots still shutting down. */
  lemma InterfaceRuleServesIff(workloads: map<Endpoint, string>, calls: seq<DC.Call>, c: DC.Call, r: Rule,
                               config: map<Endpoint, seq<ServerKey>>, w: World, namespaces: seq<string>,
                               ifaces: map<string, seq<Interface>>, valid: set<Endpoint>,
                               namespace: string, x: Interface)
    requires DC.ValidRun(workloads, calls) && DC.Complete(workloads, DC.Run(workloads, calls), c)
    requires r in DC.AllRules(calls) + c.rules
    requires var f := DC.Step(workloads, DC.Run(workloads, calls), c).fleet;
             ReadFrom(config, StoreAt(f, DC.HostOf(workloads, r.dst)))
    requires NoLeak(w) && forall n :: n in namespaces ==> n in ifaces
    requires namespace in namespaces && x in ifaces[namespace] && Contains(x.name, "eth")
    requires x.address == r.dst && r.dst in valid
    ensures var mk := ManagerKey(namespace, r.dst);
            var name := if r.protocol == TCP then "TCP" else if r.protocol == UDP then "UDP" else "HTTP";
            var k := ServerKey(r.port, name);
            Serving(StartAll(w, false, Plan(namespaces, ifaces, valid, config)), mk, k)
            <==> SlotOf(w, mk, k) != Filled(Terminating)
  {
    var h, k := DC.HostOf(workloads, r.dst), SlotKey(Server(r.protocol, r.port));
    var rules := DC.AllRules(calls) + c.rules;
    var st := StoreAt(DC.Step(workloads, DC.Run(workloads, calls), c).fleet, h);
    DC.RegisterConverges(workloads, calls, c, h, r.dst);
    RuleIsClient(rules, r);
    assert r.dst in st && Server(r.protocol, r.port) in st[r.dst].servers;
    assert r.dst in config && k in config[r.dst];
    NamespacePlan(namespaces, ifaces, valid, config, namespace, x);
    ReadIsSupported(config, st, Plan(namespaces, ifaces, valid, config));
    ConfiguredServersServeIff(w, namespaces, ifaces, valid, config, namespace, x, k);
  }
}
