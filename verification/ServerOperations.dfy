/** What sequences of agent operations achieve: complete starts, complete stops, restarts. */
module ServerOperations {
  import opened TrafficElements
  import opened ServerLifecycle

  /** The state of one (manager, port, protocol) slot. */
  datatype Slot = Vacant | Filled(status: Status)

  function SlotIn(procs: seq<Process>, m: Manager, k: ServerKey): Slot {
    if k in m.entries && m.entries[k] < |procs| then Filled(procs[m.entries[k]].status) else Vacant
  }

  function SlotOf(w: World, mk: ManagerKey, k: ServerKey): Slot {
    if mk in w.managers then SlotIn(w.procs, w.managers[mk], k) else Vacant
  }

  /** A slot a start call fills with a new process. */
  predicate Free(s: Slot) { s.Vacant? || s.status.Dead? }

  predicate Serving(w: World, mk: ManagerKey, k: ServerKey) { SlotOf(w, mk, k) == Filled(Running) }

  /** A slot serves exactly if some process of the manager runs for the key. */
  lemma ServingIff(w: World, mk: ManagerKey, k: ServerKey)
    requires NoLeak(w)
    ensures Serving(w, mk, k)
            <==> exists pid: nat :: pid < |w.procs| && w.procs[pid] == Process(mk, k, Running)
  {
    if Serving(w, mk, k) {
      assert Filed(w.procs, mk, w.managers[mk]);
      assert w.procs[w.managers[mk].entries[k]] == Process(mk, k, Running);
    }
    if pid: nat :| pid < |w.procs| && w.procs[pid] == Process(mk, k, Running) {
      assert Registered(w, pid);
    }
  }

  predicate AllSupported(ks: seq<ServerKey>) { forall i :: 0 <= i < |ks| ==> Supported(ks[i].protocol) }

  lemma {:induction false} StartedSlots(procs: seq<Process>, m: Manager, owner: ManagerKey, ks: seq<ServerKey>,
                                        k: ServerKey)
    requires Filed(procs, owner, m) && AllSupported(ks)
    ensures var a := StartedList(procs, m, owner, ks);
            SlotIn(a.procs, a.manager, k)
            == if k in ks && Free(SlotIn(procs, m, k)) then Filled(Running) else SlotIn(procs, m, k)
  {
    if ks != [] {
      var init, last := ks[..|ks| - 1], ks[|ks| - 1];
      StartedSlots(procs, m, owner, init, k);
      StartedAppends(procs, m, owner, init);
      AllSupportedNeverRaises(procs, m, owner, init);
      assert ks == init + [last];
    }
  }

  /** Starting a list of servers fills exactly the free slots asked for and touches no other slot. */
  lemma StartAtSlots(w: World, mk: ManagerKey, home: string, ks: seq<ServerKey>, o: ManagerKey, k: ServerKey)
    requires NoLeak(w) && AllSupported(ks)
    ensures SlotOf(StartAt(w, mk, home, ks), o, k)
            == if o == mk && k in ks && Free(SlotOf(w, o, k)) then Filled(Running) else SlotOf(w, o, k)
  {
    var m := ManagerAt(w, mk, home);
    AllSupportedNeverRaises(w.procs, m, mk, ks);
    StartedSlots(w.procs, m, mk, ks, k);
    StartedAppends(w.procs, m, mk, ks);
    if o != mk && o in w.managers {
      assert Filed(w.procs, o, w.managers[o]);
    }
  }

  // ----- starting from the configuration -----

  /** One endpoint's servers with the manager they belong to. */
  datatype Demand = Demand(manager: ManagerKey, servers: seq<ServerKey>)

  /** The agent's mode fixes where its managers file their servers. */
  function HomeOf(rootMode: bool, mk: ManagerKey): string { if rootMode then ROOT_NAMESPACE else mk.namespace }

  function StartAll(w: World, rootMode: bool, plan: seq<Demand>): World {
    if plan == [] then w
    else
      var last := plan[|plan| - 1];
      StartAt(StartAll(w, rootMode, plan[..|plan| - 1]), last.manager, HomeOf(rootMode, last.manager), last.servers)
  }

  ghost predicate Demands(plan: seq<Demand>, mk: ManagerKey, k: ServerKey) {
    exists i :: 0 <= i < |plan| && plan[i].manager == mk && k in plan[i].servers
  }

  predicate PlanSupported(plan: seq<Demand>) { forall i :: 0 <= i < |plan| ==> AllSupported(plan[i].servers) }

  lemma {:induction false} StartAllKeepsNoLeak(w: World, rootMode: bool, plan: seq<Demand>)
    requires NoLeak(w) && PlanSupported(plan)
    ensures NoLeak(StartAll(w, rootMode, plan))
  {
    if plan != [] {
      var init, last := plan[..|plan| - 1], plan[|plan| - 1];
      StartAllKeepsNoLeak(w, rootMode, init);
      StartKeepsNoLeakIff(StartAll(w, rootMode, init), last.manager, HomeOf(rootMode, last.manager), last.servers);
    }
  }

  lemma {:induction false} StartAllKeepsManagers(w: World, rootMode: bool, plan: seq<Demand>, mk: ManagerKey)
    requires PlanSupported(plan)
    ensures mk in StartAll(w, rootMode, plan).managers
            <==> mk in w.managers || exists i :: 0 <= i < |plan| && plan[i].manager == mk
  {
    if plan != [] {
      var init, last := plan[..|plan| - 1], plan[|plan| - 1];
      StartAllKeepsManagers(w, rootMode, init, mk);
      var w1 := StartAll(w, rootMode, init);
      var m := ManagerAt(w1, last.manager, HomeOf(rootMode, last.manager));
      AllSupportedNeverRaises(w1.procs, m, last.manager, last.servers);
      if i :| 0 <= i < |init| && init[i].manager == mk { assert plan[i].manager == mk; }
      if i :| 0 <= i < |plan| && plan[i].manager == mk { assert i < |init| ==> init[i].manager == mk; }
    }
  }

  /** A start call fills exactly the demanded slots that were vacant or dead. */
  lemma {:induction false} StartAllSlots(w: World, rootMode: bool, plan: seq<Demand>, mk: ManagerKey, k: ServerKey)
    requires NoLeak(w) && PlanSupported(plan)
    ensures SlotOf(StartAll(w, rootMode, plan), mk, k)
            == if Demands(plan, mk, k) && Free(SlotOf(w, mk, k)) then Filled(Running) else SlotOf(w, mk, k)
  {
    if plan != [] {
      var init, last := plan[..|plan| - 1], plan[|plan| - 1];
      StartAllSlots(w, rootMode, init, mk, k);
      StartAllKeepsNoLeak(w, rootMode, init);
      StartAtSlots(StartAll(w, rootMode, init), last.manager, HomeOf(rootMode, last.manager), last.servers, mk, k);
      DemandsSnoc(plan, mk, k);
    }
  }

  lemma DemandsSnoc(plan: seq<Demand>, mk: ManagerKey, k: ServerKey)
    requires plan != []
    ensures Demands(plan, mk, k)
            <==> Demands(plan[..|plan| - 1], mk, k) || (plan[|plan| - 1].manager == mk && k in plan[|plan| - 1].servers)
  {
    var n := |plan| - 1;
    if Demands(plan[..n], mk, k) {
      var i :| 0 <= i < n && plan[..n][i].manager == mk && k in plan[..n][i].servers;
      assert plan[i].manager == mk && k in plan[i].servers;
    }
    if i :| 0 <= i < |plan| && plan[i].manager == mk && k in plan[i].servers {
      if i < n { assert plan[..n][i] == plan[i]; }
    }
  }

  /** Completeness: after a start call a demanded server is serving exactly when its previous
      process, if any, was not still shutting down. */
  lemma StartServesIff(w: World, rootMode: bool, plan: seq<Demand>, mk: ManagerKey, k: ServerKey)
    requires NoLeak(w) && PlanSupported(plan) && Demands(plan, mk, k)
    ensures Serving(StartAll(w, rootMode, plan), mk, k) <==> SlotOf(w, mk, k) != Filled(Terminating)
  {
    StartAllSlots(w, rootMode, plan, mk, k);
  }

  lemma {:induction false} LiveListStartsNothing(procs: seq<Process>, m: Manager, owner: ManagerKey, ks: seq<ServerKey>)
    requires forall i :: 0 <= i < |ks| ==> !Free(SlotIn(procs, m, ks[i]))
    ensures StartedList(procs, m, owner, ks) == Attempt(procs, m, false)
  {
    if ks != [] {
      LiveListStartsNothing(procs, m, owner, ks[..|ks| - 1]);
      assert !Free(SlotIn(procs, m, ks[|ks| - 1]));
    }
  }

  lemma {:induction false} LivePlanStartsNothing(w: World, rootMode: bool, plan: seq<Demand>)
    requires forall i :: 0 <= i < |plan| ==> plan[i].manager in w.managers
    requires forall mk, k :: Demands(plan, mk, k) ==> !Free(SlotOf(w, mk, k))
    ensures StartAll(w, rootMode, plan) == w
  {
    if plan != [] {
      var n := |plan| - 1;
      var last := plan[n];
      forall mk, k | Demands(plan[..n], mk, k) ensures !Free(SlotOf(w, mk, k)) { DemandsSnoc(plan, mk, k); }
      LivePlanStartsNothing(w, rootMode, plan[..n]);
      forall i | 0 <= i < |last.servers| ensures !Free(SlotIn(w.procs, w.managers[last.manager], last.servers[i])) {
        DemandsSnoc(plan, last.manager, last.servers[i]);
      }
      LiveListStartsNothing(w.procs, w.managers[last.manager], last.manager, last.servers);
    }
  }

  /** Idempotence: as long as no demanded process has died, a second start call changes nothing,
      even when the plan names an interface twice. */
  lemma StartAgainIsNoOp(w: World, rootMode: bool, plan: seq<Demand>)
    requires NoLeak(w) && PlanSupported(plan)
    ensures StartAll(StartAll(w, rootMode, plan), rootMode, plan) == StartAll(w, rootMode, plan)
  {
    var w1 := StartAll(w, rootMode, plan);
    StartAllKeepsNoLeak(w, rootMode, plan);
    forall i | 0 <= i < |plan| ensures plan[i].manager in w1.managers {
      StartAllKeepsManagers(w, rootMode, plan, plan[i].manager);
    }
    forall mk, k | Demands(plan, mk, k) ensures !Free(SlotOf(w1, mk, k)) {
      StartAllSlots(w, rootMode, plan, mk, k);
    }
    LivePlanStartsNothing(w1, rootMode, plan);
  }

  // ----- stopping -----

  lemma StopAllAtEffect(w: World, mk: ManagerKey, pid: nat)
    requires NoLeak(w) && mk in w.managers && pid < |w.procs|
    ensures |StopAllAt(w, mk).procs| == |w.procs|
    ensures StopAllAt(w, mk).procs[pid]
            == if w.procs[pid].status.Running? && w.procs[pid].owner == mk
               then w.procs[pid].(status := Terminating) else w.procs[pid]
  {
    var m := w.managers[mk];
    if w.procs[pid].status.Running? {
      assert Registered(w, pid);
      assert Filed(w.procs, mk, m);
      if w.procs[pid].owner == mk { assert m.entries[w.procs[pid].key] in m.entries.Values; }
    }
  }

  lemma {:induction false} StopAllInKeepsNoLeak(w: World, mks: seq<ManagerKey>)
    requires NoLeak(w)
    ensures NoLeak(StopAllIn(w, mks))
  {
    if mks != [] {
      StopAllInKeepsNoLeak(w, mks[..|mks| - 1]);
      StopAllKeepsNoLeak(StopAllIn(w, mks[..|mks| - 1]), mks[|mks| - 1]);
    }
  }

  lemma {:induction false} StopAllInKeepsManagers(w: World, mks: seq<ManagerKey>)
    ensures StopAllIn(w, mks).managers.Keys == w.managers.Keys
    ensures |StopAllIn(w, mks).procs| == |w.procs|
  {
    if mks != [] { StopAllInKeepsManagers(w, mks[..|mks| - 1]); }
  }

  /** Completeness of stopping: afterwards no process of the managers named is running, and the
      processes of all others are as they were. */
  lemma {:induction false} StopAllStops(w: World, mks: seq<ManagerKey>, pid: nat)
    requires NoLeak(w) && pid < |w.procs| && forall mk :: mk in mks ==> mk in w.managers
    ensures |StopAllIn(w, mks).procs| == |w.procs|
    ensures StopAllIn(w, mks).procs[pid]
            == if w.procs[pid].status.Running? && w.procs[pid].owner in mks
               then w.procs[pid].(status := Terminating) else w.procs[pid]
  {
    StopAllInKeepsManagers(w, mks);
    if mks != [] {
      var init, last := mks[..|mks| - 1], mks[|mks| - 1];
      assert mks == init + [last];
      StopAllStops(w, init, pid);
      StopAllInKeepsNoLeak(w, init);
      StopAllInKeepsManagers(w, init);
      StopAllAtEffect(StopAllIn(w, init), last, pid);
    }
  }

  /** stop_servers of the root agent walks the whole map: nothing keeps running. */
  lemma RootStopLeavesNothing(w: World, mks: seq<ManagerKey>)
    requires NoLeak(w) && forall mk :: mk in mks <==> mk in w.managers
    ensures forall pid :: 0 <= pid < |StopAllIn(w, mks).procs| ==> !StopAllIn(w, mks).procs[pid].status.Running?
  {
    StopAllInKeepsManagers(w, mks);
    forall pid: nat | pid < |w.procs| ensures !StopAllIn(w, mks).procs[pid].status.Running? {
      StopAllStops(w, mks, pid);
      if w.procs[pid].status.Running? { assert Registered(w, pid); }
    }
  }

  /** Stop everything of a manager and start it again at once. A root manager always serves again; a
      namespace manager keeps the entry of a process it just told to stop, takes it for a running
      server, and starts nothing in its place. */
  lemma RestartServesIff(w: World, rootMode: bool, mk: ManagerKey, ks: seq<ServerKey>, k: ServerKey)
    requires NoLeak(w) && AllSupported(ks) && k in ks
    requires mk in w.managers ==> w.managers[mk].home == HomeOf(rootMode, mk)
    ensures Serving(StartAt(StopAllAt(w, mk), mk, HomeOf(rootMode, mk), ks), mk, k)
            <==> rootMode || mk.namespace == "localhost" || Free(SlotOf(w, mk, k))
  {
    var w1 := StopAllAt(w, mk);
    StopAllKeepsNoLeak(w, mk);
    StartAtSlots(w1, mk, HomeOf(rootMode, mk), ks, mk, k);
    if mk in w.managers && k in w.managers[mk].entries {
      assert Filed(w.procs, mk, w.managers[mk]);
      var pid := w.managers[mk].entries[k];
      assert pid in w.managers[mk].entries.Values;
    }
  }

  /** Stopping one server: a live one is told to stop and its slot is vacated; a dead one's slot is
      vacated in a root manager only; no other slot changes what it shows. */
  lemma StopServerEffect(w: World, mk: ManagerKey, k: ServerKey, o: ManagerKey, j: ServerKey)
    requires NoLeak(w) && mk in w.managers
    ensures var w' := StopAt(w, mk, k);
            && (SlotOf(w, mk, k).Filled? && !SlotOf(w, mk, k).status.Dead? ==>
                  SlotOf(w', mk, k).Vacant? && w'.procs[w.managers[mk].entries[k]].status.Terminating?)
            && (SlotOf(w, mk, k) == Filled(Dead) ==>
                  SlotOf(w', mk, k) == if w.managers[mk].home == ROOT_NAMESPACE then Vacant else Filled(Dead))
            && ((o, j) != (mk, k) ==> SlotOf(w', o, j) == SlotOf(w, o, j))
  {
    assert Filed(w.procs, mk, w.managers[mk]);
    if o in w.managers {
      assert Filed(w.procs, o, w.managers[o]);
    }
  }

  // ----- whole runs -----

  datatype Operation =
    | Start(rootMode: bool, demand: Demand)
    | StopServer(manager: ManagerKey, key: ServerKey)
    | StopServers(managers: seq<ManagerKey>)
    | Die(pid: nat)

  function Applied(w: World, op: Operation): World {
    match op
    case Start(rootMode, d) => StartAt(w, d.manager, HomeOf(rootMode, d.manager), d.servers)
    case StopServer(mk, k) => StopAt(w, mk, k)
    case StopServers(mks) => StopAllIn(w, mks)
    case Die(pid) => Died(w, pid)
  }

  const EMPTY_WORLD: World := World([], map[])

  function After(ops: seq<Operation>): World {
    if ops == [] then EMPTY_WORLD else Applied(After(ops[..|ops| - 1]), ops[|ops| - 1])
  }

  /** Every start in the run respects the discipline at its time. */
  ghost predicate Tracked(ops: seq<Operation>) {
    forall i :: 0 <= i < |ops| && ops[i].Start? ==>
      KeepsTrack(After(ops[..i]), ops[i].demand.manager, ops[i].demand.servers)
  }

  /** In any run of operations and deaths no running process is ever out of its registry. */
  lemma {:induction false} NoProcessLost(ops: seq<Operation>)
    requires Tracked(ops)
    ensures NoLeak(After(ops))
  {
    if ops != [] {
      var n := |ops| - 1;
      forall i | 0 <= i < n ensures ops[..n][i] == ops[i] && ops[..n][..i] == ops[..i] { }
      NoProcessLost(ops[..n]);
      match ops[n]
      case Start(rootMode, d) =>
        StartKeepsNoLeakIff(After(ops[..n]), d.manager, HomeOf(rootMode, d.manager), d.servers);
      case StopServer(mk, k) => StopKeepsNoLeak(After(ops[..n]), mk, k);
      case StopServers(mks) => StopAllInKeepsNoLeak(After(ops[..n]), mks);
      case Die(pid) => DeathKeepsNoLeak(After(ops[..n]), pid);
    }
  }

  lemma TrackedPrefix(ops: seq<Operation>, n: nat)
    requires Tracked(ops) && n <= |ops|
    ensures Tracked(ops[..n])
  {
    forall i | 0 <= i < n ensures ops[..n][i] == ops[i] && ops[..n][..i] == ops[..i] { }
  }

  lemma StartTracked(ops: seq<Operation>, i: nat)
    requires i < |ops| && ops[i].Start? && NoLeak(After(ops[..i])) && NoLeak(After(ops[..i + 1]))
    ensures KeepsTrack(After(ops[..i]), ops[i].demand.manager, ops[i].demand.servers)
  {
    var d, mode := ops[i].demand, ops[i].rootMode;
    assert ops[..i + 1] == ops[..i] + [ops[i]];
    AfterOneMore(ops[..i], ops[i]);
    StartKeepsNoLeakIff(After(ops[..i]), d.manager, HomeOf(mode, d.manager), d.servers);
  }

  /** The discipline is exact: it holds throughout a run exactly if no running process was ever out of its
      registry. */
  lemma NoProcessLostIff(ops: seq<Operation>)
    ensures Tracked(ops) <==> forall i :: 0 <= i <= |ops| ==> NoLeak(After(ops[..i]))
  {
    if Tracked(ops) {
      forall i | 0 <= i <= |ops| ensures NoLeak(After(ops[..i])) {
        TrackedPrefix(ops, i);
        NoProcessLost(ops[..i]);
      }
    }
    if forall i :: 0 <= i <= |ops| ==> NoLeak(After(ops[..i])) {
      forall i | 0 <= i < |ops| && ops[i].Start?
        ensures KeepsTrack(After(ops[..i]), ops[i].demand.manager, ops[i].demand.servers)
      {
        StartTracked(ops, i);
      }
    }
  }

  // ----- the exceptions at concrete inputs -----

  lemma FirstStart(mk: ManagerKey, home: string, k: ServerKey)
    requires Supported(k.protocol)
    ensures StartAt(EMPTY_WORLD, mk, home, [k])
            == World([Process(mk, k, Running)], map[mk := Manager(home, map[k := 0])])
  {
    assert [k][..0] == [];
    assert StartedList([], Manager(home, map[]), mk, []) == Attempt([], Manager(home, map[]), false);
    assert map[][k := 0] == map[k := 0];
    assert StartedList([], Manager(home, map[]), mk, [k])
           == Attempt([Process(mk, k, Running)], Manager(home, map[k := 0]), false);
  }

  lemma StopTheOne(mk: ManagerKey, home: string, k: ServerKey)
    requires home != ROOT_NAMESPACE
    ensures StopAllIn(World([Process(mk, k, Running)], map[mk := Manager(home, map[k := 0])]), [mk])
            == World([Process(mk, k, Terminating)], map[mk := Manager(home, map[k := 0])])
  {
    var w := World([Process(mk, k, Running)], map[mk := Manager(home, map[k := 0])]);
    assert [mk][..0] == [];
    assert StopAllIn(w, []) == w;
    assert StopAllIn(w, [mk]) == StopAllAt(w, mk);
    assert w.managers[mk].entries[k] == 0 && 0 in w.managers[mk].entries.Values;
    assert StoppedAllProcs(w.procs, w.managers[mk]) == [Process(mk, k, Terminating)];
    assert w.managers[mk := w.managers[mk]] == w.managers;
  }

  lemma StopTheOneAtRoot(mk: ManagerKey, k: ServerKey)
    ensures StopAllIn(World([Process(mk, k, Running)], map[mk := Manager(ROOT_NAMESPACE, map[k := 0])]), [mk])
            == World([Process(mk, k, Terminating)], map[mk := Manager(ROOT_NAMESPACE, map[])])
  {
    var w := World([Process(mk, k, Running)], map[mk := Manager(ROOT_NAMESPACE, map[k := 0])]);
    assert [mk][..0] == [];
    assert StopAllIn(w, []) == w;
    assert StopAllIn(w, [mk]) == StopAllAt(w, mk);
    assert w.managers[mk].entries[k] == 0 && 0 in w.managers[mk].entries.Values;
    assert StoppedAllProcs(w.procs, w.managers[mk]) == [Process(mk, k, Terminating)];
  }

  /** In root mode the same three operations leave a new process in the slot. */
  lemma RootRestartServes()
    ensures var mk, k := ManagerKey("root", "10.0.0.1"), ServerKey(5649, "TCP");
            var start := Start(true, Demand(mk, [k]));
            Tracked([start, StopServers([mk]), start])
            && SlotOf(After([start, StopServers([mk]), start]), mk, k) == Filled(Running)
  {
    var mk, k := ManagerKey("root", "10.0.0.1"), ServerKey(5649, "TCP");
    var start, stop := Start(true, Demand(mk, [k])), StopServers([mk]);
    AfterThree(start, stop, start);
    FirstStart(mk, "localhost", k);
    StopTheOneAtRoot(mk, k);
    var w := World([Process(mk, k, Terminating)], map[mk := Manager("localhost", map[])]);
    assert After([start, stop]) == w && SlotOf(w, mk, k) == Vacant;
    StartedSlots(w.procs, w.managers[mk], mk, [k], k);
    assert k in [k];
  }

  lemma SecondStart(mk: ManagerKey, home: string, k: ServerKey)
    ensures var w := World([Process(mk, k, Terminating)], map[mk := Manager(home, map[k := 0])]);
            StartAt(w, mk, home, [k]) == w
  {
    var w := World([Process(mk, k, Terminating)], map[mk := Manager(home, map[k := 0])]);
    LiveListStartsNothing(w.procs, w.managers[mk], mk, [k]);
    assert w.managers[mk := w.managers[mk]] == w.managers;
  }

  lemma AfterThree(a: Operation, b: Operation, c: Operation)
    ensures After([a]) == Applied(EMPTY_WORLD, a)
    ensures After([a, b]) == Applied(After([a]), b)
    ensures After([a, b, c]) == Applied(After([a, b]), c)
  {
    AfterOneMore([], a);
    AfterOneMore([a], b);
    AfterOneMore([a, b], c);
    assert [] + [a] == [a] && [a] + [b] == [a, b] && [a, b] + [c] == [a, b, c];
  }

  /** In namespace mode, starting a server, stopping all of its manager and starting it again at once
      leaves the slot with the process that is shutting down. */
  lemma RestartBlocked()
    ensures var mk, k := ManagerKey("ns1", "10.0.0.1"), ServerKey(5649, "TCP");
            var start := Start(false, Demand(mk, [k]));
            Tracked([start, StopServers([mk]), start])
            && SlotOf(After([start, StopServers([mk]), start]), mk, k) == Filled(Terminating)
  {
    var mk, k := ManagerKey("ns1", "10.0.0.1"), ServerKey(5649, "TCP");
    var start, stop := Start(false, Demand(mk, [k])), StopServers([mk]);
    assert "ns1"[0] != ROOT_NAMESPACE[0];
    AfterThree(start, stop, start);
    FirstStart(mk, "ns1", k);
    StopTheOne(mk, "ns1", k);
    SecondStart(mk, "ns1", k);
  }

  lemma AfterOneMore(ops: seq<Operation>, op: Operation)
    ensures After(ops + [op]) == Applied(After(ops), op)
  {
    assert (ops + [op])[..|ops|] == ops;
  }

  /** A first start call with a known and then an unknown protocol raises and leaves a running process
      that no manager in the map knows. */
  lemma AbandonedProcess()
    ensures var mk := ManagerKey("root", "10.0.0.1");
            var w := After([Start(true, Demand(mk, [ServerKey(5649, "TCP"), ServerKey(5649, "SCTP")]))]);
            |w.procs| == 1 && w.procs[0].status.Running? && !Registered(w, 0) && !NoLeak(w)
  {
    var mk := ManagerKey("root", "10.0.0.1");
    var tcp, sctp := ServerKey(5649, "TCP"), ServerKey(5649, "SCTP");
    var ks := [tcp, sctp];
    var start := Start(true, Demand(mk, ks));
    assert ks[..1] == [tcp] && [tcp][..0] == [];
    AfterOneMore([], start);
    assert [] + [start] == [start];
    assert "SCTP"[0] != "TCP"[0] && "SCTP"[0] != "UDP"[0] && "SCTP"[0] != "HTTP"[0];
    var m := Manager(ROOT_NAMESPACE, map[]);
    assert StartedList([], m, mk, [tcp])
           == Attempt([Process(mk, tcp, Running)], m.(entries := map[tcp := 0]), false);
    assert StartedList([], m, mk, ks).raised;
    var w := After([start]);
    assert w == StartAt(EMPTY_WORLD, mk, ROOT_NAMESPACE, ks) == World([Process(mk, tcp, Running)], map[]);
    assert !Registered(w, 0);
  }
}
