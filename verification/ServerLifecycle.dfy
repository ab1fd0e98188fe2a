/**
 Server processes, the registries of the managers that start and stop them, and the agent's map of
 managers, as values. Operations run one at a time; a process may die between any two of them.
 */
module ServerLifecycle {
  import opened TrafficElements

  const ROOT_NAMESPACE: string := "localhost"

  /** Terminating: sent SIGTERM and still alive. */
  datatype Status = Running | Terminating | Dead

  datatype ServerKey = ServerKey(port: int, protocol: string)

  datatype ManagerKey = ManagerKey(namespace: string, src: Endpoint)

  /** A process remembers which manager started it for which key; it is known by its position. */
  datatype Process = Process(owner: ManagerKey, key: ServerKey, status: Status)

  /** A manager files its servers under its home namespace only. */
  datatype Manager = Manager(home: string, entries: map<ServerKey, nat>)

  datatype World = World(procs: seq<Process>, managers: map<ManagerKey, Manager>)

  predicate Supported(protocol: string) { protocol in ["TCP", "UDP", "HTTP"] }

  predicate Alive(procs: seq<Process>, m: Manager, k: ServerKey) {
    k in m.entries && m.entries[k] < |procs| && !procs[m.entries[k]].status.Dead?
  }

  // ----- one manager -----

  datatype Attempt = Attempt(procs: seq<Process>, manager: Manager, raised: bool)

  /** start_server: nothing to do for a live server; an unknown protocol raises. */
  function Started(procs: seq<Process>, m: Manager, owner: ManagerKey, k: ServerKey): Attempt {
    if Alive(procs, m, k) then Attempt(procs, m, false)
    else if !Supported(k.protocol) then Attempt(procs, m, true)
    else Attempt(procs + [Process(owner, k, Running)], m.(entries := m.entries[k := |procs|]), false)
  }

  /** Starting a list of servers; the first failure ends it. */
  function StartedList(procs: seq<Process>, m: Manager, owner: ManagerKey, ks: seq<ServerKey>): Attempt {
    if ks == [] then Attempt(procs, m, false)
    else
      var before := StartedList(procs, m, owner, ks[..|ks| - 1]);
      if before.raised then before else Started(before.procs, before.manager, owner, ks[|ks| - 1])
  }

  /** remove_server under some namespace; a no-op unless it is the manager's home. */
  function Removed(m: Manager, namespace: string, k: ServerKey): Manager {
    if namespace == m.home then m.(entries := m.entries - {k}) else m
  }

  function Terminated(procs: seq<Process>, pid: nat): seq<Process> {
    if pid < |procs| && procs[pid].status.Running? then procs[pid := procs[pid].(status := Terminating)] else procs
  }

  /** stop_server: a dead server is removed from the root namespace's file, whichever the home is. */
  function Stopped(procs: seq<Process>, m: Manager, k: ServerKey): (seq<Process>, Manager) {
    if k !in m.entries then (procs, m)
    else if Alive(procs, m, k) then (Terminated(procs, m.entries[k]), Removed(m, m.home, k))
    else (procs, Removed(m, ROOT_NAMESPACE, k))
  }

  /** stop_all_servers: every live server is terminated; entries leave the root namespace's file only. */
  function StoppedAllProcs(procs: seq<Process>, m: Manager): seq<Process> {
    seq(|procs|, i requires 0 <= i < |procs| =>
      if procs[i].status.Running? && i in m.entries.Values then procs[i].(status := Terminating) else procs[i])
  }

  function StoppedAllManager(m: Manager): Manager {
    if m.home == ROOT_NAMESPACE then m.(entries := map[]) else m
  }

  // ----- the agent -----

  function ManagerAt(w: World, mk: ManagerKey, home: string): Manager {
    if mk in w.managers then w.managers[mk] else Manager(home, map[])
  }

  /** The agent enters a new manager in its map only after all its servers started. */
  function StartAt(w: World, mk: ManagerKey, home: string, ks: seq<ServerKey>): World {
    var a := StartedList(w.procs, ManagerAt(w, mk, home), mk, ks);
    World(a.procs, if a.raised && mk !in w.managers then w.managers else w.managers[mk := a.manager])
  }

  function StopAt(w: World, mk: ManagerKey, k: ServerKey): World {
    if mk in w.managers then
      var (procs, m) := Stopped(w.procs, w.managers[mk], k);
      World(procs, w.managers[mk := m])
    else w
  }

  function StopAllAt(w: World, mk: ManagerKey): World {
    if mk in w.managers then
      World(StoppedAllProcs(w.procs, w.managers[mk]), w.managers[mk := StoppedAllManager(w.managers[mk])])
    else w
  }

  function StopAllIn(w: World, mks: seq<ManagerKey>): World {
    if mks == [] then w else StopAllAt(StopAllIn(w, mks[..|mks| - 1]), mks[|mks| - 1])
  }

  /** The environment: a process dies. */
  function Died(w: World, pid: nat): World {
    if pid < |w.procs| then w.(procs := w.procs[pid := w.procs[pid].(status := Dead)]) else w
  }

  // ----- no process is lost -----

  /** Every entry is filed under the slot its process was started for. */
  ghost predicate Filed(procs: seq<Process>, mk: ManagerKey, m: Manager) {
    forall k :: k in m.entries ==>
      m.entries[k] < |procs| && procs[m.entries[k]].owner == mk && procs[m.entries[k]].key == k
  }

  ghost predicate Registered(w: World, pid: nat) {
    pid < |w.procs| &&
    var p := w.procs[pid];
    p.owner in w.managers && p.key in w.managers[p.owner].entries && w.managers[p.owner].entries[p.key] == pid
  }

  ghost predicate NoLeak(w: World) {
    && (forall mk :: mk in w.managers ==> Filed(w.procs, mk, w.managers[mk]))
    && (forall pid: nat :: pid < |w.procs| && w.procs[pid].status.Running? ==> Registered(w, pid))
  }

  /** Hence there is at most one running server per manager, port and protocol. */
  lemma OneServerPerSlot(w: World, a: nat, b: nat)
    requires NoLeak(w) && a < |w.procs| && b < |w.procs|
    requires w.procs[a].status.Running? && w.procs[b].status.Running?
    requires w.procs[a].owner == w.procs[b].owner && w.procs[a].key == w.procs[b].key
    ensures a == b
  {
    assert Registered(w, a) && Registered(w, b);
  }

  /** What a starting list does to the process table: it only appends. */
  lemma {:induction false} StartedAppends(procs: seq<Process>, m: Manager, owner: ManagerKey, ks: seq<ServerKey>)
    requires Filed(procs, owner, m)
    ensures var a := StartedList(procs, m, owner, ks);
            && procs <= a.procs && Filed(a.procs, owner, a.manager) && a.manager.home == m.home
            && (forall i :: |procs| <= i < |a.procs| ==> a.procs[i].owner == owner && a.procs[i].status.Running?)
  {
    if ks != [] { StartedAppends(procs, m, owner, ks[..|ks| - 1]); }
  }

  /** Entries that are alive stay; new processes are the entries of their keys. */
  lemma {:induction false} StartedRegisters(procs: seq<Process>, m: Manager, owner: ManagerKey, ks: seq<ServerKey>)
    requires Filed(procs, owner, m)
    ensures var a := StartedList(procs, m, owner, ks);
            && (forall k :: Alive(procs, m, k) ==> k in a.manager.entries && a.manager.entries[k] == m.entries[k])
            && (forall i :: |procs| <= i < |a.procs| ==>
                  a.procs[i].key in a.manager.entries && a.manager.entries[a.procs[i].key] == i)
  {
    if ks != [] {
      StartedAppends(procs, m, owner, ks[..|ks| - 1]);
      StartedRegisters(procs, m, owner, ks[..|ks| - 1]);
    }
  }

  /** The calling discipline under which starting never loses a process. */
  predicate KeepsTrack(w: World, mk: ManagerKey, ks: seq<ServerKey>) {
    || mk in w.managers || ks == [] || !Supported(ks[0].protocol)
    || forall i :: 0 <= i < |ks| ==> Supported(ks[i].protocol)
  }

  lemma {:induction false} AllSupportedNeverRaises(procs: seq<Process>, m: Manager, owner: ManagerKey,
                                                   ks: seq<ServerKey>)
    requires forall i :: 0 <= i < |ks| ==> Supported(ks[i].protocol)
    ensures !StartedList(procs, m, owner, ks).raised
  {
    if ks != [] { AllSupportedNeverRaises(procs, m, owner, ks[..|ks| - 1]); }
  }

  /** A fresh manager whose list starts with an unknown protocol starts nothing. */
  lemma {:induction false} FirstUnsupportedRaises(procs: seq<Process>, home: string, owner: ManagerKey,
                                                  ks: seq<ServerKey>)
    requires ks != [] && !Supported(ks[0].protocol)
    ensures StartedList(procs, Manager(home, map[]), owner, ks) == Attempt(procs, Manager(home, map[]), true)
  {
    if |ks| == 1 {
      assert ks[..0] == [];
    } else {
      FirstUnsupportedRaises(procs, home, owner, ks[..|ks| - 1]);
    }
  }

  /** A fresh manager whose list starts with a known protocol starts a process for it. */
  lemma {:induction false} FirstSupportedStarts(procs: seq<Process>, home: string, owner: ManagerKey,
                                                ks: seq<ServerKey>)
    requires ks != [] && Supported(ks[0].protocol)
    ensures |StartedList(procs, Manager(home, map[]), owner, ks).procs| > |procs|
  {
    if |ks| == 1 {
      assert ks[..0] == [];
    } else {
      FirstSupportedStarts(procs, home, owner, ks[..|ks| - 1]);
    }
  }

  lemma {:induction false} UnsupportedRaises(procs: seq<Process>, m: Manager, owner: ManagerKey, ks: seq<ServerKey>,
                                             i: nat)
    requires i < |ks| && !Supported(ks[i].protocol)
    requires Filed(procs, owner, m) && forall k :: k in m.entries ==> Supported(k.protocol)
    ensures StartedList(procs, m, owner, ks).raised
  {
    var n := |ks| - 1;
    EntriesSupported(procs, m, owner, ks[..n]);
    if i < n { UnsupportedRaises(procs, m, owner, ks[..n], i); }
  }

  lemma {:induction false} EntriesSupported(procs: seq<Process>, m: Manager, owner: ManagerKey, ks: seq<ServerKey>)
    requires forall k :: k in m.entries ==> Supported(k.protocol)
    ensures forall k :: k in StartedList(procs, m, owner, ks).manager.entries ==> Supported(k.protocol)
  {
    if ks != [] { EntriesSupported(procs, m, owner, ks[..|ks| - 1]); }
  }

  /** Starting servers loses a process exactly when a new manager is abandoned after its first start. */
  lemma StartKeepsNoLeakIff(w: World, mk: ManagerKey, home: string, ks: seq<ServerKey>)
    requires NoLeak(w)
    ensures NoLeak(StartAt(w, mk, home, ks)) <==> KeepsTrack(w, mk, ks)
  {
    var m := ManagerAt(w, mk, home);
    var a := StartedList(w.procs, m, mk, ks);
    var w' := StartAt(w, mk, home, ks);
    StartedAppends(w.procs, m, mk, ks);
    if KeepsTrack(w, mk, ks) {
      if mk !in w.managers && ks != [] {
        if !Supported(ks[0].protocol) { FirstUnsupportedRaises(w.procs, home, mk, ks); }
        else { AllSupportedNeverRaises(w.procs, m, mk, ks); }
      }
      StartTracked(w, mk, home, ks);
    } else {
      var i :| 0 <= i < |ks| && !Supported(ks[i].protocol);
      UnsupportedRaises(w.procs, m, mk, ks, i);
      FirstSupportedStarts(w.procs, home, mk, ks);
      assert !Registered(w', |w.procs|);
    }
  }

  lemma StartTracked(w: World, mk: ManagerKey, home: string, ks: seq<ServerKey>)
    requires NoLeak(w)
    requires var a := StartedList(w.procs, ManagerAt(w, mk, home), mk, ks);
             mk in w.managers || !a.raised || a.procs == w.procs
    ensures NoLeak(StartAt(w, mk, home, ks))
  {
    var m := ManagerAt(w, mk, home);
    var w' := StartAt(w, mk, home, ks);
    StartedAppends(w.procs, m, mk, ks);
    StartedRegisters(w.procs, m, mk, ks);
    forall pid: nat | pid < |w'.procs| && w'.procs[pid].status.Running? ensures Registered(w', pid) {
      if pid < |w.procs| {
        assert w'.procs[pid] == w.procs[pid];
        assert Registered(w, pid);
      }
    }
    forall o | o in w'.managers && o != mk ensures Filed(w'.procs, o, w'.managers[o]) {
      assert Filed(w.procs, o, w.managers[o]);
    }
  }

  lemma StopKeepsNoLeak(w: World, mk: ManagerKey, k: ServerKey)
    requires NoLeak(w)
    ensures NoLeak(StopAt(w, mk, k))
  {
    var w' := StopAt(w, mk, k);
    forall pid: nat | pid < |w'.procs| && w'.procs[pid].status.Running? ensures Registered(w', pid) {
      assert Registered(w, pid);
    }
    forall o | o in w'.managers ensures Filed(w'.procs, o, w'.managers[o]) {
      assert Filed(w.procs, o, w.managers[o]);
    }
  }

  lemma StopAllKeepsNoLeak(w: World, mk: ManagerKey)
    requires NoLeak(w)
    ensures NoLeak(StopAllAt(w, mk))
  {
    var w' := StopAllAt(w, mk);
    forall pid: nat | pid < |w'.procs| && w'.procs[pid].status.Running? ensures Registered(w', pid) {
      assert Registered(w, pid);
    }
    forall o | o in w'.managers ensures Filed(w'.procs, o, w'.managers[o]) {
      assert Filed(w.procs, o, w.managers[o]);
    }
  }

  lemma DeathKeepsNoLeak(w: World, pid: nat)
    requires NoLeak(w)
    ensures NoLeak(Died(w, pid))
  {
    var w' := Died(w, pid);
    forall i: nat | i < |w'.procs| && w'.procs[i].status.Running? ensures Registered(w', i) {
      assert Registered(w, i);
    }
    forall o | o in w'.managers ensures Filed(w'.procs, o, w'.managers[o]) {
      assert Filed(w.procs, o, w.managers[o]);
    }
  }
}
