/** The managers and the server agent as objects over one process table. */
module ServerManagers {
  import opened TrafficElements
  import opened ServerLifecycle
  import opened ServerOperations

  class ProcessTable {
    var procs: seq<Process>

    constructor ()
      ensures procs == []
    {
      procs := [];
    }
  }

  /** RootNsServerManager and NamespaceServerManager; home tells which. */
  class ServerManager {
    const table: ProcessTable
    const owner: ManagerKey
    const home: string
    var entries: map<ServerKey, nat>

    constructor (table: ProcessTable, owner: ManagerKey, home: string)
      ensures this.table == table && this.owner == owner && Now() == Manager(home, map[])
    {
      this.table, this.owner, this.home := table, owner, home;
      entries := map[];
    }

    function Now(): Manager
      reads this
    {
      Manager(home, entries)
    }

    predicate IsRunning(k: ServerKey)
      reads this, table
      ensures IsRunning(k) <==> Alive(table.procs, Now(), k)
    {
      k in entries && entries[k] < |table.procs| && !table.procs[entries[k]].status.Dead?
    }

    method StartServer(k: ServerKey) returns (raised: bool)
      modifies this, table
      ensures Attempt(table.procs, Now(), raised) == Started(old(table.procs), old(Now()), owner, k)
      ensures var live := k in old(entries) && old(entries)[k] < |old(table.procs)|
                          && old(table.procs)[old(entries)[k]].status != Dead;
              && (raised <==> !live && k.protocol != "TCP" && k.protocol != "UDP" && k.protocol != "HTTP")
              && table.procs == old(table.procs) + (if live || raised then [] else [Process(owner, k, Running)])
    {
      raised := false;
      if IsRunning(k) {
        return;
      }
      if !Supported(k.protocol) {
        return true;
      }
      entries := entries[k := |table.procs|];
      table.procs := table.procs + [Process(owner, k, Running)];
    }

    method StopServer(k: ServerKey)
      modifies this, table
      ensures (table.procs, Now()) == Stopped(old(table.procs), old(Now()), k)
    {
      if k in entries {
        if IsRunning(k) {
          table.procs := Terminated(table.procs, entries[k]);
          Remove(home, k);
        } else {
          Remove(ROOT_NAMESPACE, k);
        }
      }
    }

    method Remove(namespace: string, k: ServerKey)
      modifies this
      ensures Now() == Removed(old(Now()), namespace, k)
    {
      if namespace == home {
        entries := entries - {k};
      }
    }

    /** Walks over a snapshot of the registry, whatever its order. */
    method StopAllServers()
      modifies this, table
      ensures table.procs == StoppedAllProcs(old(table.procs), old(Now()))
      ensures Now() == StoppedAllManager(old(Now()))
    {
      var servers := entries;
      var todo := servers.Keys;
      while todo != {}
        invariant todo <= servers.Keys
        invariant StoppedSoFar(old(table.procs), servers, todo, table.procs)
        invariant entries == if home == ROOT_NAMESPACE then servers - (servers.Keys - todo) else servers
      {
        var k :| k in todo;
        table.procs := Terminated(table.procs, servers[k]);
        Remove(ROOT_NAMESPACE, k);
        todo := todo - {k};
      }
      assert servers - servers.Keys == map[];
    }
  }

  /** The processes of the entries outside todo have been told to stop. */
  ghost predicate StoppedSoFar(before: seq<Process>, servers: map<ServerKey, nat>, todo: set<ServerKey>,
                               now: seq<Process>) {
    |now| == |before| &&
    forall i :: 0 <= i < |before| ==>
      now[i] == if before[i].status.Running? && exists k :: k in servers && k !in todo && servers[k] == i
                then before[i].(status := Terminating) else before[i]
  }
}
