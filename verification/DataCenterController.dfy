/** The data-center controller as an object: its host lists share the record objects, so every
    entry appended by an earlier call shows the record's present lists when it is sent. */
module DataCenterController {
  import opened TrafficElements
  import opened RuleCompiler
  import opened TrafficRecords
  import opened TrafficApp
  import opened DataCenterDeployment
  import opened Network
  import D = Deployment

  /** Adding the client before the server compiles a rule to the same records. */
  lemma ClientFirst(recs: Records, r: Rule)
    ensures var known := Ensure(Ensure(recs, r.src), r.dst);
            var sent := known[r.src := AddClient(known[r.src], ClientOf(r))];
            sent[r.dst := AddServer(sent[r.dst], ServerOf(r))] == CompileRule(recs, r)
  {
  }

  /** Every list entry is the table's own record of some endpoint. */
  ghost predicate Attached(lists: map<Endpoint, seq<TrafficRecord>>, table: map<Endpoint, TrafficRecord>) {
    forall h, i :: h in lists && 0 <= i < |lists[h]| ==>
      lists[h][i].endpoint in table && table[lists[h][i].endpoint] == lists[h][i]
  }

  function Least(a: nat, b: nat): nat { if a < b then a else b }

  /** Of the hosts outside todo exactly those were reached that are there, and each took as much of its list as
      comes through; ok says that all took their whole lists. */
  ghost predicate Requested(lists: Assignment, todo: set<Endpoint>, there: set<Endpoint>, through: Endpoint -> nat,
                            ok: bool, requests: map<Endpoint, nat>) {
    && (forall h :: h in requests <==> h in lists && h !in todo && h in there)
    && (forall h :: h in requests ==> requests[h] == if through(h) < |lists[h]| then through(h) else |lists[h]|)
    && (ok <==> forall h :: h in lists && h !in todo ==> h in there && through(h) >= |lists[h]|)
  }

  lemma RequestedOneMore(lists: Assignment, todo: set<Endpoint>, there: set<Endpoint>, through: Endpoint -> nat,
                         ok: bool, requests: map<Endpoint, nat>, h: Endpoint)
    requires Requested(lists, todo, there, through, ok, requests) && h in todo && h in lists
    ensures Requested(lists, todo - {h}, there, through, ok && h in there && through(h) >= |lists[h]|,
                      if h in there then requests[h := Least(through(h), |lists[h]|)] else requests)
  {
    assert forall g :: g !in todo - {h} <==> g !in todo || g == h;
  }

  lemma SendAllOneMore(f: D.Fleet, recs: Records, lists: Assignment, requests: map<Endpoint, nat>, h: Endpoint,
                       taken: nat)
    requires h !in requests
    ensures SendAll(f, recs, lists, requests[h := taken])
            == SendAll(f, recs, lists, requests)[h := Received(D.ListingsAt(f, h), recs, ListAt(lists, h), taken)]
    ensures D.ListingsAt(SendAll(f, recs, lists, requests), h) == D.ListingsAt(f, h)
  {
    var x := SendAll(f, recs, lists, requests[h := taken]);
    var y := SendAll(f, recs, lists, requests)[h := Received(D.ListingsAt(f, h), recs, ListAt(lists, h), taken)];
    forall g: Endpoint ensures (g in x <==> g in y) && D.ListingsAt(x, g) == D.ListingsAt(y, g) {
      SendAllListings(f, recs, lists, requests[h := taken], g);
      SendAllListings(f, recs, lists, requests, g);
    }
    D.SameFleet(x, y);
  }

  /** One request more, and the fleet it leaves. */
  lemma SentOneMore(f: D.Fleet, recs: Records, lists: Assignment, todo: set<Endpoint>, there: set<Endpoint>,
                    through: Endpoint -> nat, ok: bool, requests: map<Endpoint, nat>, h: Endpoint)
    requires Requested(lists, todo, there, through, ok, requests) && h in todo && h in lists
    ensures var taken, g := Least(through(h), |lists[h]|), SendAll(f, recs, lists, requests);
            var requests' := if h in there then requests[h := taken] else requests;
            && Requested(lists, todo - {h}, there, through, ok && h in there && through(h) >= |lists[h]|, requests')
            && SendAll(f, recs, lists, requests')
               == if h !in there then g
                  else g[h := Received(D.ListingsAt(g, h), recs, ListAt(lists, h), taken)]
  {
    RequestedOneMore(lists, todo, there, through, ok, requests, h);
    SendAllOneMore(f, recs, lists, requests, h, Least(through(h), |lists[h]|));
  }

  /** The call took the system from s to t; every host that is there took as much of its list as came through;
      ok tells whether every host took its whole list. */
  ghost predicate Performed(workloads: map<Endpoint, string>, s: Center, c: Call, there: set<Endpoint>,
                            through: Endpoint -> nat, ok: bool, t: Center) {
    var lists := Assign(workloads, s.lists, c.order);
    && ValidCall(workloads, s, c) && t == Step(workloads, s, c)
    && (forall h :: h in c.requests <==> h in lists && h in there)
    && (forall h :: h in c.requests ==> c.requests[h] == if through(h) < |lists[h]| then through(h) else |lists[h]|)
    && (ok <==> Complete(workloads, s, c))
  }

  lemma WholeIsComplete(workloads: map<Endpoint, string>, s: Center, c: Call, there: set<Endpoint>,
                        through: Endpoint -> nat)
    requires ValidCall(workloads, s, c)
    requires var lists := Assign(workloads, s.lists, c.order);
             && (forall h :: h in c.requests <==> h in lists && h in there)
             && (forall h :: h in c.requests ==>
                   c.requests[h] == if through(h) < |lists[h]| then through(h) else |lists[h]|)
    ensures var lists := Assign(workloads, s.lists, c.order);
            Complete(workloads, s, c) <==> forall h :: h in lists ==> h in there && through(h) >= |lists[h]|
  {
    var lists := Assign(workloads, s.lists, c.order);
    if Complete(workloads, s, c) {
      forall h | h in lists ensures h in there && through(h) >= |lists[h]| { assert h in c.requests; }
    }
  }

  lemma RequestedPerforms(workloads: map<Endpoint, string>, s: Center, c: Call, there: set<Endpoint>,
                          through: Endpoint -> nat, ok: bool)
    requires forall e :: e in c.order <==> e in Compile(s.recs, c.rules)
    requires Requested(Assign(workloads, s.lists, c.order), {}, there, through, ok, c.requests)
    ensures ValidCall(workloads, s, c) && Performed(workloads, s, c, there, through, ok, Step(workloads, s, c))
  {
    assert ValidCall(workloads, s, c);
    WholeIsComplete(workloads, s, c, there, through);
  }

  class DataCenterTrafficController {
    const workloads: map<Endpoint, string>
    const table: RecordTable
    var workloadServers: map<Endpoint, seq<TrafficRecord>>

    ghost predicate Valid()
      reads this, table, table.servers.Values
    {
      table.Valid() && Attached(workloadServers, table.servers)
    }

    ghost function Lists(): Assignment
      reads this
    {
      map h | h in workloadServers :: Names(workloadServers[h])
    }

    ghost function Now(hosts: map<Endpoint, TrafficApp>): Center
      reads this, table, table.servers.Values, Databases(hosts)
    {
      Center(table.Accumulated(), Lists(), FleetOf(hosts))
    }

    constructor (workloads: map<Endpoint, string>)
      ensures fresh(table) && Valid() && table.Accumulated() == map[] && Lists() == map[]
      ensures this.workloads == workloads
    {
      this.workloads := workloads;
      table := new RecordTable();
      workloadServers := map[];
    }

    method CreateRule(r: Rule)
      requires table.Valid()
      modifies table, table.servers.Values
      ensures table.Valid() && table.Accumulated() == CompileRule(old(table.Accumulated()), r)
      ensures fresh(table.servers.Values - old(table.servers.Values))
      ensures Extends(old(table.servers), table.servers)
    {
      ClientFirst(table.Accumulated(), r);
      table.EnsureBoth(r);
      table.AddClientTo(r.src, r);
      table.AddServerTo(r.dst, r);
    }

    method CreateRules(rules: seq<Rule>)
      requires Valid()
      modifies table, table.servers.Values
      ensures Valid() && table.Accumulated() == Compile(old(table.Accumulated()), rules)
      ensures fresh(table.servers.Values - old(table.servers.Values))
    {
      for i := 0 to |rules|
        invariant table.Valid() && table.Accumulated() == Compile(old(table.Accumulated()), rules[..i])
        invariant fresh(table.servers.Values - old(table.servers.Values))
        invariant Extends(old(table.servers), table.servers)
      {
        CreateRule(rules[i]);
        assert rules[..i + 1][..i] == rules[..i];
      }
      assert rules[..|rules|] == rules;
    }

    function GetAssociatedWorkload(vif: Endpoint): (h: Endpoint)
      ensures h == HostOf(workloads, vif)
      ensures vif in workloads && workloads[vif] != "" ==> h == workloads[vif]
    {
      if vif in workloads && workloads[vif] != "" then workloads[vif] else vif
    }

    method AppendRecord(e: Endpoint)
      requires Valid() && e in table.servers
      modifies `workloadServers
      ensures Valid()
      ensures Lists() == old(Lists())[HostOf(workloads, e) := ListAt(old(Lists()), HostOf(workloads, e)) + [e]]
    {
      var h := GetAssociatedWorkload(e);
      var list := if h in workloadServers then workloadServers[h] else [];
      assert Names(list + [table.servers[e]]) == Names(list) + [e];
      workloadServers := workloadServers[h := list + [table.servers[e]]];
    }

    /** Appends every record to the list of its host, in an arbitrary order. */
    method AppendRecords() returns (ghost order: seq<Endpoint>)
      requires Valid()
      modifies `workloadServers
      ensures Valid()
      ensures Lists() == Assign(workloads, old(Lists()), order)
      ensures D.Distinct(order) && forall e :: e in order <==> e in table.servers
    {
      order := [];
      var todo := table.servers.Keys;
      while todo != {}
        invariant Valid() && todo <= table.servers.Keys
        invariant Lists() == Assign(workloads, old(Lists()), order)
        invariant D.Distinct(order) && forall e :: e in order <==> e in table.servers && e !in todo
      {
        var e :| e in todo;
        AppendRecord(e);
        todo := todo - {e};
        assert (order + [e])[..|order|] == order;
        order := order + [e];
      }
    }

    /** What is sent for a list: each entry with the lists its record has now. */
    function Payload(list: seq<TrafficRecord>): (configs: seq<TrafficConfig>)
      reads set i | 0 <= i < |list| :: list[i]
    {
      seq(|list|, i requires 0 <= i < |list|
                  reads set i | 0 <= i < |list| :: list[i]
                  => TrafficConfig(list[i].endpoint, list[i].Lists()))
    }

    /** The repeated entries of a list all carry the current contents of their records. */
    lemma PayloadIsCurrent(h: Endpoint)
      requires Valid() && h in workloadServers
      ensures forall v :: v in Lists()[h] ==> v in table.Accumulated()
      ensures Payload(workloadServers[h]) == Configs(table.Accumulated(), Lists()[h])
    {
    }

    /** As much of a host's list as comes through. */
    method Chunk(h: Endpoint, through: nat) returns (configs: seq<TrafficConfig>, whole: bool, ghost taken: nat)
      requires Valid() && h in workloadServers
      ensures taken == Least(through, |ListAt(Lists(), h)|) && (whole <==> through >= |ListAt(Lists(), h)|)
      ensures configs == Configs(table.Accumulated(), ListAt(Lists(), h)[..taken])
    {
      PayloadIsCurrent(h);
      configs := Payload(workloadServers[h]);
      whole, taken := through >= |configs|, Least(through, |configs|);
      if !whole {
        configs := configs[..through];
      }
    }

    /** One request with a host's list; it may be lost, or break off after a prefix of the list. */
    method Send(h: Endpoint, hosts: map<Endpoint, TrafficApp>, through: nat) returns (ok: bool, ghost taken: nat)
      requires Valid() && h in workloadServers && Separate(hosts)
      modifies Databases(hosts)
      ensures Valid() && table.Accumulated() == old(table.Accumulated()) && Lists() == old(Lists())
      ensures taken == Least(through, |ListAt(Lists(), h)|)
      ensures ok <==> h in hosts && through >= |ListAt(Lists(), h)|
      ensures var f, configs := old(FleetOf(hosts)), Configs(table.Accumulated(), ListAt(Lists(), h)[..taken]);
              FleetOf(hosts) == if h !in hosts then f else f[h := RecordedAll(f[h], configs)]
    {
      var configs;
      configs, ok, taken := Chunk(h, through);
      if h in hosts {
        Request(h, configs, hosts);
      } else {
        ok := false;
      }
    }

    /** What has been sent so far: the requests, and the fleet they leave. */
    ghost predicate Sent(hosts: map<Endpoint, TrafficApp>, through: Endpoint -> nat, f: D.Fleet, todo: set<Endpoint>,
                         ok: bool, requests: map<Endpoint, nat>)
      reads this, table, table.servers.Values, Databases(hosts)
      requires Valid()
    {
      && todo <= workloadServers.Keys
      && Requested(Lists(), todo, hosts.Keys, through, ok, requests)
      && FleetOf(hosts) == SendAll(f, table.Accumulated(), Lists(), requests)
    }

    method SendNext(h: Endpoint, hosts: map<Endpoint, TrafficApp>, through: Endpoint -> nat, ghost f: D.Fleet,
                    todo: set<Endpoint>, ok: bool, ghost requests: map<Endpoint, nat>)
      returns (ok': bool, ghost requests': map<Endpoint, nat>)
      requires Valid() && Separate(hosts) && Sent(hosts, through, f, todo, ok, requests) && h in todo
      modifies Databases(hosts)
      ensures Valid() && table.Accumulated() == old(table.Accumulated()) && Lists() == old(Lists())
      ensures Sent(hosts, through, f, todo - {h}, ok', requests')
    {
      ghost var recs, lists, g := table.Accumulated(), Lists(), FleetOf(hosts);
      var whole, taken := Send(h, hosts, through(h));
      assert table.Accumulated() == recs && Lists() == lists && ListAt(lists, h) == lists[h];
      SentOneMore(f, recs, lists, todo, hosts.Keys, through, ok, requests, h);
      ok' := ok && whole;
      requests' := if h in hosts then requests[h := taken] else requests;
      assert h in hosts ==> g[h] == D.ListingsAt(g, h);
    }

    /** Sends every host its list; ok when every request came through whole. */
    method SendLists(hosts: map<Endpoint, TrafficApp>, through: Endpoint -> nat)
      returns (ok: bool, ghost requests: map<Endpoint, nat>)
      requires Valid() && Separate(hosts)
      modifies Databases(hosts)
      ensures Valid() && table.Accumulated() == old(table.Accumulated()) && Lists() == old(Lists())
      ensures Sent(hosts, through, old(FleetOf(hosts)), {}, ok, requests)
    {
      ok, requests := true, map[];
      var todo := workloadServers.Keys;
      while todo != {}
        invariant Valid() && table.Accumulated() == old(table.Accumulated()) && Lists() == old(Lists())
        invariant Sent(hosts, through, old(FleetOf(hosts)), todo, ok, requests)
      {
        var h :| h in todo;
        ok, requests := SendNext(h, hosts, through, old(FleetOf(hosts)), todo, ok, requests);
        todo := todo - {h};
      }
    }

    /** Everything the controller does before it contacts a host. */
    method Prepare(rules: seq<Rule>) returns (ghost order: seq<Endpoint>)
      requires Valid()
      modifies this, table, table.servers.Values
      ensures Valid() && fresh(table.servers.Values - old(table.servers.Values))
      ensures table.Accumulated() == Compile(old(table.Accumulated()), rules)
      ensures Lists() == Assign(workloads, old(Lists()), order)
      ensures D.Distinct(order) && forall e :: e in order <==> e in table.Accumulated()
    {
      CreateRules(rules);
      order := AppendRecords();
    }

    /** The rest of the call, once the lists are prepared. */
    method SendPrepared(hosts: map<Endpoint, TrafficApp>, through: Endpoint -> nat, ghost s: Center,
                        ghost rules: seq<Rule>, ghost order: seq<Endpoint>)
      returns (ok: bool, ghost c: Call)
      requires Valid() && Separate(hosts) && s.fleet == FleetOf(hosts)
      requires table.Accumulated() == Compile(s.recs, rules) && Lists() == Assign(workloads, s.lists, order)
      requires forall e :: e in order <==> e in table.Accumulated()
      modifies Databases(hosts)
      ensures Valid() && c.rules == rules && c.order == order
      ensures Performed(workloads, s, c, hosts.Keys, through, ok, Now(hosts))
    {
      ghost var recs, lists, requests := table.Accumulated(), Lists(), map[];
      ok, requests := SendLists(hosts, through);
      assert table.Accumulated() == recs && Lists() == lists;
      c := Call(rules, order, requests);
      RequestedPerforms(workloads, s, c, hosts.Keys, through, ok);
      assert Now(hosts) == Center(recs, lists, SendAll(s.fleet, recs, lists, requests)) == Step(workloads, s, c);
    }

    /** A step of the data-center runs for the rules given, every record being listed once more. */
    method RegisterTraffic(rules: seq<Rule>, hosts: map<Endpoint, TrafficApp>, through: Endpoint -> nat)
      returns (ok: bool, ghost c: Call)
      requires Valid() && Separate(hosts)
      modifies this, table, table.servers.Values, Databases(hosts)
      ensures Valid() && fresh(table.servers.Values - old(table.servers.Values))
      ensures c.rules == rules && D.Distinct(c.order)
      ensures Performed(workloads, old(Now(hosts)), c, hosts.Keys, through, ok, Now(hosts))
    {
      ghost var s := Now(hosts);
      ghost var order := Prepare(rules);
      assert FleetOf(hosts) == s.fleet;
      ok, c := SendPrepared(hosts, through, s, rules, order);
      assert s == old(Now(hosts));
    }
  }

  function Names(list: seq<TrafficRecord>): seq<Endpoint> {
    seq(|list|, i requires 0 <= i < |list| => list[i].endpoint)
  }
}
