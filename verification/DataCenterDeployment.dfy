/**
 Runs of the data-center controller, which groups records by the workload host that carries the
 interface. Each call appends every record to its host's list once more and sends the whole list;
 the list entries share the record, so repeated entries carry the same current lists.
 */
module DataCenterDeployment {
  import opened TrafficElements
  import opened ConnectedState
  import opened RuleCompiler
  import opened Deployment
  import opened TrafficApp

  /** The host an interface is mapped to; an unmapped one, or one mapped to "", is its own host. */
  function HostOf(workloads: map<Endpoint, string>, vif: Endpoint): Endpoint {
    if vif in workloads && workloads[vif] != "" then workloads[vif] else vif
  }

  /** The per-host lists, an entry being named by its record's endpoint. */
  type Assignment = map<Endpoint, seq<Endpoint>>

  function ListAt(a: Assignment, h: Endpoint): seq<Endpoint> { if h in a then a[h] else [] }

  function Assign(workloads: map<Endpoint, string>, a: Assignment, order: seq<Endpoint>): Assignment {
    if order == [] then a
    else
      var before, last := Assign(workloads, a, order[..|order| - 1]), order[|order| - 1];
      before[HostOf(workloads, last) := ListAt(before, HostOf(workloads, last)) + [last]]
  }

  function RowOf(recs: Records, v: Endpoint): Row { if v in recs then recs[v] else Row([], []) }

  function Configs(recs: Records, list: seq<Endpoint>): seq<TrafficConfig> {
    seq(|list|, i requires 0 <= i < |list| => TrafficConfig(list[i], RowOf(recs, list[i])))
  }

  function Prefix(list: seq<Endpoint>, n: nat): seq<Endpoint> { if n <= |list| then list[..n] else list }

  /** What the first n entries of its list do to a host's store. */
  function Received(ls: Listings, recs: Records, list: seq<Endpoint>, n: nat): Listings {
    RecordedAll(ls, Configs(recs, Prefix(list, n)))
  }

  /** The same under the reading. */
  function ReceivedStore(st: Store, recs: Records, list: seq<Endpoint>, n: nat): Store {
    RegisteredAll(st, Configs(recs, Prefix(list, n)))
  }

  /** Requests of one call go to distinct hosts, so their order is immaterial; a host takes the
      first `requests[h]` entries of its list. */
  function SendAll(f: Fleet, recs: Records, a: Assignment, requests: map<Endpoint, nat>): Fleet {
    map h | h in f.Keys + requests.Keys ::
      if h in requests then Received(ListingsAt(f, h), recs, ListAt(a, h), requests[h]) else f[h]
  }

  /** order lists the records in the order in which they are appended to the host lists. */
  datatype Call = Call(rules: seq<Rule>, order: seq<Endpoint>, requests: map<Endpoint, nat>)

  datatype Center = Center(recs: Records, lists: Assignment, fleet: Fleet)

  const START: Center := Center(map[], map[], map[])

  ghost predicate ValidCall(workloads: map<Endpoint, string>, s: Center, c: Call) {
    var recs, lists := Compile(s.recs, c.rules), Assign(workloads, s.lists, c.order);
    && (forall e :: e in c.order <==> e in recs)
    && (forall h :: h in c.requests ==> h in lists && c.requests[h] <= |lists[h]|)
  }

  /** Every host gets its whole list. */
  ghost predicate Complete(workloads: map<Endpoint, string>, s: Center, c: Call) {
    var lists := Assign(workloads, s.lists, c.order);
    ValidCall(workloads, s, c) && forall h :: h in lists ==> h in c.requests && c.requests[h] == |lists[h]|
  }

  function Step(workloads: map<Endpoint, string>, s: Center, c: Call): Center
    requires ValidCall(workloads, s, c)
  {
    var recs, lists := Compile(s.recs, c.rules), Assign(workloads, s.lists, c.order);
    Center(recs, lists, SendAll(s.fleet, recs, lists, c.requests))
  }

  ghost predicate ValidRun(workloads: map<Endpoint, string>, calls: seq<Call>)
    decreases |calls|, 0
  {
    calls == [] ||
    (ValidRun(workloads, calls[..|calls| - 1])
     && ValidCall(workloads, Run(workloads, calls[..|calls| - 1]), calls[|calls| - 1]))
  }

  ghost function Run(workloads: map<Endpoint, string>, calls: seq<Call>): Center
    requires ValidRun(workloads, calls)
    decreases |calls|, 1
  {
    if calls == [] then START else Step(workloads, Run(workloads, calls[..|calls| - 1]), calls[|calls| - 1])
  }

  function AllRules(calls: seq<Call>): seq<Rule> {
    if calls == [] then [] else AllRules(calls[..|calls| - 1]) + calls[|calls| - 1].rules
  }

  /** A host's store only has rows of interfaces it carries, covered by the controller's records. */
  ghost predicate HostStore(workloads: map<Endpoint, string>, recs: Records, h: Endpoint, st: Store) {
    forall v :: v in st ==> HostOf(workloads, v) == h && v in recs && Covers(Meaning(recs[v]), st[v])
  }

  ghost predicate Grouped(workloads: map<Endpoint, string>, recs: Records, a: Assignment) {
    forall h, v :: h in a && v in a[h] ==> HostOf(workloads, v) == h && v in recs
  }

  ghost predicate Consistent(workloads: map<Endpoint, string>, s: Center) {
    && Grouped(workloads, s.recs, s.lists)
    && forall h: Endpoint :: HostStore(workloads, s.recs, h, StoreAt(s.fleet, h))
  }

  lemma {:induction false} AssignGrouped(workloads: map<Endpoint, string>, recs: Records, a: Assignment,
                                         order: seq<Endpoint>)
    requires Grouped(workloads, recs, a) && forall e :: e in order ==> e in recs
    ensures Grouped(workloads, recs, Assign(workloads, a, order))
  {
    if order != [] {
      AssignGrouped(workloads, recs, a, order[..|order| - 1]);
    }
  }

  lemma {:induction false} AssignListsAll(workloads: map<Endpoint, string>, a: Assignment, order: seq<Endpoint>,
                                          e: Endpoint)
    requires e in order
    ensures e in ListAt(Assign(workloads, a, order), HostOf(workloads, e))
  {
    var init, last := order[..|order| - 1], order[|order| - 1];
    if e != last {
      assert order == init + [last];
      AssignListsAll(workloads, a, init, e);
    }
  }

  /** A list of configurations taken from one set of records, repetitions included, seen at one row. */
  lemma {:induction false} RegisteredListAt(st: Store, recs: Records, list: seq<Endpoint>, v: Endpoint)
    ensures v in RegisteredAll(st, Configs(recs, list)) <==> v in st || v in list
    ensures At(RegisteredAll(st, Configs(recs, list)), v)
            == if v in list then Merge(At(st, v), Meaning(RowOf(recs, v))) else At(st, v)
  {
    if list != [] {
      var n := |list| - 1;
      RegisteredListAt(st, recs, list[..n], v);
      assert Configs(recs, list)[..n] == Configs(recs, list[..n]);
      assert list == list[..n] + [list[n]];
      MergeTwice(At(st, v), Meaning(RowOf(recs, v)));
    }
  }

  lemma MergeTwice(a: Config, b: Config)
    ensures Merge(Merge(a, b), b) == Merge(a, b)
  {
  }

  lemma ReceivedKeepsHostStore(workloads: map<Endpoint, string>, recs: Records, h: Endpoint, st: Store,
                               list: seq<Endpoint>, n: nat)
    requires HostStore(workloads, recs, h, st)
    requires forall v :: v in list ==> HostOf(workloads, v) == h && v in recs
    ensures HostStore(workloads, recs, h, ReceivedStore(st, recs, list, n))
  {
    var st' := ReceivedStore(st, recs, list, n);
    forall v | v in st' ensures HostOf(workloads, v) == h && v in recs && Covers(Meaning(recs[v]), st'[v]) {
      RegisteredListAt(st, recs, Prefix(list, n), v);
      assert At(st', v) == st'[v];
    }
  }

  lemma SendAllAt(f: Fleet, recs: Records, a: Assignment, requests: map<Endpoint, nat>, h: Endpoint)
    ensures h in SendAll(f, recs, a, requests) <==> h in f || h in requests
    ensures StoreAt(SendAll(f, recs, a, requests), h)
            == if h in requests then ReceivedStore(StoreAt(f, h), recs, ListAt(a, h), requests[h]) else StoreAt(f, h)
  {
    if h in requests {
      RecordedAllRead(ListingsAt(f, h), Configs(recs, Prefix(ListAt(a, h), requests[h])));
    }
  }

  lemma SendAllListings(f: Fleet, recs: Records, a: Assignment, requests: map<Endpoint, nat>, h: Endpoint)
    ensures h in SendAll(f, recs, a, requests) <==> h in f || h in requests
    ensures ListingsAt(SendAll(f, recs, a, requests), h)
            == if h in requests then Received(ListingsAt(f, h), recs, ListAt(a, h), requests[h]) else ListingsAt(f, h)
  {
  }

  lemma HostStoreGrows(workloads: map<Endpoint, string>, recs: Records, rules: seq<Rule>, h: Endpoint, st: Store)
    requires HostStore(workloads, recs, h, st)
    ensures HostStore(workloads, Compile(recs, rules), h, st)
  {
    CompileGrows(recs, rules);
  }

  lemma StepKeepsGrouped(workloads: map<Endpoint, string>, s: Center, c: Call)
    requires Grouped(workloads, s.recs, s.lists) && ValidCall(workloads, s, c)
    ensures Grouped(workloads, Step(workloads, s, c).recs, Step(workloads, s, c).lists)
    ensures forall e :: e in c.order ==> e in ListAt(Step(workloads, s, c).lists, HostOf(workloads, e))
  {
    CompileGrows(s.recs, c.rules);
    AssignGrouped(workloads, Compile(s.recs, c.rules), s.lists, c.order);
    forall e | e in c.order { AssignListsAll(workloads, s.lists, c.order, e); }
  }

  lemma SendKeepsHostStore(workloads: map<Endpoint, string>, f: Fleet, recs: Records, a: Assignment,
                           requests: map<Endpoint, nat>, h: Endpoint)
    requires HostStore(workloads, recs, h, StoreAt(f, h))
    requires forall v :: v in ListAt(a, h) ==> HostOf(workloads, v) == h && v in recs
    ensures HostStore(workloads, recs, h, StoreAt(SendAll(f, recs, a, requests), h))
  {
    SendAllAt(f, recs, a, requests, h);
    if h in requests {
      ReceivedKeepsHostStore(workloads, recs, h, StoreAt(f, h), ListAt(a, h), requests[h]);
    }
  }

  lemma StepKeepsConsistent(workloads: map<Endpoint, string>, s: Center, c: Call)
    requires Consistent(workloads, s) && ValidCall(workloads, s, c)
    ensures Consistent(workloads, Step(workloads, s, c))
  {
    var s' := Step(workloads, s, c);
    StepKeepsGrouped(workloads, s, c);
    forall h: Endpoint ensures HostStore(workloads, s'.recs, h, StoreAt(s'.fleet, h)) {
      HostStoreGrows(workloads, s.recs, c.rules, h, StoreAt(s.fleet, h));
      SendKeepsHostStore(workloads, s.fleet, s'.recs, s'.lists, c.requests, h);
    }
  }

  lemma {:induction false} RunConsistent(workloads: map<Endpoint, string>, calls: seq<Call>)
    requires ValidRun(workloads, calls)
    ensures Consistent(workloads, Run(workloads, calls))
    ensures Run(workloads, calls).recs == Compile(map[], AllRules(calls))
  {
    if calls != [] {
      var init, last := calls[..|calls| - 1], calls[|calls| - 1];
      RunConsistent(workloads, init);
      StepKeepsConsistent(workloads, Run(workloads, init), last);
      CompileConcat(map[], AllRules(init), last.rules);
    }
  }

  /** After any history of partly lost requests, one call that reaches every host leaves each
      interface's row on its own host and nowhere else, with the contents of the rule-by-rule deployment. */
  lemma RegisterConverges(workloads: map<Endpoint, string>, calls: seq<Call>, c: Call, h: Endpoint, v: Endpoint)
    requires ValidRun(workloads, calls) && Complete(workloads, Run(workloads, calls), c)
    ensures var st := StoreAt(Step(workloads, Run(workloads, calls), c).fleet, h);
            var d := Deploy(map[], AllRules(calls) + c.rules);
            && (v in st <==> v in d && if v in workloads && workloads[v] != "" then h == workloads[v] else h == v)
            && (v in st ==> st[v] == d[v])
  {
    var s := Run(workloads, calls);
    var s' := Step(workloads, s, c);
    RunConsistent(workloads, calls);
    StepKeepsConsistent(workloads, s, c);
    CompileConcat(map[], AllRules(calls), c.rules);
    CompileFromNothing(AllRules(calls) + c.rules);
    assert HostStore(workloads, s'.recs, h, StoreAt(s'.fleet, h));
    if v in s'.recs && HostOf(workloads, v) == h {
      CompleteRow(workloads, s, c, v);
    }
  }

  lemma CompleteStore(workloads: map<Endpoint, string>, s: Center, c: Call, h: Endpoint)
    requires Complete(workloads, s, c) && h in Step(workloads, s, c).lists
    ensures var s' := Step(workloads, s, c);
            StoreAt(s'.fleet, h) == RegisteredAll(StoreAt(s.fleet, h), Configs(s'.recs, s'.lists[h]))
  {
    var s' := Step(workloads, s, c);
    var list := s'.lists[h];
    assert list[..|list|] == list;
    SendAllAt(s.fleet, s'.recs, s'.lists, c.requests, h);
  }

  lemma CompleteRow(workloads: map<Endpoint, string>, s: Center, c: Call, v: Endpoint)
    requires Consistent(workloads, s) && Complete(workloads, s, c)
    requires v in Compile(s.recs, c.rules)
    ensures var st := StoreAt(Step(workloads, s, c).fleet, HostOf(workloads, v));
            v in st && st[v] == Meaning(Compile(s.recs, c.rules)[v])
  {
    var h := HostOf(workloads, v);
    StepKeepsGrouped(workloads, s, c);
    assert v in c.order;
    assert h in Step(workloads, s, c).lists;
    CompleteStore(workloads, s, c, h);
    HostStoreGrows(workloads, s.recs, c.rules, h, StoreAt(s.fleet, h));
    SettledRow(workloads, Step(workloads, s, c).recs, h, StoreAt(s.fleet, h), Step(workloads, s, c).lists[h], v);
  }

  lemma SettledRow(workloads: map<Endpoint, string>, recs: Records, h: Endpoint, st: Store, list: seq<Endpoint>,
                   v: Endpoint)
    requires HostStore(workloads, recs, h, st) && v in list && forall e :: e in list ==> e in recs
    ensures v in RegisteredAll(st, Configs(recs, list)) && RegisteredAll(st, Configs(recs, list))[v] == Meaning(recs[v])
  {
    RegisteredListAt(st, recs, list, v);
    assert Covers(Meaning(recs[v]), At(st, v));
    MergeCovered(Meaning(recs[v]), At(st, v));
  }

  /** The rules a row goes back to: those of all calls up to the last one in which the interface's host
      took a part of its list that names the interface. */
  ghost function Known(workloads: map<Endpoint, string>, calls: seq<Call>, v: Endpoint): seq<Rule>
    requires ValidRun(workloads, calls)
  {
    if calls == [] then []
    else if Took(Run(workloads, calls).lists, calls[|calls| - 1], HostOf(workloads, v), v) then AllRules(calls)
    else Known(workloads, calls[..|calls| - 1], v)
  }

  predicate Took(lists: Assignment, c: Call, h: Endpoint, v: Endpoint) {
    h in c.requests && v in Prefix(ListAt(lists, h), c.requests[h])
  }

  /** Whatever was lost or cut short: each interface's row on its host is the deployment of the rules it
      goes back to. */
  lemma {:induction false} RowAfterRun(workloads: map<Endpoint, string>, calls: seq<Call>, v: Endpoint)
    requires ValidRun(workloads, calls)
    ensures At(StoreAt(Run(workloads, calls).fleet, HostOf(workloads, v)), v)
            == At(Deploy(map[], Known(workloads, calls, v)), v)
  {
    if calls != [] {
      var init, last := calls[..|calls| - 1], calls[|calls| - 1];
      RowAfterRun(workloads, init, v);
      StepRow(workloads, init, last, v);
    }
  }

  lemma StepRow(workloads: map<Endpoint, string>, calls: seq<Call>, c: Call, v: Endpoint)
    requires ValidRun(workloads, calls) && ValidCall(workloads, Run(workloads, calls), c)
    ensures var s, s' := Run(workloads, calls), Step(workloads, Run(workloads, calls), c);
            var h := HostOf(workloads, v);
            At(StoreAt(s'.fleet, h), v)
            == if Took(s'.lists, c, h, v) then At(Deploy(map[], AllRules(calls) + c.rules), v)
               else At(StoreAt(s.fleet, h), v)
  {
    var s, s' := Run(workloads, calls), Step(workloads, Run(workloads, calls), c);
    var h := HostOf(workloads, v);
    SendAllAt(s.fleet, s'.recs, s'.lists, c.requests, h);
    if h in c.requests {
      RegisteredListAt(StoreAt(s.fleet, h), s'.recs, Prefix(ListAt(s'.lists, h), c.requests[h]), v);
    }
    if Took(s'.lists, c, h, v) {
      TookRow(workloads, calls, c, v);
    }
  }

  lemma TookRow(workloads: map<Endpoint, string>, calls: seq<Call>, c: Call, v: Endpoint)
    requires ValidRun(workloads, calls) && ValidCall(workloads, Run(workloads, calls), c)
    requires v in ListAt(Step(workloads, Run(workloads, calls), c).lists, HostOf(workloads, v))
    ensures var recs := Compile(Run(workloads, calls).recs, c.rules);
            && v in recs
            && Meaning(recs[v]) == At(Deploy(map[], AllRules(calls) + c.rules), v)
            && Merge(At(StoreAt(Run(workloads, calls).fleet, HostOf(workloads, v)), v), Meaning(recs[v]))
               == Meaning(recs[v])
  {
    var s, h := Run(workloads, calls), HostOf(workloads, v);
    RunConsistent(workloads, calls);
    StepKeepsGrouped(workloads, s, c);
    CompileConcat(map[], AllRules(calls), c.rules);
    CompileFromNothing(AllRules(calls) + c.rules);
    assert HostStore(workloads, s.recs, h, StoreAt(s.fleet, h));
    HostStoreGrows(workloads, s.recs, c.rules, h, StoreAt(s.fleet, h));
    MergeCovered(Meaning(Compile(s.recs, c.rules)[v]), At(StoreAt(s.fleet, h), v));
  }

  /** The data-center controller refines the basic one: given the same rules, each endpoint's row has
      the contents the basic controller would deploy. It is on the host the map names, or on the endpoint's
      own if the map names none, and nowhere else. */
  lemma RefinesBasic(workloads: map<Endpoint, string>, calls: seq<Call>, c: Call,
                     basic: seq<Deployment.Call>, b: Deployment.Call, h: Endpoint, v: Endpoint)
    requires ValidRun(workloads, calls) && Complete(workloads, Run(workloads, calls), c)
    requires Deployment.ValidRun(basic) && Deployment.Complete(Deployment.Run(basic), b) && b.kind.RegisterCall?
    requires AllRules(calls) + c.rules == Deployment.AllRules(basic) + b.rules
    ensures var dc := StoreAt(Step(workloads, Run(workloads, calls), c).fleet, h);
            var own := StoreAt(Deployment.Step(Deployment.Run(basic), b).fleet, v);
            if (if v in workloads && workloads[v] != "" then h == workloads[v] else h == v)
            then (v in dc <==> v in own) && At(dc, v) == At(own, v)
            else v !in dc
  {
    Deployment.RegisterConverges(basic, b, v);
    RegisterConverges(workloads, calls, c, h, v);
  }

  lemma AssignTwo(workloads: map<Endpoint, string>, a: Endpoint, b: Endpoint, host: Endpoint)
    requires HostOf(workloads, a) == HostOf(workloads, b) == host
    ensures Assign(workloads, map[], [a, b]) == map[host := [a, b]]
  {
    assert [a, b][..1] == [a] && [a][..0] == [];
    assert Assign(workloads, map[], []) == map[];
    assert [] + [a] == [a] && [a] + [b] == [a, b];
    var none: Assignment := map[];
    assert Assign(workloads, map[], [a]) == none[host := [a]] == map[host := [a]];
    assert Assign(workloads, map[], [a, b]) == Assign(workloads, map[], [a])[host := [a, b]];
  }

  lemma OneRuleShared(workloads: map<Endpoint, string>, r: Rule, host: Endpoint)
    requires r.src in workloads && r.dst in workloads && workloads[r.src] == workloads[r.dst] == host
    ensures Complete(workloads, START, Call.Call([r], [r.src, r.dst], map[host := 2]))
    ensures ValidRun(workloads, []) && Run(workloads, []) == START
  {
    assert [r][..0] == [] && Compile(map[], [r]) == CompileRule(map[], r);
    AssignTwo(workloads, r.src, r.dst, host);
  }

  /** Two interfaces of one workload host: both rows are stored there, and neither under its own address. */
  lemma SharedHost()
    ensures var a, b: Endpoint := "10.0.0.1", "10.0.0.2";
            var host: Endpoint := "192.168.1.5";
            var workloads: map<Endpoint, string> := map[a := host, b := host];
            var c := Call.Call([Rule(a, b, 80, TCP, true, ALLOW)], [a, b], map[host := 2]);
            && Complete(workloads, START, c)
            && var f := Step(workloads, START, c).fleet;
               && a in StoreAt(f, host) && b in StoreAt(f, host)
               && a !in StoreAt(f, a) && b !in StoreAt(f, b)
  {
    var a, b: Endpoint := "10.0.0.1", "10.0.0.2";
    var host: Endpoint := "192.168.1.5";
    var workloads: map<Endpoint, string> := map[a := host, b := host];
    var r := Rule(a, b, 80, TCP, true, ALLOW);
    assert |a| != |host| && |b| != |host|;
    OneRuleShared(workloads, r, host);
    SharedRows(workloads, Call.Call([r], [a, b], map[host := 2]), r, host);
  }

  lemma SharedRows(workloads: map<Endpoint, string>, c: Call, r: Rule, host: Endpoint)
    requires ValidRun(workloads, []) && Complete(workloads, START, c) && c.rules == [r]
    requires r.src in workloads && r.dst in workloads && workloads[r.src] == workloads[r.dst] == host
    requires r.src != host && r.dst != host
    ensures var f := Step(workloads, START, c).fleet;
            && r.src in StoreAt(f, host) && r.dst in StoreAt(f, host)
            && r.src !in StoreAt(f, r.src) && r.dst !in StoreAt(f, r.dst)
  {
    assert AllRules([]) + c.rules == [r];
    RuleIsClient([r], r);
    RegisterConverges(workloads, [], c, host, r.src);
    RegisterConverges(workloads, [], c, host, r.dst);
    RegisterConverges(workloads, [], c, r.src, r.src);
    RegisterConverges(workloads, [], c, r.dst, r.dst);
  }
}
