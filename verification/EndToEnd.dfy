/**
 From rules to statistics: the traffic clients of a service ping the lists its store holds, all records go
 through one pipeline, and the count query reports what the rules make of the pings.
 */
module EndToEnd {
  import opened TrafficElements
  import opened ConnectedState
  import opened RuleCompiler
  import opened RecordCounting
  import opened CountingThread
  import opened Repository
  import opened RecordPipeline
  import opened ReportedCounts
  import opened TrafficClient
  import T = TrafficClient
  import opened HostLists
  import D = Deployment
  import DC = DataCenterDeployment
  import I = InterfaceLists

  /** How many of the first t pings ended the way their list entries want. */
  function PingsAsWanted(destinations: seq<Client>, net: nat -> Net, t: nat): nat
    requires t > 0 ==> destinations != []
  {
    if t == 0 then 0
    else PingsAsWanted(destinations, net, t - 1)
         + if AsWanted(destinations[(t - 1) % |destinations|], net(t - 1)) then 1 else 0
  }

  lemma {:induction false} RecordsTally(destinations: seq<Client>, net: nat -> Net, t: nat, ok: bool)
    requires t > 0 ==> destinations != []
    ensures |T.Records(destinations, net, t)| == t
    ensures CountBoth(T.Records(destinations, net, t), ok)
            == if ok then PingsAsWanted(destinations, net, t) else t - PingsAsWanted(destinations, net, t)
  {
    if t > 0 {
      RecordsTally(destinations, net, t - 1, ok);
      var before := T.Records(destinations, net, t - 1);
      assert T.Records(destinations, net, t)[..t - 1] == before;
    }
  }

  // ----- all clients of a service -----

  /** One traffic client: the endpoint it runs for, the list it was started with, what the network does to
      its pings, and how many it has made. */
  datatype Source = Source(home: Endpoint, destinations: seq<Client>, net: nat -> Net, pings: nat)

  predicate Started(sources: seq<Source>) {
    forall i :: 0 <= i < |sources| && sources[i].pings > 0 ==> sources[i].destinations != []
  }

  function AllRecords(sources: seq<Source>): seq<Record>
    requires Started(sources)
  {
    if |sources| == 0 then []
    else T.Records(sources[0].destinations, sources[0].net, sources[0].pings) + AllRecords(sources[1..])
  }

  /** The pings of all clients that ended as their entries want, or those that did not. */
  function AllPings(sources: seq<Source>, ok: bool): int
    requires Started(sources)
  {
    if |sources| == 0 then 0
    else
      var wanted := PingsAsWanted(sources[0].destinations, sources[0].net, sources[0].pings);
      (if ok then wanted else sources[0].pings - wanted) + AllPings(sources[1..], ok)
  }

  /** One client more adds its records and its pings. */
  lemma {:induction false} OneSourceMore(sources: seq<Source>, x: Source, ok: bool)
    requires Started(sources) && (x.pings > 0 ==> x.destinations != [])
    ensures Started(sources + [x])
    ensures AllRecords([]) == [] && AllPings([], ok) == 0
    ensures AllRecords(sources + [x]) == AllRecords(sources) + T.Records(x.destinations, x.net, x.pings)
    ensures AllPings(sources + [x], ok)
            == AllPings(sources, ok) + if ok then PingsAsWanted(x.destinations, x.net, x.pings)
                                       else x.pings - PingsAsWanted(x.destinations, x.net, x.pings)
  {
    assert Started(sources + [x]);
    if |sources| == 0 {
      assert (sources + [x])[1..] == [];
    } else {
      OneSourceMore(sources[1..], x, ok);
      assert (sources + [x])[1..] == sources[1..] + [x];
    }
  }

  lemma {:induction false} AllRecordsTally(sources: seq<Source>, ok: bool)
    requires Started(sources)
    ensures CountBoth(AllRecords(sources), ok) == AllPings(sources, ok)
  {
    if |sources| > 0 {
      AllRecordsTally(sources[1..], ok);
      RecordsTally(sources[0].destinations, sources[0].net, sources[0].pings, ok);
      var first := T.Records(sources[0].destinations, sources[0].net, sources[0].pings);
      CountBothConcat(first, AllRecords(sources[1..]), ok);
    }
  }

  /** Any number of clients and pings whose records were emitted, in whatever order, interleaving and with
      whatever failures: at every moment the statistics report exactly the pings with the outcome asked
      for, but for those under way and those counted since the last commit of their protocol. */
  lemma EveryPingIsCounted(sources: seq<Source>, writers: nat, now: real, steps: seq<Step>,
                           start: real, end: real, ok: bool)
    requires Started(sources) && Schedulable(Init(writers, now), steps)
    requires var s := Execute(Init(writers, now), steps);
             AllInWindow(s, start, end) && multiset(s.emitted) == multiset(AllRecords(sources))
    ensures var s := Execute(Init(writers, now), steps);
            RequestCount(s.counting.counter.rows, ok, start, end) + PendingBoth(s.counting.counter, ok)
            + CountBoth(UnderWay(s), ok) == AllPings(sources, ok)
  {
    InitInv(writers, now);
    ScheduleKeepsInv(Init(writers, now), steps);
    var s := Execute(Init(writers, now), steps);
    EmittedCounts(s, start, end, ok);
    SameTally(s.emitted, AllRecords(sources), ok);
    AllRecordsTally(sources, ok);
  }

  /** Once the pipeline is quiet both sources of the statistics report every ping: the counts up to what
      is pending, the raw tables up to the failed inserts. */
  lemma QuietPingsReported(sources: seq<Source>, writers: nat, now: real, steps: seq<Step>,
                           start: real, end: real, ok: bool)
    requires Started(sources) && Schedulable(Init(writers, now), steps)
    requires var s := Execute(Init(writers, now), steps);
             AllInWindow(s, start, end) && Quiet(s) && multiset(s.emitted) == multiset(AllRecords(sources))
    ensures var s := Execute(Init(writers, now), steps);
            && RequestCount(s.counting.counter.rows, ok, start, end) + PendingBoth(s.counting.counter, ok)
               == RecordCount(if ok then s.successRows else s.faultRows, start, end) + CountBoth(s.failedInserts, ok)
               == AllPings(sources, ok)
            && (AllCommitted(s.counting.counter) ==> PendingBoth(s.counting.counter, ok) == 0)
  {
    InitInv(writers, now);
    ScheduleKeepsInv(Init(writers, now), steps);
    var s := Execute(Init(writers, now), steps);
    QuietCounts(s, start, end, ok);
    SameTally(s.emitted, AllRecords(sources), ok);
    AllRecordsTally(sources, ok);
  }

  // ----- what the rules make of the pings -----

  /** The ping of an entry ended as the last rule of the host with its key wants: not at all if the rule says
      that there is no connection, otherwise exactly if the rule allows the traffic. */
  ghost predicate AsRuled(rules: seq<Rule>, h: Endpoint, c: Client, net: Net) {
    exists i: nat :: LastMatch(rules, i, h, ClientKey(c.protocol, c.port, c.destination))
                     && if rules[i].connected then Reached(c.protocol, net) == (rules[i].action == ALLOW)
                        else !Reached(c.protocol, net)
  }

  ghost function PingsAsRuled(rules: seq<Rule>, s: Source, t: nat): nat
    requires t > 0 ==> s.destinations != []
  {
    if t == 0 then 0
    else PingsAsRuled(rules, s, t - 1)
         + if AsRuled(rules, s.home, s.destinations[(t - 1) % |s.destinations|], s.net(t - 1)) then 1 else 0
  }

  lemma CurrentIsRuled(rules: seq<Rule>, h: Endpoint, c: Client, net: Net)
    requires Current(rules, h, c)
    ensures AsWanted(c, net) <==> AsRuled(rules, h, c, net)
  {
    var i: nat :| LastMatch(rules, i, h, KeyOf(c)) && Policy(rules[i].connected, rules[i].action) == PolicyOf(c);
    forall j: nat | LastMatch(rules, j, h, KeyOf(c)) ensures j == i {
    }
  }

  lemma PingJudged(rules: seq<Rule>, s: Source, j: nat)
    requires s.destinations != [] && AllCurrent(rules, s.home, s.destinations)
    ensures PingOf(s.destinations, s.net, j).success
            <==> AsRuled(rules, s.home, s.destinations[j % |s.destinations|], s.net(j))
  {
    CurrentIsRuled(rules, s.home, s.destinations[j % |s.destinations|], s.net(j));
  }

  lemma {:induction false} PingsJudged(rules: seq<Rule>, s: Source, t: nat)
    requires (t > 0 ==> s.destinations != []) && AllCurrent(rules, s.home, s.destinations)
    ensures PingsAsWanted(s.destinations, s.net, t) == PingsAsRuled(rules, s, t)
  {
    if t > 0 {
      PingsJudged(rules, s, t - 1);
      CurrentIsRuled(rules, s.home, s.destinations[(t - 1) % |s.destinations|], s.net(t - 1));
    }
  }

  /** The client of a host, started with the list its store holds after any run of the controller. If not
      just one register call reached the host, or none of its rules overrides another, its successes are
      the pings that ended as the last matching rules want. */
  lemma HostPingsJudged(calls: seq<D.Call>, s: Source)
    requires D.ValidRun(calls) && s.home in D.ListingsAt(D.Run(calls).fleet, s.home)
    requires s.destinations == D.ListingsAt(D.Run(calls).fleet, s.home)[s.home].clients
    requires s.pings > 0 ==> s.destinations != []
    requires Arrivals(calls, s.home) != 1 || NoOverride(D.Known(calls, s.home), s.home)
    ensures forall j: nat :: j < s.pings ==>
              (PingOf(s.destinations, s.net, j).success
               <==> AsRuled(D.Known(calls, s.home), s.home, s.destinations[j % |s.destinations|], s.net(j)))
    ensures PingsAsWanted(s.destinations, s.net, s.pings) == PingsAsRuled(D.Known(calls, s.home), s, s.pings)
  {
    HostLists.AllCurrentIff(calls, s.home);
    PingsJudged(D.Known(calls, s.home), s, s.pings);
    forall j: nat | j < s.pings { PingJudged(D.Known(calls, s.home), s, j); }
  }

  /** The same for an interface on a host of the data-center controller. */
  lemma InterfacePingsJudged(workloads: map<Endpoint, string>, calls: seq<DC.Call>, s: Source)
    requires DC.ValidRun(workloads, calls)
    requires var ls := D.ListingsAt(DC.Run(workloads, calls).fleet, DC.HostOf(workloads, s.home));
             s.home in ls && s.destinations == ls[s.home].clients
    requires s.pings > 0 ==> s.destinations != []
    requires I.Arrivals(workloads, calls, s.home) != 1 || NoOverride(DC.Known(workloads, calls, s.home), s.home)
    ensures forall j: nat :: j < s.pings ==>
              (PingOf(s.destinations, s.net, j).success
               <==> AsRuled(DC.Known(workloads, calls, s.home), s.home, s.destinations[j % |s.destinations|], s.net(j)))
    ensures PingsAsWanted(s.destinations, s.net, s.pings)
            == PingsAsRuled(DC.Known(workloads, calls, s.home), s, s.pings)
  {
    I.AllCurrentIff(workloads, calls, s.home);
    PingsJudged(DC.Known(workloads, calls, s.home), s, s.pings);
    forall j: nat | j < s.pings { PingJudged(DC.Known(workloads, calls, s.home), s, j); }
  }

  /** Two entries with one key of which one wants traffic and the other does not: whatever the network does,
      as long as it treats them alike, one of the two pings is recorded as wrong. */
  lemma OverriddenPingIsWrong(c: Client, d: Client, x: Net, y: Net)
    requires KeyOf(c) == KeyOf(d) && WantsTraffic(c) != WantsTraffic(d)
    requires Reached(c.protocol, x) == Reached(d.protocol, y)
    ensures Pinged(c, x).success != Pinged(d, y).success
  {
  }

  /** A first register call that allows and then drops the same traffic: the client pings both entries in
      turn, and of any two pings in a row that the network treats alike one is a failure. */
  lemma OverriddenRuleMisreported(net: nat -> Net, j: nat)
    requires Reached(TCP, net(j)) == Reached(TCP, net(j + 1))
    ensures var src, dst: Endpoint := "10.0.0.1", "10.0.0.2";
            var allow, drop := Rule(src, dst, 80, TCP, true, ALLOW), Rule(src, dst, 80, TCP, true, DROP);
            var c := D.Call(D.RegisterCall, [allow, drop], [src, dst]);
            && D.ValidRun([c]) && src in D.ListingsAt(D.Run([c]).fleet, src)
            && var list := D.ListingsAt(D.Run([c]).fleet, src)[src].clients;
               list != [] && PingOf(list, net, j).success != PingOf(list, net, j + 1).success
  {
    OverriddenRuleKept();
    var src, dst: Endpoint := "10.0.0.1", "10.0.0.2";
    var a := Client(TCP, 80, dst, true, ALLOW);
    var b := Client(TCP, 80, dst, true, DROP);
    assert j % 2 == 0 <==> (j + 1) % 2 == 1;
    if j % 2 == 0 {
      OverriddenPingIsWrong(a, b, net(j), net(j + 1));
    } else {
      OverriddenPingIsWrong(b, a, net(j), net(j + 1));
    }
  }
}
