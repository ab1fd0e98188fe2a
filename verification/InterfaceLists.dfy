/**
 The client lists the hosts store after a run of the data-center controller. Every entry of a host's list
 that is taken counts, so an interface's row keeps overridden rules only while one entry ever named it.
 */
module InterfaceLists {
  import opened TrafficElements
  import opened ConnectedState
  import opened RuleCompiler
  import opened TrafficApp
  import opened DataCenterDeployment
  import opened HostLists
  import D = Deployment

  /** How often a list names an interface. */
  function Named(list: seq<Endpoint>, v: Endpoint): nat {
    if list == [] then 0 else Named(list[..|list| - 1], v) + if list[|list| - 1] == v then 1 else 0
  }

  lemma {:induction false} NamedIff(list: seq<Endpoint>, v: Endpoint)
    ensures Named(list, v) > 0 <==> v in list
  {
    if list != [] {
      NamedIff(list[..|list| - 1], v);
      assert list == list[..|list| - 1] + [list[|list| - 1]];
    }
  }

  /** The client list of a row after k entries that name it. */
  function ClientsAfter(ls: Listings, v: Endpoint, all: seq<Client>, k: nat): seq<Client>
    requires v in ls || k > 0
  {
    if k == 0 then ls[v].clients
    else if v in ls then Dict(ls[v].clients + all)
    else if k == 1 then all
    else Dict(all)
  }

  lemma OneEntryMore(ls: Listings, v: Endpoint, all: seq<Client>, k: nat)
    requires v in ls || k > 0
    ensures ClientsAfter(ls, v, all, k + 1) == Dict(ClientsAfter(ls, v, all, k) + all)
  {
    ReadAgain(if v in ls then ls[v].clients else [], all);
  }

  /** A list taken by a host, seen at one row. */
  lemma {:induction false} RecordedListAt(ls: Listings, recs: Records, list: seq<Endpoint>, v: Endpoint)
    ensures var ls', k := RecordedAll(ls, Configs(recs, list)), Named(list, v);
            && (v in ls' <==> v in ls || k > 0)
            && (v in ls' ==> ls'[v].clients == ClientsAfter(ls, v, RowOf(recs, v).clients, k))
  {
    if list != [] {
      var n := |list| - 1;
      RecordedListAt(ls, recs, list[..n], v);
      assert Configs(recs, list)[..n] == Configs(recs, list[..n]);
      var k := Named(list[..n], v);
      if list[n] == v && (v in ls || k > 0) {
        OneEntryMore(ls, v, RowOf(recs, v).clients, k);
      }
    }
  }

  // ----- runs -----

  function TakenOf(lists: Assignment, c: Call, h: Endpoint): seq<Endpoint> {
    if h in c.requests then Prefix(ListAt(lists, h), c.requests[h]) else []
  }

  /** The entries naming the interface that its host ever took. */
  ghost function Arrivals(workloads: map<Endpoint, string>, calls: seq<Call>, v: Endpoint): nat
    requires ValidRun(workloads, calls)
  {
    if calls == [] then 0
    else
      Arrivals(workloads, calls[..|calls| - 1], v)
      + Named(TakenOf(Run(workloads, calls).lists, calls[|calls| - 1], HostOf(workloads, v)), v)
  }

  ghost function StoredClients(workloads: map<Endpoint, string>, calls: seq<Call>, v: Endpoint): seq<Client>
    requires ValidRun(workloads, calls)
  {
    var outgoing := Outgoing(Known(workloads, calls, v), v);
    if Arrivals(workloads, calls, v) == 1 then outgoing else Dict(outgoing)
  }

  lemma {:induction false} KnownPrefix(workloads: map<Endpoint, string>, calls: seq<Call>, v: Endpoint)
    requires ValidRun(workloads, calls)
    ensures Known(workloads, calls, v) <= AllRules(calls)
  {
    if calls != [] { KnownPrefix(workloads, calls[..|calls| - 1], v); }
  }

  lemma StoredBefore(workloads: map<Endpoint, string>, calls: seq<Call>, rules: seq<Rule>, v: Endpoint)
    requires ValidRun(workloads, calls)
    ensures var l, all := StoredClients(workloads, calls, v), Outgoing(AllRules(calls) + rules, v);
            Dict(l + all) == Dict(all)
  {
    var outgoing, all := Outgoing(Known(workloads, calls, v), v), Outgoing(AllRules(calls) + rules, v);
    KnownPrefix(workloads, calls, v);
    PrefixBegins(Known(workloads, calls, v), AllRules(calls), rules, v);
    DictOfPrefix(outgoing, all);
    DictNested(outgoing, all);
  }

  lemma ListingAfterStep(workloads: map<Endpoint, string>, calls: seq<Call>, c: Call, v: Endpoint)
    requires ValidRun(workloads, calls) && ValidCall(workloads, Run(workloads, calls), c)
    ensures var s, s', h := Run(workloads, calls), Step(workloads, Run(workloads, calls), c), HostOf(workloads, v);
            var ls, ls', k := D.ListingsAt(s.fleet, h), D.ListingsAt(s'.fleet, h), Named(TakenOf(s'.lists, c, h), v);
            && (v in ls' <==> v in ls || k > 0)
            && (v in ls' ==> ls'[v].clients == ClientsAfter(ls, v, Outgoing(AllRules(calls) + c.rules, v), k))
  {
    var s, s', h := Run(workloads, calls), Step(workloads, Run(workloads, calls), c), HostOf(workloads, v);
    RunConsistent(workloads, calls);
    CompileConcat(map[], AllRules(calls), c.rules);
    CompiledClients(AllRules(calls) + c.rules, v);
    SendAllListings(s.fleet, s'.recs, s'.lists, c.requests, h);
    RecordedListAt(D.ListingsAt(s.fleet, h), s'.recs, TakenOf(s'.lists, c, h), v);
  }

  ghost predicate ListIs(workloads: map<Endpoint, string>, calls: seq<Call>, v: Endpoint, ls: Listings)
    requires ValidRun(workloads, calls)
  {
    && (v in ls <==> Arrivals(workloads, calls, v) > 0)
    && (v in ls ==> ls[v].clients == StoredClients(workloads, calls, v))
  }

  lemma StoredOneMore(workloads: map<Endpoint, string>, calls: seq<Call>, v: Endpoint)
    requires calls != [] && ValidRun(workloads, calls)
    ensures var init, last := calls[..|calls| - 1], calls[|calls| - 1];
            var k := Named(TakenOf(Run(workloads, calls).lists, last, HostOf(workloads, v)), v);
            var all := Outgoing(AllRules(calls), v);
            && Arrivals(workloads, calls, v) == Arrivals(workloads, init, v) + k
            && StoredClients(workloads, calls, v)
               == if k == 0 then StoredClients(workloads, init, v)
                  else if Arrivals(workloads, init, v) + k == 1 then all else Dict(all)
  {
    var taken := TakenOf(Run(workloads, calls).lists, calls[|calls| - 1], HostOf(workloads, v));
    NamedIff(taken, v);
  }

  /** After any run, requests lost or cut short: an interface has a row exactly if an entry naming it was ever
      taken. Its client list is every outgoing rule it goes back to, in order, if one entry was; otherwise
      one entry per key, in order of first occurrence, with the policy written last. */
  lemma {:induction false} ListAfterRun(workloads: map<Endpoint, string>, calls: seq<Call>, v: Endpoint)
    requires ValidRun(workloads, calls)
    ensures var ls := D.ListingsAt(Run(workloads, calls).fleet, HostOf(workloads, v));
            && (v in ls <==> Arrivals(workloads, calls, v) > 0)
            && (v in ls ==> ls[v].clients == StoredClients(workloads, calls, v))
  {
    if calls != [] {
      var init, last := calls[..|calls| - 1], calls[|calls| - 1];
      ListAfterRun(workloads, init, v);
      ListingAfterStep(workloads, init, last, v);
      StoredOneMore(workloads, calls, v);
      StoredBefore(workloads, init, last.rules, v);
    }
  }

  /** That list in the rules' own fields. */
  lemma StoredEntries(workloads: map<Endpoint, string>, calls: seq<Call>, v: Endpoint)
    returns (first: seq<nat>, last: seq<nat>)
    requires ValidRun(workloads, calls)
    requires v in D.ListingsAt(Run(workloads, calls).fleet, HostOf(workloads, v))
    ensures EntriesFrom(D.ListingsAt(Run(workloads, calls).fleet, HostOf(workloads, v))[v].clients,
                        Known(workloads, calls, v), v, first, last)
    ensures var rules := Known(workloads, calls, v);
            if Arrivals(workloads, calls, v) == 1 then
              first == last && forall i: nat :: i in first <==> i < |rules| && rules[i].src == v
            else
              && (forall n :: 0 <= n < |first| ==> FirstOfKey(rules, v, first[n]) && LastOfKey(rules, v, last[n]))
              && (forall i: nat :: FirstOfKey(rules, v, i) ==> i in first)
  {
    ListAfterRun(workloads, calls, v);
    var rules := Known(workloads, calls, v);
    if Arrivals(workloads, calls, v) == 1 {
      RawEntries(rules, v);
      first, last := Places(rules, v), Places(rules, v);
    } else {
      first, last := DictEntries(rules, v);
    }
  }

  /** Every entry carries the last matching rule's policy exactly if more than one entry was taken, or no
      rule the row goes back to overrides another. */
  lemma AllCurrentIff(workloads: map<Endpoint, string>, calls: seq<Call>, v: Endpoint)
    requires ValidRun(workloads, calls)
    requires v in D.ListingsAt(Run(workloads, calls).fleet, HostOf(workloads, v))
    ensures AllCurrent(Known(workloads, calls, v), v,
                       D.ListingsAt(Run(workloads, calls).fleet, HostOf(workloads, v))[v].clients)
            <==> Arrivals(workloads, calls, v) != 1 || NoOverride(Known(workloads, calls, v), v)
  {
    ListAfterRun(workloads, calls, v);
    DictIsCurrent(Known(workloads, calls, v), v);
    RawIsCurrentIff(Known(workloads, calls, v), v);
  }
}
