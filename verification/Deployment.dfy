/**
 Runs of one basic controller against a fleet of services: each call compiles its rules into the
 accumulated records and pushes every record to its endpoint, in some order; a push may fail to
 take effect. The theorems say what the fleet holds after such runs.
 */
module Deployment {
  import opened TrafficElements
  import opened ConnectedState
  import opened RuleCompiler

  /** What is stored at every host that was ever reached. */
  type Fleet = map<Endpoint, Listings>

  function ListingsAt(f: Fleet, h: Endpoint): Listings { if h in f then f[h] else map[] }

  /** A host's store under the last-wins reading of its lists. */
  function StoreAt(f: Fleet, h: Endpoint): Store { ReadAll(ListingsAt(f, h)) }

  datatype Kind = RegisterCall | UnregisterCall

  function PushedListings(ls: Listings, kind: Kind, e: Endpoint, x: Listing): Listings {
    match kind
    case RegisterCall => Recorded(ls, e, x)
    case UnregisterCall => Erased(ls, e, x)
  }

  /** The same push under the reading. */
  function Pushed(st: Store, kind: Kind, e: Endpoint, c: Config): Store {
    match kind
    case RegisterCall => Registered(st, e, c)
    case UnregisterCall => Unregistered(st, e, c)
  }

  /** The pushes that take effect, in the order in which they do. */
  function PushAll(f: Fleet, kind: Kind, recs: Records, order: seq<Endpoint>): Fleet
    requires forall e :: e in order ==> e in recs
  {
    if order == [] then f
    else
      var last := order[|order| - 1];
      var g := PushAll(f, kind, recs, order[..|order| - 1]);
      g[last := PushedListings(ListingsAt(g, last), kind, last, ListingOf(recs[last]))]
  }

  ghost predicate Distinct(order: seq<Endpoint>) {
    forall i, j :: 0 <= i < j < |order| ==> order[i] != order[j]
  }

  lemma PushedRead(ls: Listings, kind: Kind, e: Endpoint, x: Listing)
    ensures ReadAll(PushedListings(ls, kind, e, x)) == Pushed(ReadAll(ls), kind, e, ReadOf(x))
  {
    match kind
    case RegisterCall => RecordedRead(ls, e, x);
    case UnregisterCall => ErasedRead(ls, e, x);
  }

  lemma PushLast(f: Fleet, kind: Kind, recs: Records, order: seq<Endpoint>, h: Endpoint)
    requires (forall e :: e in order ==> e in recs) && order != []
    ensures var g, last := PushAll(f, kind, recs, order[..|order| - 1]), order[|order| - 1];
            && (h in PushAll(f, kind, recs, order) <==> h in g || h == last)
            && ListingsAt(PushAll(f, kind, recs, order), h)
               == if h == last then PushedListings(ListingsAt(g, h), kind, h, ListingOf(recs[h])) else ListingsAt(g, h)
  {
  }

  /** What any order of pushes does to one host depends on that host's own push only. */
  lemma {:induction false} PushAllListings(f: Fleet, kind: Kind, recs: Records, order: seq<Endpoint>, h: Endpoint)
    requires (forall e :: e in order ==> e in recs) && Distinct(order)
    ensures h in PushAll(f, kind, recs, order) <==> h in f || h in order
    ensures ListingsAt(PushAll(f, kind, recs, order), h)
            == if h in order then PushedListings(ListingsAt(f, h), kind, h, ListingOf(recs[h])) else ListingsAt(f, h)
  {
    if order != [] {
      var init, last := order[..|order| - 1], order[|order| - 1];
      PushAllListings(f, kind, recs, init, h);
      PushLast(f, kind, recs, order, h);
      assert h in order <==> h in init || h == last;
    }
  }

  lemma PushAllAt(f: Fleet, kind: Kind, recs: Records, order: seq<Endpoint>, h: Endpoint)
    requires (forall e :: e in order ==> e in recs) && Distinct(order)
    ensures h in PushAll(f, kind, recs, order) <==> h in f || h in order
    ensures StoreAt(PushAll(f, kind, recs, order), h)
            == if h in order then Pushed(StoreAt(f, h), kind, h, Meaning(recs[h])) else StoreAt(f, h)
  {
    PushAllListings(f, kind, recs, order, h);
    if h in order {
      PushedRead(ListingsAt(f, h), kind, h, ListingOf(recs[h]));
    }
  }

  lemma SameFleet(f: Fleet, g: Fleet)
    requires f.Keys == g.Keys && forall h: Endpoint :: ListingsAt(f, h) == ListingsAt(g, h)
    ensures f == g
  {
    forall h | h in f ensures f[h] == g[h] {
      assert ListingsAt(f, h) == ListingsAt(g, h);
    }
  }

  /** Confluence: pushes to the same endpoints commute, whatever the interleaving. */
  lemma PushOrderIrrelevant(f: Fleet, kind: Kind, recs: Records, a: seq<Endpoint>, b: seq<Endpoint>)
    requires (forall e :: e in a ==> e in recs) && Distinct(a) && Distinct(b)
    requires forall e :: e in a <==> e in b
    ensures PushAll(f, kind, recs, a) == PushAll(f, kind, recs, b)
  {
    var fa, fb := PushAll(f, kind, recs, a), PushAll(f, kind, recs, b);
    forall h: Endpoint ensures (h in fa <==> h in fb) && ListingsAt(fa, h) == ListingsAt(fb, h) {
      PushAllListings(f, kind, recs, a, h);
      PushAllListings(f, kind, recs, b, h);
    }
    SameFleet(fa, fb);
  }

  // ----- runs of the controller -----

  /** delivered lists the pushes that take effect; the others are lost on the way. */
  datatype Call = Call(kind: Kind, rules: seq<Rule>, delivered: seq<Endpoint>)

  datatype System = System(recs: Records, fleet: Fleet)

  const START: System := System(map[], map[])

  ghost predicate ValidCall(s: System, c: Call) {
    Distinct(c.delivered) && forall e :: e in c.delivered ==> e in Compile(s.recs, c.rules)
  }

  /** Every push of the call takes effect. */
  ghost predicate Complete(s: System, c: Call) {
    ValidCall(s, c) && forall e :: e in Compile(s.recs, c.rules) ==> e in c.delivered
  }

  function Step(s: System, c: Call): System
    requires ValidCall(s, c)
  {
    var recs := Compile(s.recs, c.rules);
    System(recs, PushAll(s.fleet, c.kind, recs, c.delivered))
  }

  ghost predicate ValidRun(calls: seq<Call>)
    decreases |calls|, 0
  {
    calls == [] || (ValidRun(calls[..|calls| - 1]) && ValidCall(Run(calls[..|calls| - 1]), calls[|calls| - 1]))
  }

  ghost function Run(calls: seq<Call>): System
    requires ValidRun(calls)
    decreases |calls|, 1
  {
    if calls == [] then START else Step(Run(calls[..|calls| - 1]), calls[|calls| - 1])
  }

  /** The rules of all calls; those of unregister calls are accumulated like the others. */
  function AllRules(calls: seq<Call>): seq<Rule> {
    if calls == [] then [] else AllRules(calls[..|calls| - 1]) + calls[|calls| - 1].rules
  }

  /** A host's store has at most the host's own row, covered by the controller's record. */
  ghost predicate OwnStore(recs: Records, h: Endpoint, st: Store) {
    forall e :: e in st ==> e == h && e in recs && Covers(Meaning(recs[e]), st[e])
  }

  ghost predicate Consistent(s: System) {
    forall h: Endpoint :: OwnStore(s.recs, h, StoreAt(s.fleet, h))
  }

  lemma PushKeepsOwnStore(recs: Records, rules: seq<Rule>, h: Endpoint, st: Store, kind: Kind)
    requires OwnStore(recs, h, st)
    ensures var recs' := Compile(recs, rules);
            && OwnStore(recs', h, st)
            && (h in recs' ==> OwnStore(recs', h, Pushed(st, kind, h, Meaning(recs'[h]))))
  {
    CompileGrows(recs, rules);
  }

  lemma StepKeepsConsistent(s: System, c: Call)
    requires Consistent(s) && ValidCall(s, c)
    ensures Consistent(Step(s, c))
  {
    var s' := Step(s, c);
    forall h: Endpoint ensures OwnStore(s'.recs, h, StoreAt(s'.fleet, h)) {
      PushAllAt(s.fleet, c.kind, s'.recs, c.delivered, h);
      PushKeepsOwnStore(s.recs, c.rules, h, StoreAt(s.fleet, h), c.kind);
    }
  }

  lemma {:induction false} RunConsistent(calls: seq<Call>)
    requires ValidRun(calls)
    ensures Consistent(Run(calls))
    ensures Run(calls).recs == Compile(map[], AllRules(calls))
  {
    if calls != [] {
      var init, last := calls[..|calls| - 1], calls[|calls| - 1];
      RunConsistent(init);
      StepKeepsConsistent(Run(init), last);
      CompileConcat(map[], AllRules(init), last.rules);
    }
  }

  /** A store holding the row of one endpoint only, if the deployment has one for it. */
  function OwnRow(d: Store, e: Endpoint): Store { if e in d then map[e := d[e]] else map[] }

  lemma MergeCovered(big: Config, small: Config)
    requires Covers(big, small)
    ensures Merge(small, big) == big && Remove(small, big) == EMPTY
  {
  }

  /** One push of the full record, seen from the host it goes to. */
  lemma PushSettles(recs: Records, h: Endpoint, st: Store)
    requires OwnStore(recs, h, st) && h in recs
    ensures Registered(st, h, Meaning(recs[h])) == map[h := Meaning(recs[h])]
    ensures Unregistered(st, h, Meaning(recs[h])) == if h in st then map[h := EMPTY] else map[]
  {
    assert Covers(Meaning(recs[h]), At(st, h));
    MergeCovered(Meaning(recs[h]), At(st, h));
  }

  lemma CompleteStepAt(calls: seq<Call>, c: Call, h: Endpoint)
    requires ValidRun(calls) && Complete(Run(calls), c)
    ensures var recs := Compile(map[], AllRules(calls) + c.rules);
            StoreAt(Step(Run(calls), c).fleet, h)
            == if h !in recs then map[]
               else if c.kind.RegisterCall? then map[h := Meaning(recs[h])]
               else if h in StoreAt(Run(calls).fleet, h) then map[h := EMPTY] else map[]
  {
    var s := Run(calls);
    RunConsistent(calls);
    CompileConcat(map[], AllRules(calls), c.rules);
    var recs := Compile(s.recs, c.rules);
    var st := StoreAt(s.fleet, h);
    PushAllAt(s.fleet, c.kind, recs, c.delivered, h);
    assert OwnStore(s.recs, h, st);
    PushKeepsOwnStore(s.recs, c.rules, h, st, c.kind);
    if h in recs {
      PushSettles(recs, h, st);
    } else {
      assert st == map[];
    }
  }

  /** Self-healing: whatever was lost before, one register call whose pushes all arrive leaves at
      every endpoint exactly what deploying all rules of all calls one by one leaves there. */
  lemma RegisterConverges(calls: seq<Call>, c: Call, e: Endpoint)
    requires ValidRun(calls) && Complete(Run(calls), c) && c.kind.RegisterCall?
    ensures StoreAt(Step(Run(calls), c).fleet, e) == OwnRow(Deploy(map[], AllRules(calls) + c.rules), e)
  {
    CompleteStepAt(calls, c, e);
    CompileFromNothing(AllRules(calls) + c.rules);
  }

  /** The same end state read off the rules directly: a server runs at e exactly if some rule of some
      call is addressed to e, and a client key of e carries the policy of the last rule that matches. */
  lemma DeployedRow(calls: seq<Call>, c: Call, e: Endpoint, s: Server, k: ClientKey, p: Policy)
    requires ValidRun(calls) && Complete(Run(calls), c) && c.kind.RegisterCall?
    ensures var row := At(StoreAt(Step(Run(calls), c).fleet, e), e);
            var rules := AllRules(calls) + c.rules;
            && (s in row.servers <==> exists r :: r in rules && r.dst == e && Server(r.protocol, r.port) == s)
            && ((k in row.clients && row.clients[k] == p)
                <==> exists i: nat :: LastMatch(rules, i, e, k) && Policy(rules[i].connected, rules[i].action) == p)
  {
    var rules := AllRules(calls) + c.rules;
    RegisterConverges(calls, c, e);
    assert At(OwnRow(Deploy(map[], rules), e), e) == At(Deploy(map[], rules), e);
    DeployedServers(rules, e, s);
    DeployedPolicies(rules, e, k, p);
  }

  lemma DeployedPolicies(rules: seq<Rule>, e: Endpoint, k: ClientKey, p: Policy)
    ensures var row := At(Deploy(map[], rules), e);
            (k in row.clients && row.clients[k] == p)
            <==> exists i: nat :: LastMatch(rules, i, e, k) && Policy(rules[i].connected, rules[i].action) == p
  {
    CompileFromNothing(rules);
    CompiledClients(rules, e);
    OutgoingPolicy(rules, e, k, p);
  }

  /** After an unregister call whose pushes all arrive, every row anywhere is empty. */
  lemma UnregisterEmpties(calls: seq<Call>, c: Call, h: Endpoint, e: Endpoint)
    requires ValidRun(calls) && Complete(Run(calls), c) && c.kind.UnregisterCall?
    ensures At(StoreAt(Step(Run(calls), c).fleet, h), e) == EMPTY
    ensures StoreAt(Step(Run(calls), c).fleet, h).Keys == StoreAt(Run(calls).fleet, h).Keys
  {
    CompleteStepAt(calls, c, h);
    StoreBeforeCall(calls, c, h);
  }

  /** A host that was reached before has a record in the next call, and no row but its own. */
  lemma StoreBeforeCall(calls: seq<Call>, c: Call, h: Endpoint)
    requires ValidRun(calls)
    ensures var st := StoreAt(Run(calls).fleet, h);
            st.Keys == if h in st then {h} else {}
    ensures h in StoreAt(Run(calls).fleet, h) ==> h in Compile(map[], AllRules(calls) + c.rules)
  {
    RunConsistent(calls);
    assert OwnStore(Run(calls).recs, h, StoreAt(Run(calls).fleet, h));
    CompileConcat(map[], AllRules(calls), c.rules);
    CompileGrows(Run(calls).recs, c.rules);
  }

  // ----- cross-endpoint closure -----

  /** Every deployed client talks to a server deployed at its destination. */
  ghost predicate Closed(f: Fleet) {
    forall h: Endpoint, k :: k in At(StoreAt(f, h), h).clients ==>
                               Server(k.protocol, k.port) in At(StoreAt(f, k.destination), k.destination).servers
  }

  ghost predicate ClosedStore(d: Store) {
    forall e, k :: e in d && k in d[e].clients ==>
                     k.destination in d && Server(k.protocol, k.port) in d[k.destination].servers
  }

  lemma DeployRuleClosed(d: Store, r: Rule)
    requires ClosedStore(d)
    ensures ClosedStore(DeployRule(d, r))
  {
    var d' := DeployRule(d, r);
    forall e, k | e in d' && k in d'[e].clients
      ensures k.destination in d' && Server(k.protocol, k.port) in d'[k.destination].servers
    {
      if e in d && k in d[e].clients {
        assert Server(k.protocol, k.port) in d[k.destination].servers;
      } else {
        assert k == ClientKey(r.protocol, r.port, r.dst);
      }
    }
  }

  lemma {:induction false} DeployClosed(rules: seq<Rule>)
    ensures ClosedStore(Deploy(map[], rules))
  {
    if rules != [] {
      DeployClosed(rules[..|rules| - 1]);
      DeployRuleClosed(Deploy(map[], rules[..|rules| - 1]), rules[|rules| - 1]);
    }
  }

  /** Closure holds after any call whose pushes all arrive, whatever was lost before it. */
  lemma CompleteCallCloses(calls: seq<Call>, c: Call)
    requires ValidRun(calls) && Complete(Run(calls), c)
    ensures Closed(Step(Run(calls), c).fleet)
  {
    var f := Step(Run(calls), c).fleet;
    forall h: Endpoint, k | k in At(StoreAt(f, h), h).clients
      ensures Server(k.protocol, k.port) in At(StoreAt(f, k.destination), k.destination).servers
    {
      match c.kind
      case RegisterCall =>
        RegisterConverges(calls, c, h);
        RegisterConverges(calls, c, k.destination);
        DeployClosed(AllRules(calls) + c.rules);
      case UnregisterCall =>
        UnregisterEmpties(calls, c, h, h);
    }
  }

  // ----- what any run leaves, lost pushes included -----

  /** The rules a host's row goes back to: those of all calls up to the last one whose push reached the
      host, if that was a register call. */
  function Known(calls: seq<Call>, h: Endpoint): seq<Rule> {
    if calls == [] then []
    else
      var init, last := calls[..|calls| - 1], calls[|calls| - 1];
      if h !in last.delivered then Known(init, h)
      else if last.kind.RegisterCall? then AllRules(calls)
      else []
  }

  /** Every push of every call may be lost or not: each host's own row is the deployment of the rules it
      knows. */
  lemma {:induction false} RowAfterRun(calls: seq<Call>, h: Endpoint)
    requires ValidRun(calls)
    ensures At(StoreAt(Run(calls).fleet, h), h) == At(Deploy(map[], Known(calls, h)), h)
  {
    if calls != [] {
      var init, last := calls[..|calls| - 1], calls[|calls| - 1];
      if h in last.delivered {
        PushedRow(init, last, h);
      } else {
        RowAfterRun(init, h);
        PushAllAt(Run(init).fleet, last.kind, Run(calls).recs, last.delivered, h);
      }
    }
  }

  lemma PushedRow(calls: seq<Call>, c: Call, h: Endpoint)
    requires ValidRun(calls) && ValidCall(Run(calls), c) && h in c.delivered
    ensures At(StoreAt(Step(Run(calls), c).fleet, h), h)
            == if c.kind.RegisterCall? then At(Deploy(map[], AllRules(calls) + c.rules), h) else EMPTY
  {
    var s := Run(calls);
    var recs := Compile(s.recs, c.rules);
    RunConsistent(calls);
    CompileConcat(map[], AllRules(calls), c.rules);
    CompileFromNothing(AllRules(calls) + c.rules);
    PushAllAt(s.fleet, c.kind, recs, c.delivered, h);
    assert OwnStore(s.recs, h, StoreAt(s.fleet, h));
    PushKeepsOwnStore(s.recs, c.rules, h, StoreAt(s.fleet, h), c.kind);
    PushSettles(recs, h, StoreAt(s.fleet, h));
  }

  /** A fleet's rows hold clients and servers of rules the hosts know, and of no others. */
  lemma RowClients(calls: seq<Call>, h: Endpoint, k: ClientKey)
    requires ValidRun(calls)
    ensures k in At(StoreAt(Run(calls).fleet, h), h).clients
            <==> exists r :: r in Known(calls, h) && r.src == h && ClientKey(r.protocol, r.port, r.dst) == k
  {
    RowAfterRun(calls, h);
    DeployedClients(Known(calls, h), h, k);
  }

  lemma RowServers(calls: seq<Call>, h: Endpoint, s: Server)
    requires ValidRun(calls)
    ensures s in At(StoreAt(Run(calls).fleet, h), h).servers
            <==> exists r :: r in Known(calls, h) && r.dst == h && Server(r.protocol, r.port) == s
  {
    RowAfterRun(calls, h);
    DeployedServers(Known(calls, h), h, s);
  }

  lemma RuleDeployed(d: Store, r: Rule, h: Endpoint, k: ClientKey, s: Server)
    ensures k in At(DeployRule(d, r), h).clients
            <==> k in At(d, h).clients || (r.src == h && ClientKey(r.protocol, r.port, r.dst) == k)
    ensures s in At(DeployRule(d, r), h).servers
            <==> s in At(d, h).servers || (r.dst == h && Server(r.protocol, r.port) == s)
  {
  }

  lemma {:induction false} DeployedClients(rules: seq<Rule>, h: Endpoint, k: ClientKey)
    ensures k in At(Deploy(map[], rules), h).clients
            <==> exists r :: r in rules && r.src == h && ClientKey(r.protocol, r.port, r.dst) == k
  {
    if rules != [] {
      var init, last := rules[..|rules| - 1], rules[|rules| - 1];
      DeployedClients(init, h, k);
      RuleDeployed(Deploy(map[], init), last, h, k, Server(last.protocol, last.port));
      assert forall r :: r in rules <==> r in init || r == last;
    }
  }

  lemma {:induction false} DeployedServers(rules: seq<Rule>, h: Endpoint, s: Server)
    ensures s in At(Deploy(map[], rules), h).servers
            <==> exists r :: r in rules && r.dst == h && Server(r.protocol, r.port) == s
  {
    if rules != [] {
      var init, last := rules[..|rules| - 1], rules[|rules| - 1];
      DeployedServers(init, h, s);
      RuleDeployed(Deploy(map[], init), last, h, ClientKey(last.protocol, last.port, last.dst), s);
      assert forall r :: r in rules <==> r in init || r == last;
    }
  }

  /** The host a rule is addressed to knows of a server like the rule's. */
  ghost predicate Served(calls: seq<Call>, r: Rule) {
    exists q :: q in Known(calls, r.dst) && q.dst == r.dst && Server(q.protocol, q.port) == Server(r.protocol, r.port)
  }

  /** With lost pushes closure can fail. After any run the fleet is closed exactly when each rule its
      source knows is served by what its destination knows. */
  lemma ClosedIff(calls: seq<Call>)
    requires ValidRun(calls)
    ensures Closed(Run(calls).fleet) <==> forall r: Rule :: r in Known(calls, r.src) ==> Served(calls, r)
  {
    if Closed(Run(calls).fleet) {
      forall r: Rule | r in Known(calls, r.src) ensures Served(calls, r) { ClosedServes(calls, r); }
    }
    if forall r: Rule :: r in Known(calls, r.src) ==> Served(calls, r) {
      ServedCloses(calls);
    }
  }

  lemma ClosedServes(calls: seq<Call>, r: Rule)
    requires ValidRun(calls) && Closed(Run(calls).fleet) && r in Known(calls, r.src)
    ensures Served(calls, r)
  {
    var f := Run(calls).fleet;
    RowClients(calls, r.src, ClientKey(r.protocol, r.port, r.dst));
    assert ClientKey(r.protocol, r.port, r.dst) in At(StoreAt(f, r.src), r.src).clients;
    RowServers(calls, r.dst, Server(r.protocol, r.port));
  }

  lemma ServedCloses(calls: seq<Call>)
    requires ValidRun(calls) && forall r: Rule :: r in Known(calls, r.src) ==> Served(calls, r)
    ensures Closed(Run(calls).fleet)
  {
    var f := Run(calls).fleet;
    forall h: Endpoint, k | k in At(StoreAt(f, h), h).clients
      ensures Server(k.protocol, k.port) in At(StoreAt(f, k.destination), k.destination).servers
    {
      RowClients(calls, h, k);
      var r :| r in Known(calls, h) && r.src == h && ClientKey(r.protocol, r.port, r.dst) == k;
      assert Served(calls, r);
      RowServers(calls, k.destination, Server(r.protocol, r.port));
    }
  }

  lemma RunOfOne(c: Call)
    requires ValidCall(START, c)
    ensures ValidRun([c]) && Run([c]) == Step(START, c)
  {
    assert [c][..0] == [];
    assert Run([]) == START;
  }

  lemma KnownOfOne(c: Call, h: Endpoint)
    requires c.kind.RegisterCall?
    ensures Known([c], h) == if h in c.delivered then c.rules else []
  {
    assert [c][..0] == [];
    assert AllRules([c]) == AllRules([]) + c.rules == c.rules;
    assert Known([], h) == [];
  }

  /** For a controller's first call: closed exactly when every rule whose source was reached had its
      destination reached too. */
  lemma FirstRegisterClosedIff(c: Call)
    requires ValidCall(START, c) && c.kind.RegisterCall?
    ensures Closed(Step(START, c).fleet)
            <==> forall r :: r in c.rules && r.src in c.delivered ==> r.dst in c.delivered
  {
    RunOfOne(c);
    forall h ensures Known([c], h) == if h in c.delivered then c.rules else [] { KnownOfOne(c, h); }
    ClosedIff([c]);
    if Closed(Step(START, c).fleet) {
      forall r | r in c.rules && r.src in c.delivered ensures r.dst in c.delivered {
        assert r in Known([c], r.src);
        assert Served([c], r);
      }
    }
    if forall r :: r in c.rules && r.src in c.delivered ==> r.dst in c.delivered {
      forall r: Rule | r in Known([c], r.src) ensures Served([c], r) {
        assert r in Known([c], r.dst);
      }
    }
  }

  /** One rule whose push reached its source only. */
  lemma LostServerNotClosed()
    ensures var src, dst: Endpoint := "10.0.0.1", "10.0.0.2";
            var c := Call(RegisterCall, [Rule(src, dst, 5649, TCP, true, ALLOW)], [src]);
            ValidRun([c]) && !Closed(Run([c]).fleet)
  {
    var src, dst: Endpoint := "10.0.0.1", "10.0.0.2";
    var r := Rule(src, dst, 5649, TCP, true, ALLOW);
    var c := Call(RegisterCall, [r], [src]);
    assert [c][..0] == [];
    assert [r][..0] == [];
    assert "10.0.0.1"[7] != "10.0.0.2"[7];
    assert Compile(map[], [r]) == CompileRule(map[], r);
    FirstRegisterClosedIff(c);
  }

  lemma {:induction false} RuleIsClient(rules: seq<Rule>, r: Rule)
    requires r in rules
    ensures r.src in Deploy(map[], rules) && ClientKey(r.protocol, r.port, r.dst) in Deploy(map[], rules)[r.src].clients
    ensures r.dst in Deploy(map[], rules) && Server(r.protocol, r.port) in Deploy(map[], rules)[r.dst].servers
  {
    if rules[|rules| - 1] != r {
      RuleIsClient(rules[..|rules| - 1], r);
    }
  }

  lemma {:induction false} RulesOfCall(calls: seq<Call>, i: nat, r: Rule)
    requires i < |calls| && r in calls[i].rules
    ensures r in AllRules(calls)
  {
    if i < |calls| - 1 {
      RulesOfCall(calls[..|calls| - 1], i, r);
    }
  }

  /** Unregistering is forgotten: the rules of an unregister call are back, server and client, after
      the next complete register call, whatever that call's own rules are. */
  lemma UnregisteredRulesReturn(calls: seq<Call>, c: Call, i: nat, r: Rule)
    requires ValidRun(calls) && Complete(Run(calls), c) && c.kind.RegisterCall?
    requires i < |calls| && calls[i].kind.UnregisterCall? && r in calls[i].rules
    ensures var f := Step(Run(calls), c).fleet;
            && Server(r.protocol, r.port) in At(StoreAt(f, r.dst), r.dst).servers
            && ClientKey(r.protocol, r.port, r.dst) in At(StoreAt(f, r.src), r.src).clients
  {
    RulesOfCall(calls, i, r);
    RuleIsClient(AllRules(calls) + c.rules, r);
    RegisterConverges(calls, c, r.src);
    RegisterConverges(calls, c, r.dst);
  }
}
