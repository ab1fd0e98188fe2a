/**
 Compilation of a rule list into one traffic record per endpoint, and what it means.
 A record keeps its servers without repetition; its client list keeps every rule, because the
 duplicate check looks a three-tuple up in a list of five-tuples and never finds one.
 */
module RuleCompiler {
  import opened TrafficElements
  import opened ConnectedState

  type Records = map<Endpoint, Row>

  function ServerOf(r: Rule): Server { Server(r.protocol, r.port) }

  function ClientOf(r: Rule): Client { Client(r.protocol, r.port, r.dst, r.connected, r.action) }

  function AddServer(row: Row, s: Server): Row {
    if s in row.servers then row else row.(servers := row.servers + [s])
  }

  function AddClient(row: Row, c: Client): Row { row.(clients := row.clients + [c]) }

  function Ensure(recs: Records, e: Endpoint): Records { if e in recs then recs else recs[e := Row([], [])] }

  function CompileRule(recs: Records, r: Rule): Records {
    var known := Ensure(Ensure(recs, r.src), r.dst);
    var served := known[r.dst := AddServer(known[r.dst], ServerOf(r))];
    served[r.src := AddClient(served[r.src], ClientOf(r))]
  }

  /** Records persist between calls: compiling continues from those at hand. */
  function Compile(recs: Records, rules: seq<Rule>): Records {
    if rules == [] then recs else CompileRule(Compile(recs, rules[..|rules| - 1]), rules[|rules| - 1])
  }

  lemma {:induction false} CompileConcat(recs: Records, a: seq<Rule>, b: seq<Rule>)
    ensures Compile(recs, a + b) == Compile(Compile(recs, a), b)
  {
    if b == [] {
      assert a + b == a;
    } else {
      CompileConcat(recs, a, b[..|b| - 1]);
      assert (a + b)[..|a + b| - 1] == a + b[..|b| - 1];
    }
  }

  // ----- the reference reading of a rule list -----

  predicate Mentions(r: Rule, e: Endpoint) { r.src == e || r.dst == e }

  /** The clients of an endpoint: its outgoing rules in order. */
  function Outgoing(rules: seq<Rule>, e: Endpoint): seq<Client> {
    if rules == [] then []
    else
      var init, last := Outgoing(rules[..|rules| - 1], e), rules[|rules| - 1];
      if last.src == e then init + [ClientOf(last)] else init
  }

  lemma {:induction false} CompiledDomain(rules: seq<Rule>, e: Endpoint)
    ensures e in Compile(map[], rules) <==> exists r :: r in rules && Mentions(r, e)
  {
    if rules != [] {
      var init, last := rules[..|rules| - 1], rules[|rules| - 1];
      CompiledDomain(init, e);
      assert forall r :: r in rules <==> r in init || r == last;
      if Mentions(last, e) {
        assert last in rules;
      }
    }
  }

  lemma {:induction false} CompiledServers(rules: seq<Rule>, e: Endpoint, s: Server)
    requires e in Compile(map[], rules)
    ensures s in Compile(map[], rules)[e].servers
            <==> exists r :: r in rules && r.dst == e && Server(r.protocol, r.port) == s
  {
    var init, last := rules[..|rules| - 1], rules[|rules| - 1];
    assert forall r :: r in rules <==> r in init || r == last;
    if e in Compile(map[], init) {
      CompiledServers(init, e, s);
    } else {
      CompiledDomain(init, e);
      forall r | r in init ensures r.dst != e {
        assert !Mentions(r, e);
      }
    }
  }

  lemma {:induction false} CompiledClients(rules: seq<Rule>, e: Endpoint)
    ensures var recs := Compile(map[], rules);
            if e in recs
            then && recs[e].clients == Outgoing(rules, e)
                 && forall i, j :: 0 <= i < j < |recs[e].servers| ==> recs[e].servers[i] != recs[e].servers[j]
            else Outgoing(rules, e) == []
  {
    if rules != [] {
      CompiledClients(rules[..|rules| - 1], e);
    }
  }

  lemma RecordOf(rules: seq<Rule>, e: Endpoint)
    ensures e in Compile(map[], rules) <==> exists r :: r in rules && Mentions(r, e)
    ensures e in Compile(map[], rules) ==>
              var row := Compile(map[], rules)[e];
              && (forall s :: s in row.servers
                              <==> exists r :: r in rules && r.dst == e && Server(r.protocol, r.port) == s)
              && (forall i, j :: 0 <= i < j < |row.servers| ==> row.servers[i] != row.servers[j])
              && row.clients == Outgoing(rules, e)
  {
    CompiledDomain(rules, e);
    CompiledClients(rules, e);
    if e in Compile(map[], rules) {
      forall s { CompiledServers(rules, e, s); }
    }
  }

  /** The places of the rules that leave the endpoint. */
  function Places(rules: seq<Rule>, e: Endpoint): seq<nat> {
    if rules == [] then []
    else
      var n := |rules| - 1;
      if rules[n].src == e then Places(rules[..n], e) + [n] else Places(rules[..n], e)
  }

  lemma {:induction false} PlacesInOrder(rules: seq<Rule>, e: Endpoint)
    ensures forall i, j :: 0 <= i < j < |Places(rules, e)| ==> Places(rules, e)[i] < Places(rules, e)[j]
    ensures forall i: nat :: i in Places(rules, e) <==> i < |rules| && rules[i].src == e
    ensures forall j :: 0 <= j < |Places(rules, e)| ==> Places(rules, e)[j] < |rules|
  {
    if rules != [] {
      var n := |rules| - 1;
      PlacesInOrder(rules[..n], e);
      assert forall j :: 0 <= j < |Places(rules[..n], e)| ==> Places(rules[..n], e)[j] in Places(rules[..n], e);
    }
  }

  lemma {:induction false} OutgoingEntries(rules: seq<Rule>, e: Endpoint)
    ensures |Outgoing(rules, e)| == |Places(rules, e)|
    ensures forall j :: 0 <= j < |Places(rules, e)| ==>
              && Places(rules, e)[j] < |rules|
              && var r := rules[Places(rules, e)[j]];
                 Outgoing(rules, e)[j] == Client(r.protocol, r.port, r.dst, r.connected, r.action)
  {
    if rules != [] {
      var n := |rules| - 1;
      OutgoingEntries(rules[..n], e);
    }
  }

  /** A record says what the rules say: it exists for every endpoint mentioned, lists each server the
      endpoint must run once, and has one client for each of the endpoint's outgoing rules, which are at the
      places given, in order and with all the rule's fields. */
  lemma CompiledRecord(rules: seq<Rule>, e: Endpoint) returns (at: seq<nat>)
    ensures forall i, j :: 0 <= i < j < |at| ==> at[i] < at[j]
    ensures forall i: nat :: i in at <==> i < |rules| && rules[i].src == e
    ensures e in Compile(map[], rules) <==> exists r :: r in rules && (r.src == e || r.dst == e)
    ensures e in Compile(map[], rules) ==>
              var row := Compile(map[], rules)[e];
              && (forall s :: s in row.servers
                              <==> exists r :: r in rules && r.dst == e && Server(r.protocol, r.port) == s)
              && (forall i, j :: 0 <= i < j < |row.servers| ==> row.servers[i] != row.servers[j])
              && |row.clients| == |at|
              && (forall j :: 0 <= j < |at| ==>
                    && at[j] < |rules|
                    && var r := rules[at[j]];
                       row.clients[j] == Client(r.protocol, r.port, r.dst, r.connected, r.action))
  {
    at := Places(rules, e);
    PlacesInOrder(rules, e);
    OutgoingEntries(rules, e);
    RecordOf(rules, e);
    assert forall r :: Mentions(r, e) <==> r.src == e || r.dst == e;
  }

  /** The i-th rule sends from e with the protocol, port and destination of k, and no later rule of e does. */
  ghost predicate LastMatch(rules: seq<Rule>, i: nat, e: Endpoint, k: ClientKey) {
    && i < |rules| && rules[i].src == e && ClientKey(rules[i].protocol, rules[i].port, rules[i].dst) == k
    && forall j :: i < j < |rules| && rules[j].src == e ==>
         ClientKey(rules[j].protocol, rules[j].port, rules[j].dst) != k
  }

  lemma {:induction false} OutgoingPolicy(rules: seq<Rule>, e: Endpoint, k: ClientKey, p: Policy)
    ensures (k in LastWins(Outgoing(rules, e)) && LastWins(Outgoing(rules, e))[k] == p)
            <==> exists i: nat :: LastMatch(rules, i, e, k) && Policy(rules[i].connected, rules[i].action) == p
  {
    if rules != [] {
      var n := |rules| - 1;
      var init, last := rules[..n], rules[n];
      OutgoingPolicy(init, e, k, p);
      var before := Outgoing(init, e);
      assert (before + [ClientOf(last)])[..|before|] == before;
      if last.src == e && ClientKey(last.protocol, last.port, last.dst) == k {
        assert LastMatch(rules, n, e, k);
      } else {
        forall i: nat ensures LastMatch(init, i, e, k) <==> LastMatch(rules, i, e, k) {
          assert forall j :: 0 <= j < n ==> rules[j] == init[j];
        }
        forall i: nat | LastMatch(init, i, e, k) ensures rules[i] == init[i] {
        }
      }
    }
  }

  // ----- deploying rules one by one, straight into the stores -----

  function DeployRule(st: Store, r: Rule): Store {
    Registered(Registered(st, r.dst, Config({ServerOf(r)}, map[])),
               r.src, Config({}, map[KeyOf(ClientOf(r)) := PolicyOf(ClientOf(r))]))
  }

  function Deploy(st: Store, rules: seq<Rule>): Store {
    if rules == [] then st else DeployRule(Deploy(st, rules[..|rules| - 1]), rules[|rules| - 1])
  }

  function MeaningAll(recs: Records): Store { map e | e in recs :: Meaning(recs[e]) }

  lemma AddMeaning(row: Row, s: Server, c: Client)
    ensures Meaning(AddServer(row, s)) == Merge(Meaning(row), Config({s}, map[]))
    ensures Meaning(AddClient(row, c)) == Merge(Meaning(row), Config({}, map[KeyOf(c) := PolicyOf(c)]))
  {
    assert (row.clients + [c])[..|row.clients|] == row.clients;
    assert Meaning(AddServer(row, s)).servers == Meaning(row).servers + {s};
    assert Meaning(AddClient(row, c)).clients == Meaning(row).clients + map[KeyOf(c) := PolicyOf(c)];
    assert Meaning(AddClient(row, c)).servers == Meaning(row).servers + {};
  }

  lemma EnsureMeaning(recs: Records, e: Endpoint)
    ensures MeaningAll(Ensure(recs, e)) == MeaningAll(recs)[e := At(MeaningAll(recs), e)]
  {
    assert Meaning(Row([], [])) == EMPTY;
  }

  lemma UpdateMeaning(recs: Records, e: Endpoint, row: Row)
    ensures MeaningAll(recs[e := row]) == MeaningAll(recs)[e := Meaning(row)]
  {
  }

  lemma CompileRuleMeaning(recs: Records, r: Rule)
    ensures MeaningAll(CompileRule(recs, r)) == DeployRule(MeaningAll(recs), r)
  {
    var known := Ensure(Ensure(recs, r.src), r.dst);
    var served := known[r.dst := AddServer(known[r.dst], ServerOf(r))];
    EnsureMeaning(recs, r.src);
    EnsureMeaning(Ensure(recs, r.src), r.dst);
    AddMeaning(known[r.dst], ServerOf(r), ClientOf(r));
    AddMeaning(served[r.src], ServerOf(r), ClientOf(r));
    UpdateMeaning(known, r.dst, AddServer(known[r.dst], ServerOf(r)));
    UpdateMeaning(served, r.src, AddClient(served[r.src], ClientOf(r)));
    SameUpdates(MeaningAll(recs), r);
  }

  /** Creating both rows first makes no difference to deploying a rule. */
  lemma SameUpdates(st: Store, r: Rule)
    ensures DeployRule(st[r.src := At(st, r.src)][r.dst := At(st[r.src := At(st, r.src)], r.dst)], r)
            == DeployRule(st, r)
  {
  }

  /** Compilation preserves meaning: the records denote what deploying the rules one by one gives. */
  lemma {:induction false} CompileMeaning(recs: Records, rules: seq<Rule>)
    ensures MeaningAll(Compile(recs, rules)) == Deploy(MeaningAll(recs), rules)
  {
    if rules != [] {
      CompileMeaning(recs, rules[..|rules| - 1]);
      CompileRuleMeaning(Compile(recs, rules[..|rules| - 1]), rules[|rules| - 1]);
    }
  }

  lemma CompileFromNothing(rules: seq<Rule>)
    ensures MeaningAll(Compile(map[], rules)) == Deploy(map[], rules)
  {
    CompileMeaning(map[], rules);
    assert MeaningAll(map[]) == map[];
  }

  /** Records only grow, in what they mean as well as in what they cover. */
  ghost predicate Covers(big: Config, small: Config) {
    small.servers <= big.servers && small.clients.Keys <= big.clients.Keys
  }

  lemma {:induction false} CompileGrows(recs: Records, rules: seq<Rule>)
    ensures recs.Keys <= Compile(recs, rules).Keys
    ensures forall e :: e in recs ==> Covers(Meaning(Compile(recs, rules)[e]), Meaning(recs[e]))
  {
    if rules != [] {
      var init := Compile(recs, rules[..|rules| - 1]);
      var last := rules[|rules| - 1];
      CompileGrows(recs, rules[..|rules| - 1]);
      CompileRuleMeaning(init, last);
      forall e | e in init ensures Covers(Meaning(CompileRule(init, last)[e]), Meaning(init[e])) {
        assert MeaningAll(CompileRule(init, last))[e] == DeployRule(MeaningAll(init), last)[e];
        assert MeaningAll(init)[e] == Meaning(init[e]);
      }
    }
  }
}
