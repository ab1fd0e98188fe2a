/** The topology generators: full mesh, and windows of five neighbours on either side. */
module Topology {
  import opened TrafficElements
  import opened RuleCompiler

  ghost predicate DistinctHosts(hosts: seq<Endpoint>) {
    forall i, j :: 0 <= i < j < |hosts| ==> hosts[i] != hosts[j]
  }

  function AllowRule(src: Endpoint, dst: Endpoint, port: int, p: Protocol): Rule {
    Rule(src, dst, port, p, true, ALLOW)
  }

  // ----- mesh -----

  const MESH_PORT: int := 12345

  function MeshRow(host: Endpoint, destinations: seq<Endpoint>): seq<Rule> {
    if destinations == [] then []
    else
      var init, last := destinations[..|destinations| - 1], destinations[|destinations| - 1];
      MeshRow(host, init) + [AllowRule(host, last, MESH_PORT, TCP), AllowRule(host, last, MESH_PORT, UDP)]
  }

  /** The rules of the first m hosts. */
  function MeshRows(hosts: seq<Endpoint>, m: nat): seq<Rule>
    requires m <= |hosts|
  {
    if m == 0 then [] else MeshRows(hosts, m - 1) + MeshRow(hosts[m - 1], hosts[m..] + hosts[..m - 1])
  }

  method CreateMeshPingTopo(hosts: seq<Endpoint>) returns (rules: seq<Rule>)
    ensures rules == MeshRows(hosts, |hosts|)
  {
    rules := [];
    for i := 0 to |hosts|
      invariant rules == MeshRows(hosts, i)
    {
      var destinations := hosts[i + 1..] + hosts[..i];
      ghost var before := rules;
      for k := 0 to |destinations|
        invariant rules == before + MeshRow(hosts[i], destinations[..k])
      {
        assert destinations[..k + 1][..k] == destinations[..k];
        rules := rules + [AllowRule(hosts[i], destinations[k], MESH_PORT, TCP)];
        rules := rules + [AllowRule(hosts[i], destinations[k], MESH_PORT, UDP)];
      }
      assert destinations[..|destinations|] == destinations;
    }
  }

  predicate IsMeshRule(r: Rule) {
    (r.protocol == TCP || r.protocol == UDP) && r == Rule(r.src, r.dst, 12345, r.protocol, true, ALLOW)
  }

  lemma {:induction false} MeshRowMembers(host: Endpoint, destinations: seq<Endpoint>, r: Rule)
    ensures |MeshRow(host, destinations)| == 2 * |destinations|
    ensures r in MeshRow(host, destinations) <==> IsMeshRule(r) && r.src == host && r.dst in destinations
  {
    if destinations != [] {
      var n := |destinations| - 1;
      MeshRowMembers(host, destinations[..n], r);
      assert destinations == destinations[..n] + [destinations[n]];
    }
  }

  lemma {:induction false} MeshRowDistinct(host: Endpoint, destinations: seq<Endpoint>)
    requires DistinctHosts(destinations)
    ensures forall i, j :: 0 <= i < j < |MeshRow(host, destinations)| ==>
              MeshRow(host, destinations)[i] != MeshRow(host, destinations)[j]
  {
    if destinations != [] {
      var n := |destinations| - 1;
      MeshRowDistinct(host, destinations[..n]);
      var init := MeshRow(host, destinations[..n]);
      forall i | 0 <= i < |init| ensures init[i].dst != destinations[n] {
        MeshRowMembers(host, destinations[..n], init[i]);
      }
    }
  }

  lemma Others(hosts: seq<Endpoint>, m: nat, d: Endpoint)
    requires DistinctHosts(hosts) && 0 < m <= |hosts|
    ensures d in hosts[m..] + hosts[..m - 1] <==> d in hosts && d != hosts[m - 1]
    ensures DistinctHosts(hosts[m..] + hosts[..m - 1]) && |hosts[m..] + hosts[..m - 1]| == |hosts| - 1
  {
    assert hosts == hosts[..m - 1] + [hosts[m - 1]] + hosts[m..];
  }

  lemma OneRowMore(m: int, c: int)
    ensures 2 * m * c == 2 * (m - 1) * c + 2 * c
  {
  }

  lemma {:induction false} MeshLength(hosts: seq<Endpoint>, m: nat)
    requires DistinctHosts(hosts) && m <= |hosts|
    ensures |MeshRows(hosts, m)| == 2 * m * (|hosts| - 1)
  {
    if m > 0 {
      MeshLength(hosts, m - 1);
      Others(hosts, m, hosts[m - 1]);
      MeshRowMembers(hosts[m - 1], hosts[m..] + hosts[..m - 1], AllowRule(hosts[0], hosts[0], 0, HTTP));
      OneRowMore(m, |hosts| - 1);
    }
  }

  lemma {:induction false} MeshMembers(hosts: seq<Endpoint>, m: nat, r: Rule)
    requires DistinctHosts(hosts) && m <= |hosts|
    ensures r in MeshRows(hosts, m) <==> IsMeshRule(r) && r.src in hosts[..m] && r.dst in hosts && r.src != r.dst
  {
    if m > 0 {
      MeshMembers(hosts, m - 1, r);
      Others(hosts, m, r.dst);
      MeshRowMembers(hosts[m - 1], hosts[m..] + hosts[..m - 1], r);
      assert hosts[..m] == hosts[..m - 1] + [hosts[m - 1]];
    }
  }

  lemma {:induction false} MeshDistinct(hosts: seq<Endpoint>, m: nat)
    requires DistinctHosts(hosts) && m <= |hosts|
    ensures forall i, j :: 0 <= i < j < |MeshRows(hosts, m)| ==> MeshRows(hosts, m)[i] != MeshRows(hosts, m)[j]
  {
    if m > 0 {
      var before, row := MeshRows(hosts, m - 1), MeshRow(hosts[m - 1], hosts[m..] + hosts[..m - 1]);
      MeshDistinct(hosts, m - 1);
      Others(hosts, m, hosts[m - 1]);
      MeshRowDistinct(hosts[m - 1], hosts[m..] + hosts[..m - 1]);
      forall i | 0 <= i < |before| ensures before[i].src != hosts[m - 1] {
        MeshMembers(hosts, m - 1, before[i]);
      }
      forall j | 0 <= j < |row| ensures row[j].src == hosts[m - 1] {
        MeshRowMembers(hosts[m - 1], hosts[m..] + hosts[..m - 1], row[j]);
      }
    }
  }

  /** For n distinct hosts the mesh is exactly one TCP and one UDP rule per ordered pair. */
  lemma MeshIsComplete(hosts: seq<Endpoint>, r: Rule)
    requires DistinctHosts(hosts)
    ensures var rules := MeshRows(hosts, |hosts|);
            && |rules| == 2 * |hosts| * (|hosts| - 1)
            && (r in rules <==> && r.src in hosts && r.dst in hosts && r.src != r.dst
                                && (r.protocol == TCP || r.protocol == UDP)
                                && r == Rule(r.src, r.dst, 12345, r.protocol, true, ALLOW))
            && (forall i, j :: 0 <= i < j < |rules| ==> rules[i] != rules[j])
  {
    MeshLength(hosts, |hosts|);
    MeshMembers(hosts, |hosts|, r);
    MeshDistinct(hosts, |hosts|);
    assert hosts[..|hosts|] == hosts;
  }

  /** A host other than e, whose rules make e a server. */
  lemma SomeOther(hosts: seq<Endpoint>, e: Endpoint) returns (other: Endpoint)
    requires DistinctHosts(hosts) && |hosts| >= 2 && e in hosts
    ensures AllowRule(other, e, MESH_PORT, TCP) in MeshRows(hosts, |hosts|)
    ensures AllowRule(other, e, MESH_PORT, UDP) in MeshRows(hosts, |hosts|)
  {
    other := if hosts[0] == e then hosts[1] else hosts[0];
    MeshIsComplete(hosts, AllowRule(other, e, MESH_PORT, TCP));
    MeshIsComplete(hosts, AllowRule(other, e, MESH_PORT, UDP));
  }

  lemma MeshServer(hosts: seq<Endpoint>, e: Endpoint, s: Server)
    requires DistinctHosts(hosts) && |hosts| >= 2 && e in hosts
    ensures (exists r :: r in MeshRows(hosts, |hosts|) && r.dst == e && Server(r.protocol, r.port) == s)
            <==> s in {Server(TCP, MESH_PORT), Server(UDP, MESH_PORT)}
  {
    var rules := MeshRows(hosts, |hosts|);
    if r :| r in rules && r.dst == e && Server(r.protocol, r.port) == s {
      MeshIsComplete(hosts, r);
    }
    if s in {Server(TCP, MESH_PORT), Server(UDP, MESH_PORT)} {
      var other := SomeOther(hosts, e);
      var r := AllowRule(other, e, MESH_PORT, s.protocol);
      assert r in rules && r.dst == e && Server(r.protocol, r.port) == s;
    }
  }

  lemma MeshServers(hosts: seq<Endpoint>, e: Endpoint)
    requires DistinctHosts(hosts) && |hosts| >= 2 && e in hosts
    ensures var recs := Compile(map[], MeshRows(hosts, |hosts|));
            e in recs && forall s :: s in recs[e].servers <==> s in {Server(TCP, MESH_PORT), Server(UDP, MESH_PORT)}
  {
    var rules := MeshRows(hosts, |hosts|);
    var other := SomeOther(hosts, e);
    RecordOf(rules, e);
    assert Mentions(AllowRule(other, e, MESH_PORT, TCP), e);
    forall s ensures s in Compile(map[], rules)[e].servers <==> s in {Server(TCP, MESH_PORT), Server(UDP, MESH_PORT)} {
      CompiledServers(rules, e, s);
      MeshServer(hosts, e, s);
    }
  }

  predicate IsMeshKey(hosts: seq<Endpoint>, e: Endpoint, k: ClientKey) {
    k.protocol in {TCP, UDP} && k.port == MESH_PORT && k.destination in hosts && k.destination != e
  }

  lemma MeshClientKey(hosts: seq<Endpoint>, e: Endpoint, k: ClientKey)
    requires DistinctHosts(hosts) && e in hosts
    ensures k in KeySet(Outgoing(MeshRows(hosts, |hosts|), e)) <==> IsMeshKey(hosts, e, k)
  {
    var rules := MeshRows(hosts, |hosts|);
    OutgoingKeys(rules, e, k);
    if IsMeshKey(hosts, e, k) {
      var r := AllowRule(e, k.destination, MESH_PORT, k.protocol);
      MeshIsComplete(hosts, r);
      assert ClientKey(r.protocol, r.port, r.dst) == k;
    }
    if q :| q in rules && q.src == e && ClientKey(q.protocol, q.port, q.dst) == k {
      MeshIsComplete(hosts, q);
    }
  }

  lemma {:induction false} OutgoingKeys(rules: seq<Rule>, e: Endpoint, k: ClientKey)
    ensures k in KeySet(Outgoing(rules, e))
            <==> exists r :: r in rules && r.src == e && ClientKey(r.protocol, r.port, r.dst) == k
  {
    if rules != [] {
      var init, last := rules[..|rules| - 1], rules[|rules| - 1];
      OutgoingKeys(init, e, k);
      assert forall r :: r in rules <==> r in init || r == last;
      var before := Outgoing(init, e);
      if last.src == e {
        assert KeySet(before + [ClientOf(last)]) == KeySet(before) + {KeyOf(ClientOf(last))};
      }
    }
  }

  /** The number of rules that leave e. */
  function Leaving(rules: seq<Rule>, e: Endpoint): nat {
    if rules == [] then 0 else Leaving(rules[..|rules| - 1], e) + if rules[|rules| - 1].src == e then 1 else 0
  }

  lemma {:induction false} OutgoingLength(rules: seq<Rule>, e: Endpoint)
    ensures |Outgoing(rules, e)| == Leaving(rules, e)
  {
    if rules != [] { OutgoingLength(rules[..|rules| - 1], e); }
  }

  lemma {:induction false} LeavingConcat(a: seq<Rule>, b: seq<Rule>, e: Endpoint)
    ensures Leaving(a + b, e) == Leaving(a, e) + Leaving(b, e)
  {
    if b == [] {
      assert a + b == a;
    } else {
      LeavingConcat(a, b[..|b| - 1], e);
      assert (a + b)[..|a + b| - 1] == a + b[..|b| - 1];
    }
  }

  lemma {:induction false} LeavingRow(row: seq<Rule>, host: Endpoint, e: Endpoint)
    requires forall i :: 0 <= i < |row| ==> row[i].src == host
    ensures Leaving(row, e) == if host == e then |row| else 0
  {
    if row != [] { LeavingRow(row[..|row| - 1], host, e); }
  }

  lemma LeavingMeshRow(host: Endpoint, destinations: seq<Endpoint>, e: Endpoint)
    ensures Leaving(MeshRow(host, destinations), e) == if host == e then 2 * |destinations| else 0
  {
    var row := MeshRow(host, destinations);
    forall j | 0 <= j < |row| ensures row[j].src == host {
      MeshRowMembers(host, destinations, row[j]);
    }
    MeshRowMembers(host, destinations, AllowRule(e, e, 0, HTTP));
    LeavingRow(row, host, e);
  }

  lemma PrefixStep(hosts: seq<Endpoint>, m: nat, e: Endpoint)
    requires DistinctHosts(hosts) && 0 < m <= |hosts|
    ensures e in hosts[..m] <==> e in hosts[..m - 1] || e == hosts[m - 1]
    ensures !(e in hosts[..m - 1] && e == hosts[m - 1])
  {
    assert hosts[..m] == hosts[..m - 1] + [hosts[m - 1]];
  }

  lemma {:induction false} LeavingMesh(hosts: seq<Endpoint>, m: nat, e: Endpoint)
    requires DistinctHosts(hosts) && m <= |hosts|
    ensures Leaving(MeshRows(hosts, m), e) == if e in hosts[..m] then 2 * (|hosts| - 1) else 0
  {
    if m > 0 {
      var others := hosts[m..] + hosts[..m - 1];
      LeavingMesh(hosts, m - 1, e);
      LeavingConcat(MeshRows(hosts, m - 1), MeshRow(hosts[m - 1], others), e);
      LeavingMeshRow(hosts[m - 1], others, e);
      PrefixStep(hosts, m, e);
    }
  }

  lemma TwoServers(servers: seq<Server>, a: Server, b: Server)
    requires a != b && forall s :: s in servers <==> s in {a, b}
    requires forall i, j :: 0 <= i < j < |servers| ==> servers[i] != servers[j]
    ensures |servers| == 2
  {
    assert a in servers && b in servers;
    var i :| 0 <= i < |servers| && servers[i] == a;
    var j :| 0 <= j < |servers| && servers[j] == b;
    if |servers| > 0 { OneOfTwo(servers, i, j, 0); }
    if |servers| > 1 { OneOfTwo(servers, i, j, 1); }
    if |servers| > 2 { OneOfTwo(servers, i, j, 2); }
  }

  lemma OneOfTwo(servers: seq<Server>, i: nat, j: nat, k: nat)
    requires i < |servers| && j < |servers| && k < |servers|
    requires forall s :: s in servers ==> s in {servers[i], servers[j]}
    requires forall i, j :: 0 <= i < j < |servers| ==> servers[i] != servers[j]
    ensures k == i || k == j
  {
    assert servers[k] in servers;
  }

  /** Compiled and deployed, every host of a mesh runs both servers and pings every other host over both
      protocols, and does nothing else. */
  lemma MeshDeployment(hosts: seq<Endpoint>, e: Endpoint)
    requires DistinctHosts(hosts) && |hosts| >= 2 && e in hosts
    ensures var recs := Compile(map[], MeshRows(hosts, |hosts|));
            && e in recs
            && (forall s :: s in recs[e].servers <==> s in {Server(TCP, 12345), Server(UDP, 12345)})
            && (forall k :: k in Meaning(recs[e]).clients
                            <==> && k.protocol in {TCP, UDP} && k.port == 12345
                                 && k.destination in hosts && k.destination != e)
            && |recs[e].servers| == 2 && |recs[e].clients| == 2 * (|hosts| - 1) == |Meaning(recs[e]).clients|
  {
    var rules := MeshRows(hosts, |hosts|);
    MeshServers(hosts, e);
    RecordOf(rules, e);
    var row := Compile(map[], rules)[e];
    TwoServers(row.servers, Server(TCP, MESH_PORT), Server(UDP, MESH_PORT));
    LastWinsKeys(row.clients);
    forall k ensures k in Meaning(row).clients <==> IsMeshKey(hosts, e, k) {
      MeshClientKey(hosts, e, k);
    }
    OutgoingLength(rules, e);
    LeavingMesh(hosts, |hosts|, e);
    assert hosts[..|hosts|] == hosts;
    MeshKeyCount(hosts, e, LastWins(row.clients).Keys);
  }

  /** The mesh keys of one protocol towards some hosts. */
  function KeysTo(p: Protocol, destinations: seq<Endpoint>): (r: set<ClientKey>)
    ensures forall k :: k in r <==> k.protocol == p && k.port == MESH_PORT && k.destination in destinations
    ensures DistinctHosts(destinations) ==> |r| == |destinations|
  {
    if destinations == [] then {}
    else KeysTo(p, destinations[1..]) + {ClientKey(p, MESH_PORT, destinations[0])}
  }

  lemma AllOthers(hosts: seq<Endpoint>, e: Endpoint) returns (others: seq<Endpoint>)
    requires DistinctHosts(hosts) && e in hosts
    ensures DistinctHosts(others) && |others| == |hosts| - 1
    ensures forall d :: d in others <==> d in hosts && d != e
  {
    var i :| 0 <= i < |hosts| && hosts[i] == e;
    others := hosts[i + 1..] + hosts[..i];
    Others(hosts, i + 1, e);
    forall d: Endpoint ensures d in others <==> d in hosts && d != e { Others(hosts, i + 1, d); }
  }

  lemma MeshKeyCount(hosts: seq<Endpoint>, e: Endpoint, keys: set<ClientKey>)
    requires DistinctHosts(hosts) && e in hosts && forall k :: k in keys <==> IsMeshKey(hosts, e, k)
    ensures |keys| == 2 * (|hosts| - 1)
  {
    var others := AllOthers(hosts, e);
    var a, b := KeysTo(TCP, others), KeysTo(UDP, others);
    assert keys == a + b;
    assert a !! b;
  }

  // ----- neighbour windows -----

  const REACH: nat := 5

  const WINDOW_PORTS: seq<int> := [12345, 5432]

  function Reversed(s: seq<Endpoint>): seq<Endpoint> { seq(|s|, i requires 0 <= i < |s| => s[|s| - 1 - i]) }

  function Upto(s: seq<Endpoint>, n: nat): seq<Endpoint> { if n <= |s| then s[..n] else s }

  /** Up to five hosts before, nearest first, then up to five after. */
  function Neighbours(hosts: seq<Endpoint>, i: nat): seq<Endpoint>
    requires i < |hosts|
  {
    Upto(Reversed(hosts[..i]), REACH) + Upto(hosts[i + 1..], REACH)
  }

  function WindowRow(src: Endpoint, destinations: seq<Endpoint>): seq<Rule> {
    if destinations == [] then []
    else
      var last := destinations[|destinations| - 1];
      WindowRow(src, destinations[..|destinations| - 1])
      + [AllowRule(src, last, WINDOW_PORTS[0], TCP), AllowRule(src, last, WINDOW_PORTS[0], UDP),
         AllowRule(src, last, WINDOW_PORTS[1], TCP), AllowRule(src, last, WINDOW_PORTS[1], UDP)]
  }

  function WindowRows(hosts: seq<Endpoint>, m: nat): seq<Rule>
    requires m <= |hosts|
  {
    if m == 0 then [] else WindowRows(hosts, m - 1) + WindowRow(hosts[m - 1], Neighbours(hosts, m - 1))
  }

  method CreateRulesWithGivenHosts(hosts: seq<Endpoint>) returns (rules: seq<Rule>)
    ensures rules == WindowRows(hosts, |hosts|)
  {
    rules := [];
    for i := 0 to |hosts|
      invariant rules == WindowRows(hosts, i)
    {
      var allowRules := CreateAllowRulesOnHosts(hosts[i], Neighbours(hosts, i));
      rules := rules + allowRules;
    }
  }

  method CreateAllowRulesOnHosts(src: Endpoint, destinations: seq<Endpoint>) returns (rules: seq<Rule>)
    ensures rules == WindowRow(src, destinations)
  {
    rules := [];
    for k := 0 to |destinations|
      invariant rules == WindowRow(src, destinations[..k])
    {
      assert destinations[..k + 1][..k] == destinations[..k];
      var dst := destinations[k];
      rules := rules + [AllowRule(src, dst, WINDOW_PORTS[0], TCP), AllowRule(src, dst, WINDOW_PORTS[0], UDP),
                        AllowRule(src, dst, WINDOW_PORTS[1], TCP), AllowRule(src, dst, WINDOW_PORTS[1], UDP)];
    }
    assert destinations[..|destinations|] == destinations;
  }

  /** Host j is a neighbour of host i exactly when they are one to five positions apart. */
  lemma NeighboursIff(hosts: seq<Endpoint>, i: nat, j: nat)
    requires DistinctHosts(hosts) && i < |hosts| && j < |hosts|
    ensures hosts[j] in Neighbours(hosts, i) <==> 1 <= i - j <= 5 || 1 <= j - i <= 5
  {
    var before, after := Upto(Reversed(hosts[..i]), REACH), Upto(hosts[i + 1..], REACH);
    assert forall k :: 0 <= k < |before| ==> before[k] == hosts[i - 1 - k];
    assert forall k :: 0 <= k < |after| ==> after[k] == hosts[i + 1 + k];
    if 1 <= i - j <= REACH { assert before[i - 1 - j] == hosts[j]; }
    if 1 <= j - i <= REACH { assert after[j - i - 1] == hosts[j]; }
  }

  ghost predicate WithinReach(hosts: seq<Endpoint>, i: nat, j: nat) {
    i < |hosts| && j < |hosts| && (1 <= i - j <= 5 || 1 <= j - i <= 5)
  }

  lemma NeighboursAre(hosts: seq<Endpoint>, i: nat, d: Endpoint)
    requires DistinctHosts(hosts) && i < |hosts|
    ensures d in Neighbours(hosts, i) <==> exists j: nat :: WithinReach(hosts, i, j) && hosts[j] == d
  {
    if d in Neighbours(hosts, i) {
      assert d in hosts[..i] || d in hosts[i + 1..];
      var j: nat :| j < |hosts| && hosts[j] == d;
      NeighboursIff(hosts, i, j);
      assert WithinReach(hosts, i, j);
    }
    if j: nat :| WithinReach(hosts, i, j) && hosts[j] == d {
      NeighboursIff(hosts, i, j);
    }
  }

  lemma NeighboursDistinct(hosts: seq<Endpoint>, i: nat)
    requires DistinctHosts(hosts) && i < |hosts|
    ensures DistinctHosts(Neighbours(hosts, i))
  {
    var before, after := Upto(Reversed(hosts[..i]), REACH), Upto(hosts[i + 1..], REACH);
    assert forall k :: 0 <= k < |before| ==> before[k] == hosts[i - 1 - k];
    assert forall k :: 0 <= k < |after| ==> after[k] == hosts[i + 1 + k];
  }

  predicate IsWindowRule(r: Rule) {
    && (r.port == 12345 || r.port == 5432) && (r.protocol == TCP || r.protocol == UDP)
    && r == Rule(r.src, r.dst, r.port, r.protocol, true, ALLOW)
  }

  lemma {:induction false} WindowRowMembers(src: Endpoint, destinations: seq<Endpoint>, r: Rule)
    ensures |WindowRow(src, destinations)| == 4 * |destinations|
    ensures r in WindowRow(src, destinations) <==> IsWindowRule(r) && r.src == src && r.dst in destinations
  {
    if destinations != [] {
      var n := |destinations| - 1;
      WindowRowMembers(src, destinations[..n], r);
      assert destinations == destinations[..n] + [destinations[n]];
    }
  }

  /** The window generator connects exactly the pairs of hosts one to five positions apart, in both
      directions, with every rule over two ports and two protocols, and makes no other rule. */
  lemma {:induction false} WindowMembers(hosts: seq<Endpoint>, m: nat, r: Rule)
    requires DistinctHosts(hosts) && m <= |hosts|
    ensures r in WindowRows(hosts, m)
            <==> IsWindowRule(r)
                 && exists i: nat, j: nat :: i < m && WithinReach(hosts, i, j) && r.src == hosts[i] && r.dst == hosts[j]
  {
    if m > 0 {
      WindowMembers(hosts, m - 1, r);
      WindowRowMembers(hosts[m - 1], Neighbours(hosts, m - 1), r);
      NeighboursAre(hosts, m - 1, r.dst);
    }
  }

  ghost predicate NoRuleTwice(rules: seq<Rule>) {
    forall i, j :: 0 <= i < j < |rules| ==> rules[i] != rules[j]
  }

  lemma {:induction false} WindowRowDistinct(src: Endpoint, destinations: seq<Endpoint>)
    requires DistinctHosts(destinations)
    ensures NoRuleTwice(WindowRow(src, destinations))
  {
    if destinations != [] {
      var n := |destinations| - 1;
      WindowRowDistinct(src, destinations[..n]);
      var init := WindowRow(src, destinations[..n]);
      forall i | 0 <= i < |init| ensures init[i].dst != destinations[n] {
        WindowRowMembers(src, destinations[..n], init[i]);
      }
    }
  }

  /** No rule is made twice. */
  lemma {:induction false} WindowDistinct(hosts: seq<Endpoint>, m: nat)
    requires DistinctHosts(hosts) && m <= |hosts|
    ensures NoRuleTwice(WindowRows(hosts, m))
  {
    if m > 0 {
      var before, row := WindowRows(hosts, m - 1), WindowRow(hosts[m - 1], Neighbours(hosts, m - 1));
      WindowDistinct(hosts, m - 1);
      NeighboursDistinct(hosts, m - 1);
      WindowRowDistinct(hosts[m - 1], Neighbours(hosts, m - 1));
      forall i | 0 <= i < |before| ensures before[i].src != hosts[m - 1] {
        WindowMembers(hosts, m - 1, before[i]);
      }
      forall j | 0 <= j < |row| ensures row[j].src == hosts[m - 1] {
        WindowRowMembers(hosts[m - 1], Neighbours(hosts, m - 1), row[j]);
      }
    }
  }

  /** Pairs at distance 1, 2, ..., d among n hosts. */
  function PairsWithin(n: nat, d: nat): nat
    requires d <= n
  {
    if d == 0 then 0 else PairsWithin(n, d - 1) + (n - d)
  }

  function Least(a: nat, b: nat): nat { if a < b then a else b }

  /** Neighbours on one side, over the first m positions. */
  function BackwardSum(m: nat): nat { if m == 0 then 0 else BackwardSum(m - 1) + Least(m - 1, REACH) }

  function ForwardSum(n: nat, m: nat): nat
    requires m <= n
  {
    if m == 0 then 0 else ForwardSum(n, m - 1) + Least(n - m, REACH)
  }

  lemma {:induction false} ForwardIsBackward(n: nat, m: nat)
    requires m <= n
    ensures ForwardSum(n, m) == BackwardSum(n) - BackwardSum(n - m)
  {
    if m > 0 { ForwardIsBackward(n, m - 1); }
  }

  lemma {:induction false} PairsGrow(n: nat, d: nat)
    requires d <= n
    ensures PairsWithin(n + 1, d) == PairsWithin(n, d) + d
  {
    if d > 0 { PairsGrow(n, d - 1); }
  }

  lemma {:induction false} BackwardIsPairs(n: nat)
    requires n > 0
    ensures BackwardSum(n) == PairsWithin(n, Least(REACH, n - 1))
  {
    if n > 1 {
      BackwardIsPairs(n - 1);
      PairsGrow(n - 1, Least(REACH, n - 2));
    }
  }

  lemma {:induction false} WindowLength(hosts: seq<Endpoint>, m: nat)
    requires m <= |hosts|
    ensures |WindowRows(hosts, m)| == 4 * (BackwardSum(m) + ForwardSum(|hosts|, m))
  {
    if m > 0 {
      WindowLength(hosts, m - 1);
      WindowRowMembers(hosts[m - 1], Neighbours(hosts, m - 1), AllowRule(hosts[0], hosts[0], 0, HTTP));
    }
  }

  lemma PairsClosed(n: nat)
    requires n > 0
    ensures 8 * PairsWithin(n, Least(5, n - 1)) == if n > 5 then 40 * n - 120 else 4 * n * (n - 1)
  {
    assert PairsWithin(n, 0) == 0;
    if n > 1 { assert PairsWithin(n, 1) == n - 1; }
    if n > 2 { assert PairsWithin(n, 2) == 2 * n - 3; }
    if n > 3 { assert PairsWithin(n, 3) == 3 * n - 6; }
    if n > 4 { assert PairsWithin(n, 4) == 4 * n - 10; }
    if n > 5 { assert PairsWithin(n, 5) == 5 * n - 15; }
  }

  /** Eight rules per unordered pair within reach. */
  lemma WindowRuleCount(hosts: seq<Endpoint>)
    requires hosts != []
    ensures |WindowRows(hosts, |hosts|)| == 8 * PairsWithin(|hosts|, Least(5, |hosts| - 1))
    ensures |WindowRows(hosts, |hosts|)| == if |hosts| > 5 then 40 * |hosts| - 120 else 4 * |hosts| * (|hosts| - 1)
  {
    PairsClosed(|hosts|);
    WindowLength(hosts, |hosts|);
    ForwardIsBackward(|hosts|, |hosts|);
    BackwardIsPairs(|hosts|);
  }
}
