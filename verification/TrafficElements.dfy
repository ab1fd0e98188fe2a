/** The vocabulary of traffic rules, and the configuration one endpoint ends up with. */
module TrafficElements {

  /** An address; the empty string is no address, the stores read it as "every row". */
  type Endpoint = s: string | s != "" witness "0.0.0.0"

  datatype Protocol = TCP | UDP | HTTP

  datatype Action = DROP | ALLOW

  datatype Rule = Rule(src: Endpoint, dst: Endpoint, port: int, protocol: Protocol, connected: bool, action: Action)

  datatype Server = Server(protocol: Protocol, port: int)

  datatype Client = Client(protocol: Protocol, port: int, destination: Endpoint, connected: bool, action: Action)

  datatype ClientKey = ClientKey(protocol: Protocol, port: int, destination: Endpoint)

  datatype Policy = Policy(connected: bool, action: Action)

  function KeyOf(c: Client): ClientKey { ClientKey(c.protocol, c.port, c.destination) }

  function PolicyOf(c: Client): Policy { Policy(c.connected, c.action) }

  /** The lists of one endpoint as the program holds them; client keys may repeat. */
  datatype Row = Row(servers: seq<Server>, clients: seq<Client>)

  /** What a row means: a set of servers, and per client key the policy written last. */
  datatype Config = Config(servers: set<Server>, clients: map<ClientKey, Policy>)

  const EMPTY: Config := Config({}, map[])

  function LastWins(cs: seq<Client>): map<ClientKey, Policy> {
    if cs == [] then map[]
    else LastWins(cs[..|cs| - 1])[KeyOf(cs[|cs| - 1]) := PolicyOf(cs[|cs| - 1])]
  }

  function Meaning(r: Row): Config { Config((set s | s in r.servers), LastWins(r.clients)) }

  function KeySet(cs: seq<Client>): set<ClientKey> { set c | c in cs :: KeyOf(c) }

  function Merge(a: Config, b: Config): Config { Config(a.servers + b.servers, a.clients + b.clients) }

  function Remove(a: Config, b: Config): Config { Config(a.servers - b.servers, a.clients - b.clients.Keys) }

  lemma {:induction false} LastWinsKeys(cs: seq<Client>)
    ensures LastWins(cs).Keys == KeySet(cs)
  {
    if cs != [] {
      var init, last := cs[..|cs| - 1], cs[|cs| - 1];
      LastWinsKeys(init);
      assert cs == init + [last];
      assert KeySet(cs) == KeySet(init) + {KeyOf(last)};
    }
  }

  /** Entry i carries key k and policy p, and no later entry carries k. */
  ghost predicate LastEntry(cs: seq<Client>, i: nat, k: ClientKey, p: Policy) {
    && i < |cs| && cs[i] == Client(k.protocol, k.port, k.destination, p.connected, p.action)
    && forall j :: i < j < |cs| ==> ClientKey(cs[j].protocol, cs[j].port, cs[j].destination) != k
  }

  /** The policy of a key is that of the last entry carrying the key, and of no other. */
  lemma {:induction false} LastWinsIsLastEntry(cs: seq<Client>, k: ClientKey, p: Policy)
    ensures (k in LastWins(cs) && LastWins(cs)[k] == p) <==> exists i :: LastEntry(cs, i, k, p)
  {
    if cs != [] {
      var n := |cs| - 1;
      var init := cs[..n];
      LastWinsIsLastEntry(init, k, p);
      if KeyOf(cs[n]) == k {
        assert PolicyOf(cs[n]) == p ==> LastEntry(cs, n, k, p);
      } else {
        forall i: nat ensures LastEntry(init, i, k, p) <==> LastEntry(cs, i, k, p) {
          assert forall j :: 0 <= j < n ==> cs[j] == init[j];
        }
      }
    }
  }

  lemma {:induction false} LastWinsConcat(a: seq<Client>, b: seq<Client>)
    ensures LastWins(a + b) == LastWins(a) + LastWins(b)
  {
    if b == [] {
      assert a + b == a;
    } else {
      var init, last := b[..|b| - 1], b[|b| - 1];
      LastWinsConcat(a, init);
      assert (a + b)[..|a + b| - 1] == a + init;
    }
  }

  /** Batches compose: the meaning of concatenated lists is the merge of their meanings. */
  lemma MeaningConcat(a: Row, b: Row)
    ensures Meaning(Row(a.servers + b.servers, a.clients + b.clients)) == Merge(Meaning(a), Meaning(b))
  {
    LastWinsConcat(a.clients, b.clients);
  }
}
