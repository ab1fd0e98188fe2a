/** The records a controller accumulates, one object per endpoint. */
module TrafficRecords {
  import opened TrafficElements
  import opened RuleCompiler

  class TrafficRecord {
    const endpoint: Endpoint
    var servers: seq<Server>
    var clients: seq<Client>

    constructor (endpoint: Endpoint)
      ensures this.endpoint == endpoint && Lists() == Row([], [])
    {
      this.endpoint := endpoint;
      servers, clients := [], [];
    }

    function Lists(): Row
      reads this
    {
      Row(servers, clients)
    }

    method AddServer(protocol: Protocol, port: int)
      modifies this
      ensures Lists() == RuleCompiler.AddServer(old(Lists()), Server(protocol, port))
    {
      if Server(protocol, port) !in servers {
        servers := servers + [Server(protocol, port)];
      }
    }

    /** The duplicate check of the program compares tuples of different length and never rejects. */
    method AddClient(protocol: Protocol, port: int, destination: Endpoint, connected: bool, action: Action)
      modifies this
      ensures Lists() == RuleCompiler.AddClient(old(Lists()), Client(protocol, port, destination, connected, action))
    {
      clients := clients + [Client(protocol, port, destination, connected, action)];
    }
  }

  ghost predicate Extends(a: map<Endpoint, TrafficRecord>, b: map<Endpoint, TrafficRecord>) {
    forall e :: e in a ==> e in b && a[e] == b[e]
  }

  /** The dictionary from endpoint to record; records are never shared between endpoints. */
  class RecordTable {
    var servers: map<Endpoint, TrafficRecord>

    ghost predicate Valid()
      reads this, servers.Values
    {
      && (forall e :: e in servers ==> servers[e].endpoint == e)
      && (forall d, e :: d in servers && e in servers && d != e ==> servers[d] != servers[e])
    }

    ghost function Accumulated(): Records
      reads this, servers.Values
    {
      map e | e in servers :: servers[e].Lists()
    }

    constructor ()
      ensures Valid() && Accumulated() == map[]
    {
      servers := map[];
    }

    method EnsureRecord(e: Endpoint)
      requires Valid()
      modifies this
      ensures Valid() && Accumulated() == Ensure(old(Accumulated()), e)
      ensures servers.Keys == old(servers.Keys) + {e} && fresh(servers.Values - old(servers.Values))
      ensures Extends(old(servers), servers)
    {
      if e !in servers {
        ghost var before := Accumulated();
        var record := new TrafficRecord(e);
        servers := servers[e := record];
        assert Accumulated() == before[e := Row([], [])];
      }
    }

    method EnsureBoth(r: Rule)
      requires Valid()
      modifies this
      ensures Valid() && Accumulated() == Ensure(Ensure(old(Accumulated()), r.src), r.dst)
      ensures r.src in servers && r.dst in servers && fresh(servers.Values - old(servers.Values))
      ensures Extends(old(servers), servers)
    {
      EnsureRecord(r.src);
      EnsureRecord(r.dst);
    }

    method AddServerTo(e: Endpoint, r: Rule)
      requires Valid() && e in servers
      modifies servers[e]
      ensures Valid() && Accumulated() == old(Accumulated()[e := RuleCompiler.AddServer(Accumulated()[e], ServerOf(r))])
    {
      servers[e].AddServer(r.protocol, r.port);
    }

    method AddClientTo(e: Endpoint, r: Rule)
      requires Valid() && e in servers
      modifies servers[e]
      ensures Valid() && Accumulated() == old(Accumulated()[e := RuleCompiler.AddClient(Accumulated()[e], ClientOf(r))])
    {
      servers[e].AddClient(r.protocol, r.port, r.dst, r.connected, r.action);
    }
  }
}
