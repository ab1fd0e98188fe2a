/** The basic traffic controller and its records as objects, pushing to the services of a fleet. */
module BasicController {
  import opened TrafficElements
  import opened ConnectedState
  import opened RuleCompiler
  import opened Deployment
  import opened TrafficApp
  import opened TrafficRecords
  import opened Network

  /** Of the records not in todo exactly those were delivered whose host is there and whose request got
      through; ok says that all their answers came. */
  ghost predicate Progressed(recs: Records, todo: set<Endpoint>, there: set<Endpoint>, fates: Endpoint -> Fate,
                             ok: bool, delivered: seq<Endpoint>) {
    && Distinct(delivered)
    && (forall e :: e in delivered <==> e in recs && e !in todo && e in there && fates(e).request)
    && (ok <==> forall e :: e in recs && e !in todo ==> e in there && fates(e).request && fates(e).answer)
  }

  lemma ProgressedOneMore(recs: Records, todo: set<Endpoint>, there: set<Endpoint>, fates: Endpoint -> Fate,
                          ok: bool, order: seq<Endpoint>, e: Endpoint)
    requires Progressed(recs, todo, there, fates, ok, order) && e in todo && e in recs
    ensures var arrived := e in there && fates(e).request;
            Progressed(recs, todo - {e}, there, fates, ok && arrived && fates(e).answer,
                       if arrived then order + [e] else order)
  {
    assert forall d :: d in order + [e] <==> d in order || d == e;
    assert forall d :: d !in todo - {e} <==> d !in todo || d == e;
  }

  lemma PushAllOneMore(f: Fleet, kind: Kind, recs: Records, order: seq<Endpoint>, e: Endpoint)
    requires (forall d :: d in order ==> d in recs) && e in recs
    ensures forall d :: d in order + [e] ==> d in recs
    ensures var g := PushAll(f, kind, recs, order);
            PushAll(f, kind, recs, order + [e])
            == g[e := PushedListings(ListingsAt(g, e), kind, e, ListingOf(recs[e]))]
  {
    assert (order + [e])[..|order|] == order;
  }

  /** One push more, whether it arrived, and whether it was answered. */
  lemma PushedOneMore(f: Fleet, kind: Kind, recs: Records, todo: set<Endpoint>, there: set<Endpoint>,
                      fates: Endpoint -> Fate, ok: bool, order: seq<Endpoint>, e: Endpoint)
    requires Progressed(recs, todo, there, fates, ok, order) && e in todo && e in recs
    ensures var arrived := e in there && fates(e).request;
            var order' := if arrived then order + [e] else order;
            var g := PushAll(f, kind, recs, order);
            && Progressed(recs, todo - {e}, there, fates, ok && arrived && fates(e).answer, order')
            && PushAll(f, kind, recs, order')
               == if arrived then g[e := PushedListings(ListingsAt(g, e), kind, e, ListingOf(recs[e]))] else g
  {
    ProgressedOneMore(recs, todo, there, fates, ok, order, e);
    if e in there && fates(e).request {
      PushAllOneMore(f, kind, recs, order, e);
    }
  }

  /** The call took the system from s to t; exactly the pushes that got through were delivered; ok means that
      every push was answered, so that none was lost. */
  ghost predicate Performed(s: System, c: Call, there: set<Endpoint>, fates: Endpoint -> Fate, ok: bool, t: System) {
    && ValidCall(s, c) && t == Step(s, c)
    && (forall e :: e in c.delivered <==> e in Compile(s.recs, c.rules) && e in there && fates(e).request)
    && (ok <==> forall e :: e in Compile(s.recs, c.rules) ==> e in there && fates(e).request && fates(e).answer)
    && (ok ==> Complete(s, c))
  }

  lemma ProgressedPerforms(s: System, c: Call, there: set<Endpoint>, fates: Endpoint -> Fate, ok: bool)
    requires Progressed(Compile(s.recs, c.rules), {}, there, fates, ok, c.delivered)
    ensures ValidCall(s, c) && Performed(s, c, there, fates, ok, Step(s, c))
  {
    var recs := Compile(s.recs, c.rules);
    assert ValidCall(s, c);
    if ok {
      forall e | e in recs ensures e in c.delivered { assert e in there && fates(e).request; }
    }
  }

  class BasicTrafficController {
    const table: RecordTable

    constructor ()
      ensures fresh(table) && table.Valid() && table.Accumulated() == map[]
    {
      table := new RecordTable();
    }

    method CreateRule(r: Rule)
      requires table.Valid()
      modifies table, table.servers.Values
      ensures table.Valid() && table.Accumulated() == CompileRule(old(table.Accumulated()), r)
      ensures fresh(table.servers.Values - old(table.servers.Values))
    {
      table.EnsureBoth(r);
      table.AddServerTo(r.dst, r);
      table.AddClientTo(r.src, r);
    }

    method CreateRules(rules: seq<Rule>)
      requires table.Valid()
      modifies table, table.servers.Values
      ensures table.Valid() && table.Accumulated() == Compile(old(table.Accumulated()), rules)
      ensures fresh(table.servers.Values - old(table.servers.Values))
    {
      for i := 0 to |rules|
        invariant table.Valid() && table.Accumulated() == Compile(old(table.Accumulated()), rules[..i])
        invariant fresh(table.servers.Values - old(table.servers.Values))
      {
        CreateRule(rules[i]);
        assert rules[..i + 1][..i] == rules[..i];
      }
      assert rules[..|rules|] == rules;
    }

    /** The request as the host's service takes it. */
    method Deliver(kind: Kind, e: Endpoint, row: Row, hosts: map<Endpoint, TrafficApp>)
      requires e in hosts && Separate(hosts)
      modifies hosts[e].db
      ensures hosts[e].db.Listed() == PushedListings(old(hosts[e].db.Listed()), kind, e, ListingOf(row))
    {
      var config := TrafficConfig(e, row);
      assert [config][..0] == [];
      match kind {
        case RegisterCall => hosts[e].RegisterTraffic([config]);
        case UnregisterCall => hosts[e].UnregisterTraffic([config]);
      }
    }

    /** One remote call. The request or its answer may get lost; an answer means the request arrived. */
    method Push(kind: Kind, e: Endpoint, hosts: map<Endpoint, TrafficApp>, fate: Fate)
      returns (ok: bool, ghost arrived: bool)
      requires table.Valid() && e in table.servers && Separate(hosts)
      modifies Databases(hosts)
      ensures arrived <==> e in hosts && fate.request
      ensures ok <==> arrived && fate.answer
      ensures var f := old(FleetOf(hosts));
              FleetOf(hosts) == if !arrived then f
                                else f[e := PushedListings(f[e], kind, e, ListingOf(table.servers[e].Lists()))]
    {
      ok, arrived := false, false;
      if e in hosts && fate.request {
        Deliver(kind, table.servers[e].endpoint, table.servers[e].Lists(), hosts);
        ok, arrived := fate.answer, true;
      }
    }

    /** What has been pushed so far: which records, and the fleet they leave. */
    ghost predicate PushedSoFar(kind: Kind, hosts: map<Endpoint, TrafficApp>, fates: Endpoint -> Fate, f: Fleet,
                                todo: set<Endpoint>, ok: bool, delivered: seq<Endpoint>)
      reads table, table.servers.Values, Databases(hosts)
    {
      && todo <= table.servers.Keys
      && Progressed(table.Accumulated(), todo, hosts.Keys, fates, ok, delivered)
      && FleetOf(hosts) == PushAll(f, kind, table.Accumulated(), delivered)
    }

    method PushNext(kind: Kind, e: Endpoint, hosts: map<Endpoint, TrafficApp>, fates: Endpoint -> Fate,
                    ghost f: Fleet, todo: set<Endpoint>, ok: bool, ghost delivered: seq<Endpoint>)
      returns (ok': bool, ghost delivered': seq<Endpoint>)
      requires table.Valid() && Separate(hosts) && PushedSoFar(kind, hosts, fates, f, todo, ok, delivered) && e in todo
      modifies Databases(hosts)
      ensures PushedSoFar(kind, hosts, fates, f, todo - {e}, ok', delivered')
    {
      ghost var recs, before := table.Accumulated(), FleetOf(hosts);
      var answered, arrived := Push(kind, e, hosts, fates(e));
      assert table.Accumulated() == recs && ListingOf(table.servers[e].Lists()) == ListingOf(recs[e]);
      PushedOneMore(f, kind, recs, todo, hosts.Keys, fates, ok, delivered, e);
      ok', delivered' := ok && answered, if arrived then delivered + [e] else delivered;
      assert arrived ==> ListingsAt(before, e) == before[e];
    }

    /** Pushes every record, in an arbitrary order, and reports whether all pushes answered. */
    method PushRecords(kind: Kind, hosts: map<Endpoint, TrafficApp>, fates: Endpoint -> Fate)
      returns (ok: bool, ghost delivered: seq<Endpoint>)
      requires table.Valid() && Separate(hosts)
      modifies Databases(hosts)
      ensures PushedSoFar(kind, hosts, fates, old(FleetOf(hosts)), {}, ok, delivered)
    {
      ok, delivered := true, [];
      var todo := table.servers.Keys;
      while todo != {}
        invariant PushedSoFar(kind, hosts, fates, old(FleetOf(hosts)), todo, ok, delivered)
      {
        var e :| e in todo;
        ok, delivered := PushNext(kind, e, hosts, fates, old(FleetOf(hosts)), todo, ok, delivered);
        todo := todo - {e};
      }
    }

    /** The pushes of a call, once its rules are compiled. */
    method PushPrepared(kind: Kind, hosts: map<Endpoint, TrafficApp>, fates: Endpoint -> Fate,
                        ghost s: System, ghost rules: seq<Rule>)
      returns (ok: bool, ghost delivered: seq<Endpoint>)
      requires table.Valid() && Separate(hosts) && s.fleet == FleetOf(hosts)
      requires table.Accumulated() == Compile(s.recs, rules)
      modifies Databases(hosts)
      ensures table.Valid() && Performed(s, Call(kind, rules, delivered), hosts.Keys, fates, ok, Now(hosts))
    {
      ghost var recs := table.Accumulated();
      ok, delivered := PushRecords(kind, hosts, fates);
      assert table.Accumulated() == recs;
      ghost var c := Call(kind, rules, delivered);
      ProgressedPerforms(s, c, hosts.Keys, fates, ok);
      assert Now(hosts) == System(recs, PushAll(s.fleet, kind, recs, delivered)) == Step(s, c);
    }

    ghost function Now(hosts: map<Endpoint, TrafficApp>): System
      reads table, table.servers.Values, Databases(hosts)
    {
      System(table.Accumulated(), FleetOf(hosts))
    }

    /** A register call is a step of the deployment model that delivers exactly what the network lets through,
        and ok tells whether everything was answered. */
    method RegisterTraffic(rules: seq<Rule>, hosts: map<Endpoint, TrafficApp>, fates: Endpoint -> Fate)
      returns (ok: bool, ghost delivered: seq<Endpoint>)
      requires table.Valid() && Separate(hosts)
      modifies table, table.servers.Values, Databases(hosts)
      ensures table.Valid() && fresh(table.servers.Values - old(table.servers.Values))
      ensures Performed(old(Now(hosts)), Call(RegisterCall, rules, delivered), hosts.Keys, fates, ok, Now(hosts))
    {
      ghost var s := Now(hosts);
      CreateRules(rules);
      assert FleetOf(hosts) == s.fleet;
      ok, delivered := PushPrepared(RegisterCall, hosts, fates, s, rules);
      assert s == old(Now(hosts));
    }

    method UnregisterTraffic(rules: seq<Rule>, hosts: map<Endpoint, TrafficApp>, fates: Endpoint -> Fate)
      returns (ok: bool, ghost delivered: seq<Endpoint>)
      requires table.Valid() && Separate(hosts)
      modifies table, table.servers.Values, Databases(hosts)
      ensures table.Valid() && fresh(table.servers.Values - old(table.servers.Values))
      ensures Performed(old(Now(hosts)), Call(UnregisterCall, rules, delivered), hosts.Keys, fates, ok, Now(hosts))
    {
      ghost var s := Now(hosts);
      CreateRules(rules);
      assert FleetOf(hosts) == s.fleet;
      ok, delivered := PushPrepared(UnregisterCall, hosts, fates, s, rules);
      assert s == old(Now(hosts));
    }
  }
}
