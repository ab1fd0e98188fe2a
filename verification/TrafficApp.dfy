/** The service's register and unregister requests over a list of endpoint configurations. */
module TrafficApp {
  import opened TrafficElements
  import opened ConnectedState

  datatype TrafficConfig = TrafficConfig(endpoint: Endpoint, row: Row)

  function RegisteredAll(st: Store, configs: seq<TrafficConfig>): Store {
    if configs == [] then st
    else
      var last := configs[|configs| - 1];
      Registered(RegisteredAll(st, configs[..|configs| - 1]), last.endpoint, Meaning(last.row))
  }

  function UnregisteredAll(st: Store, configs: seq<TrafficConfig>): Store {
    if configs == [] then st
    else
      var last := configs[|configs| - 1];
      Unregistered(UnregisteredAll(st, configs[..|configs| - 1]), last.endpoint, Meaning(last.row))
  }

  /** The same requests on what is stored. */
  function RecordedAll(ls: Listings, configs: seq<TrafficConfig>): Listings {
    if configs == [] then ls
    else
      var last := configs[|configs| - 1];
      Recorded(RecordedAll(ls, configs[..|configs| - 1]), last.endpoint, ListingOf(last.row))
  }

  function ErasedAll(ls: Listings, configs: seq<TrafficConfig>): Listings {
    if configs == [] then ls
    else
      var last := configs[|configs| - 1];
      Erased(ErasedAll(ls, configs[..|configs| - 1]), last.endpoint, ListingOf(last.row))
  }

  lemma {:induction false} RecordedAllRead(ls: Listings, configs: seq<TrafficConfig>)
    ensures ReadAll(RecordedAll(ls, configs)) == RegisteredAll(ReadAll(ls), configs)
  {
    if configs != [] {
      var init, last := configs[..|configs| - 1], configs[|configs| - 1];
      RecordedAllRead(ls, init);
      RecordedRead(RecordedAll(ls, init), last.endpoint, ListingOf(last.row));
    }
  }

  lemma {:induction false} ErasedAllRead(ls: Listings, configs: seq<TrafficConfig>)
    ensures ReadAll(ErasedAll(ls, configs)) == UnregisteredAll(ReadAll(ls), configs)
  {
    if configs != [] {
      var init, last := configs[..|configs| - 1], configs[|configs| - 1];
      ErasedAllRead(ls, init);
      ErasedRead(ErasedAll(ls, init), last.endpoint, ListingOf(last.row));
    }
  }

  class TrafficApp {
    const db: ConnectedStateProcessor

    constructor ()
      ensures fresh(db) && db.Listed() == map[]
    {
      db := new ConnectedStateProcessor();
    }

    method RegisterTraffic(configs: seq<TrafficConfig>)
      modifies db
      ensures db.Listed() == RecordedAll(old(db.Listed()), configs)
      ensures db.Deployed() == RegisteredAll(old(db.Deployed()), configs)
    {
      RecordedAllRead(db.Listed(), configs);
      for i := 0 to |configs|
        invariant db.Listed() == RecordedAll(old(db.Listed()), configs[..i])
      {
        db.CreateOrUpdateConnectedState(configs[i].endpoint, configs[i].row.servers, configs[i].row.clients);
        assert configs[..i + 1][..i] == configs[..i];
      }
      assert configs[..|configs|] == configs;
    }

    method UnregisterTraffic(configs: seq<TrafficConfig>)
      modifies db
      ensures db.Listed() == ErasedAll(old(db.Listed()), configs)
      ensures db.Deployed() == UnregisteredAll(old(db.Deployed()), configs)
      ensures db.rows.Keys == old(db.rows.Keys)
    {
      ErasedAllRead(db.Listed(), configs);
      for i := 0 to |configs|
        invariant db.Listed() == ErasedAll(old(db.Listed()), configs[..i])
        invariant db.rows.Keys == old(db.rows.Keys)
      {
        db.DeleteConnectedState(configs[i].endpoint, configs[i].row.servers, configs[i].row.clients);
        assert configs[..i + 1][..i] == configs[..i];
      }
      assert configs[..|configs|] == configs;
    }
  }

  // ----- laws of the requests -----

  function Joined(batches: seq<Row>): Row {
    if batches == [] then Row([], [])
    else
      var init, last := Joined(batches[..|batches| - 1]), batches[|batches| - 1];
      Row(init.servers + last.servers, init.clients + last.clients)
  }

  function ForEndpoint(e: Endpoint, batches: seq<Row>): seq<TrafficConfig> {
    seq(|batches|, i requires 0 <= i < |batches| => TrafficConfig(e, batches[i]))
  }

  /** What a row becomes by requests that add up to one listing. */
  function JoinedAt(ls: Listings, e: Endpoint, all: Listing, requests: nat): Listing {
    if e in ls then Listing(ls[e].servers + all.servers, Dict(ls[e].clients + all.clients))
    else if requests == 1 then all
    else Listing(all.servers, Dict(all.clients))
  }

  lemma JoinedMerged(ls: Listings, e: Endpoint, all: Listing, requests: nat, x: Listing)
    requires requests > 0
    ensures var y := JoinedAt(ls, e, all, requests);
            Listing(y.servers + x.servers, Dict(y.clients + x.clients))
            == JoinedAt(ls, e, Listing(all.servers + x.servers, all.clients + x.clients), requests + 1)
  {
    if e in ls {
      DictNested(ls[e].clients + all.clients, x.clients);
      assert ls[e].clients + all.clients + x.clients == ls[e].clients + (all.clients + x.clients);
      assert ls[e].servers + all.servers + x.servers == ls[e].servers + (all.servers + x.servers);
    } else if requests > 1 {
      DictNested(all.clients, x.clients);
    }
  }

  lemma RecordedOver(ls: Listings, e: Endpoint, y: Listing, x: Listing)
    ensures Recorded(ls[e := y], e, x) == ls[e := Listing(y.servers + x.servers, Dict(y.clients + x.clients))]
  {
  }

  /** One request more. */
  lemma JoinedOneMore(ls: Listings, e: Endpoint, all: Listing, requests: nat, x: Listing)
    requires requests > 0
    ensures Recorded(ls[e := JoinedAt(ls, e, all, requests)], e, x)
            == ls[e := JoinedAt(ls, e, Listing(all.servers + x.servers, all.clients + x.clients), requests + 1)]
  {
    JoinedMerged(ls, e, all, requests, x);
    RecordedOver(ls, e, JoinedAt(ls, e, all, requests), x);
  }

  lemma {:induction false} JoinedRead(ls: Listings, e: Endpoint, batches: seq<Row>)
    requires batches != []
    ensures RecordedAll(ls, ForEndpoint(e, batches))
            == ls[e := JoinedAt(ls, e, ListingOf(Joined(batches)), |batches|)]
  {
    var n := |batches| - 1;
    var init := batches[..n];
    assert ForEndpoint(e, batches)[..n] == ForEndpoint(e, init);
    JoinedServers(Joined(init), batches[n]);
    if n > 0 {
      JoinedRead(ls, e, init);
      JoinedOneMore(ls, e, ListingOf(Joined(init)), n, ListingOf(batches[n]));
    } else {
      assert init == [] && ForEndpoint(e, init) == [] && Joined(init) == Row([], []);
      assert Joined(batches) == batches[0];
    }
  }

  lemma JoinedServers(a: Row, b: Row)
    ensures ListingOf(Row(a.servers + b.servers, a.clients + b.clients))
            == Listing(ListingOf(a).servers + ListingOf(b).servers, a.clients + b.clients)
  {
  }

  /** Splitting a configuration into several requests stores what one request stores, exactly if the row
      existed before, or no client key repeats, or there was nothing to split. */
  lemma BatchingIff(ls: Listings, e: Endpoint, batches: seq<Row>)
    requires batches != []
    ensures RecordedAll(ls, ForEndpoint(e, batches)) == Recorded(ls, e, ListingOf(Joined(batches)))
            <==> e in ls || |batches| == 1 || UniqueKeys(Joined(batches).clients)
  {
    JoinedRead(ls, e, batches);
    DictUnchangedIff(Joined(batches).clients);
    var a, b := RecordedAll(ls, ForEndpoint(e, batches)), Recorded(ls, e, ListingOf(Joined(batches)));
    assert a == b <==> a[e] == b[e];
  }

  /** Under the last-wins reading no split can be told from one request. */
  lemma BatchingIsConcatenation(ls: Listings, e: Endpoint, batches: seq<Row>)
    requires batches != []
    ensures ReadAll(RecordedAll(ls, ForEndpoint(e, batches))) == Registered(ReadAll(ls), e, Meaning(Joined(batches)))
  {
    JoinedRead(ls, e, batches);
    DictMeans(Joined(batches).clients);
    RecordedRead(ls, e, ListingOf(Joined(batches)));
  }

  /** Registering again what was just registered leaves the store alone exactly if the row existed before
      or no client key repeats: a new row keeps repeated keys, the second request removes them. */
  lemma RegisterIdempotentIff(ls: Listings, e: Endpoint, x: Listing)
    ensures Recorded(Recorded(ls, e, x), e, x) == Recorded(ls, e, x) <==> e in ls || UniqueKeys(x.clients)
  {
    var once := Recorded(ls, e, x);
    var all := x.clients;
    ReadAgain(if e in ls then ls[e].clients else [], all);
    DictUnchangedIff(all);
    RecordedOver(ls, e, once[e], x);
    assert once == ls[e := once[e]];
    assert once[e].servers + x.servers == once[e].servers;
    OverwrittenIff(ls, e, once[e], Listing(once[e].servers, Dict(once[e].clients + all)));
  }

  lemma OverwrittenIff(ls: Listings, e: Endpoint, a: Listing, b: Listing)
    ensures ls[e := a] == ls[e := b] <==> a == b
  {
    assert ls[e := a][e] == a && ls[e := b][e] == b;
  }

  /** Reading what was read before once more. */
  lemma ReadAgain(l: seq<Client>, all: seq<Client>)
    ensures Dict(Dict(l + all) + all) == Dict(l + all) && Dict(all + all) == Dict(all) == Dict(Dict(all) + all)
  {
    DictNested(l + all, all);
    DictNested(all, all);
    LastWinsConcat(l, all);
    assert KeySet(all) <= KeySet(l + all);
    DictOverwrite(l + all, all);
    DictOverwrite(all, all);
  }

  /** A new row with two policies for one key: the same request once more drops the first of them. */
  lemma SecondRequestChanges()
    ensures var e, d: Endpoint := "10.0.0.1", "10.0.0.2";
            var allow, drop := Client(TCP, 80, d, true, ALLOW), Client(TCP, 80, d, true, DROP);
            var x := Listing({}, [allow, drop]);
            && Recorded(map[], e, x)[e].clients == [allow, drop]
            && Recorded(Recorded(map[], e, x), e, x)[e].clients == [drop]
  {
    var e, d: Endpoint := "10.0.0.1", "10.0.0.2";
    var allow, drop := Client(TCP, 80, d, true, ALLOW), Client(TCP, 80, d, true, DROP);
    TwoEntries(allow, drop);
    DictOverwrite([allow, drop], [allow, drop]);
    RecordedOver(map[], e, Listing({}, [allow, drop]), Listing({}, [allow, drop]));
  }

  /** The two policies in two requests leave another list than both in one. */
  lemma SplitRequestChanges()
    ensures var e, d: Endpoint := "10.0.0.1", "10.0.0.2";
            var allow, drop := Client(TCP, 80, d, true, ALLOW), Client(TCP, 80, d, true, DROP);
            && Recorded(map[], e, Listing({}, [allow, drop]))[e].clients == [allow, drop]
            && RecordedAll(map[], ForEndpoint(e, [Row([], [allow]), Row([], [drop])]))[e].clients == [drop]
  {
    var e, d: Endpoint := "10.0.0.1", "10.0.0.2";
    var allow, drop := Client(TCP, 80, d, true, ALLOW), Client(TCP, 80, d, true, DROP);
    TwoEntries(allow, drop);
    var batches := [Row([], [allow]), Row([], [drop])];
    JoinedTwo(batches[0], batches[1]);
    assert [allow] + [drop] == [allow, drop];
    JoinedRead(map[], e, batches);
    assert RecordedAll(map[], ForEndpoint(e, batches))[e] == JoinedAt(map[], e, ListingOf(Joined(batches)), 2);
  }

  lemma JoinedTwo(a: Row, b: Row)
    ensures Joined([a, b]) == Row(a.servers + b.servers, a.clients + b.clients)
  {
    assert [a, b][..1] == [a] && [a][..0] == [];
    assert Joined([]) == Row([], []);
    assert Joined([a]) == Row([] + a.servers, [] + a.clients);
  }

  lemma TwoEntries(a: Client, b: Client)
    requires KeyOf(a) == KeyOf(b)
    ensures Dict([a, b]) == [b] && KeySet([a, b]) == {KeyOf(a)}
  {
    assert [a, b][..1] == [a] && [a][..0] == [];
    assert Dict([a]) == [a];
    assert a in [a, b];
  }

  lemma WithoutConcat(a: seq<ClientKey>, b: seq<ClientKey>, gone: set<ClientKey>)
    ensures Without(a + b, gone) == Without(a, gone) + Without(b, gone)
  {
    if a == [] {
      assert a + b == b;
    } else {
      WithoutConcat(a[1..], b, gone);
      assert (a + b)[1..] == a[1..] + b;
    }
  }

  lemma {:induction false} WithoutAppended(a: seq<ClientKey>, b: seq<ClientKey>, gone: set<ClientKey>)
    requires forall k :: k in b ==> k in gone
    ensures Without(FirstOccurrences(a + b), gone) == Without(FirstOccurrences(a), gone)
  {
    if b == [] {
      assert a + b == a;
    } else {
      var init, last := b[..|b| - 1], b[|b| - 1];
      WithoutAppended(a, init, gone);
      assert (a + b)[..|a + b| - 1] == a + init;
      WithoutConcat(FirstOccurrences(a + init), [last], gone);
    }
  }

  lemma DropAfterAddKeys(l: seq<Client>, cs: seq<Client>)
    ensures KeySeq(Dropped(Dict(l + cs), KeySet(cs))) == KeySeq(Dropped(Dict(l), KeySet(cs)))
  {
    DictMeans(l + cs);
    DictMeans(l);
    DroppedMembers(Dict(l + cs), KeySet(cs));
    DroppedMembers(Dict(l), KeySet(cs));
    KeySeqConcat(l, cs);
    forall k | k in KeySeq(cs) ensures k in KeySet(cs) {
      var i :| 0 <= i < |cs| && KeySeq(cs)[i] == k;
      assert cs[i] in cs;
    }
    WithoutAppended(KeySeq(l), KeySeq(cs), KeySet(cs));
  }

  lemma DropAfterAddPolicies(l: seq<Client>, cs: seq<Client>)
    ensures LastWins(Dropped(Dict(l + cs), KeySet(cs))) == LastWins(Dropped(Dict(l), KeySet(cs)))
  {
    DictMeans(l + cs);
    DictMeans(l);
    DroppedMeans(Dict(l + cs), KeySet(cs));
    DroppedMeans(Dict(l), KeySet(cs));
    LastWinsConcat(l, cs);
    LastWinsKeys(cs);
  }

  /** What a registration added or overwrote, the removal of its keys takes away. */
  lemma DropAfterAdd(l: seq<Client>, cs: seq<Client>)
    ensures Dropped(Dict(l + cs), KeySet(cs)) == Dropped(Dict(l), KeySet(cs))
  {
    DictMeans(l + cs);
    DictMeans(l);
    DroppedMeans(Dict(l + cs), KeySet(cs));
    DroppedMeans(Dict(l), KeySet(cs));
    DropAfterAddKeys(l, cs);
    DropAfterAddPolicies(l, cs);
    SameList(Dropped(Dict(l + cs), KeySet(cs)), Dropped(Dict(l), KeySet(cs)));
  }

  lemma ErasedOver(ls: Listings, e: Endpoint, y: Listing, x: Listing)
    ensures Erased(ls[e := y], e, x)
            == ls[e := Listing(y.servers - x.servers, Dropped(Dict(y.clients), KeySet(x.clients)))]
  {
  }

  lemma DictTwice(l: seq<Client>)
    ensures Dict(Dict(l)) == Dict(l)
  {
    DictMeans(l);
    DictUnchangedIff(Dict(l));
  }

  /** Unregistering swallows a preceding registration of the same configuration: what is stored is the same
      exactly when the row existed before; otherwise an empty row is left. */
  lemma UnregisterAbsorbsRegister(ls: Listings, e: Endpoint, x: Listing)
    ensures Erased(Recorded(ls, e, x), e, x) == if e in ls then Erased(ls, e, x) else ls[e := Listing({}, [])]
  {
    if e in ls {
      var l := ls[e].clients;
      ErasedOver(ls, e, Listing(ls[e].servers + x.servers, Dict(l + x.clients)), x);
      DictTwice(l + x.clients);
      DropAfterAdd(l, x.clients);
      assert ls[e].servers + x.servers - x.servers == ls[e].servers - x.servers;
    } else {
      ErasedOver(ls, e, x, x);
      assert [] + x.clients == x.clients;
      DropAfterAdd([], x.clients);
      assert x.servers - x.servers == {};
    }
  }

  /** Register then unregister gives back the old store exactly when the row existed without repeated
      client keys and shared neither a server nor a client key with the configuration. */
  lemma UnregisterUndoesIff(ls: Listings, e: Endpoint, x: Listing)
    ensures Erased(Recorded(ls, e, x), e, x) == ls
            <==> && e in ls && UniqueKeys(ls[e].clients)
                 && ls[e].servers !! x.servers && KeySet(ls[e].clients) !! KeySet(x.clients)
  {
    UnregisterAbsorbsRegister(ls, e, x);
    if e in ls {
      var both := Erased(ls, e, x);
      assert both == ls <==> both[e] == ls[e];
      assert both[e].servers == ls[e].servers <==> ls[e].servers !! x.servers;
      ErasedUnchangedIff(ls[e].clients, KeySet(x.clients));
    } else {
      assert e in Erased(Recorded(ls, e, x), e, x);
    }
  }

  lemma ErasedUnchangedIff(l: seq<Client>, gone: set<ClientKey>)
    ensures Dropped(Dict(l), gone) == l <==> UniqueKeys(l) && KeySet(l) !! gone
  {
    DictMeans(l);
    DictUnchangedIff(l);
    if Dropped(Dict(l), gone) == l {
      DroppedMeans(Dict(l), gone);
      DroppedMembers(l, gone);
    }
    if UniqueKeys(l) && KeySet(l) !! gone {
      DroppedNothing(l, gone);
    }
  }
}
