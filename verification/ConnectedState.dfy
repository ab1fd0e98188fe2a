/**
 The connected state an endpoint's service keeps: one row per endpoint, changed by the
 register and unregister requests.
 */
module ConnectedState {
  import opened TrafficElements

  // ----- the client list as an insertion-ordered dictionary -----

  ghost predicate UniqueKeys(d: seq<Client>) {
    forall i, j :: 0 <= i < j < |d| ==> KeyOf(d[i]) != KeyOf(d[j])
  }

  function KeySeq(d: seq<Client>): seq<ClientKey> { seq(|d|, i requires 0 <= i < |d| => KeyOf(d[i])) }

  /** dict[key] = c: an existing key keeps its place, a new one goes to the end. */
  function Put(d: seq<Client>, c: Client): seq<Client> {
    if d == [] then [c]
    else if KeyOf(d[0]) == KeyOf(c) then [c] + d[1..]
    else [d[0]] + Put(d[1..], c)
  }

  /** dict.pop(key, None) */
  function Pop(d: seq<Client>, k: ClientKey): seq<Client> {
    if d == [] then []
    else if KeyOf(d[0]) == k then d[1..]
    else [d[0]] + Pop(d[1..], k)
  }

  /** The distinct elements of a list, each where it occurs first. */
  function FirstOccurrences(ks: seq<ClientKey>): seq<ClientKey> {
    if ks == [] then []
    else
      var init := FirstOccurrences(ks[..|ks| - 1]);
      if ks[|ks| - 1] in init then init else init + [ks[|ks| - 1]]
  }

  function Without(ks: seq<ClientKey>, gone: set<ClientKey>): seq<ClientKey> {
    if ks == [] then []
    else if ks[0] in gone then Without(ks[1..], gone)
    else [ks[0]] + Without(ks[1..], gone)
  }

  lemma UniqueBySeq(d: seq<Client>)
    ensures UniqueKeys(d) <==> forall i, j :: 0 <= i < j < |KeySeq(d)| ==> KeySeq(d)[i] != KeySeq(d)[j]
  {
    assert forall i :: 0 <= i < |d| ==> KeyOf(d[i]) == KeySeq(d)[i];
  }

  lemma {:induction false} PutKeys(d: seq<Client>, c: Client)
    ensures KeySeq(Put(d, c)) == if KeyOf(c) in KeySeq(d) then KeySeq(d) else KeySeq(d) + [KeyOf(c)]
  {
    if d == [] {
      assert KeySeq([c]) == [KeyOf(c)];
    } else {
      KeySeqHead(d);
      KeySeqHead(Put(d, c));
      if KeyOf(d[0]) != KeyOf(c) {
        PutKeys(d[1..], c);
        assert Put(d, c)[1..] == Put(d[1..], c);
      }
    }
  }

  lemma KeySeqHead(d: seq<Client>)
    requires d != []
    ensures KeySeq(d) == [KeyOf(d[0])] + KeySeq(d[1..])
  {
  }

  lemma PutUnique(d: seq<Client>, c: Client)
    requires UniqueKeys(d)
    ensures UniqueKeys(Put(d, c))
  {
    PutKeys(d, c);
    UniqueBySeq(d);
    UniqueBySeq(Put(d, c));
  }

  lemma LastWinsHead(d: seq<Client>)
    requires d != []
    ensures LastWins(d) == map[KeyOf(d[0]) := PolicyOf(d[0])] + LastWins(d[1..])
  {
    assert d == [d[0]] + d[1..];
    LastWinsConcat([d[0]], d[1..]);
    assert [d[0]][..0] == [];
  }

  lemma HeadKeyFresh(d: seq<Client>)
    requires d != [] && UniqueKeys(d)
    ensures UniqueKeys(d[1..]) && KeyOf(d[0]) !in LastWins(d[1..])
  {
    LastWinsKeys(d[1..]);
  }

  lemma OverwriteHead(k: ClientKey, p: Policy, q: Policy, rest: map<ClientKey, Policy>)
    requires k !in rest
    ensures map[k := q] + rest == (map[k := p] + rest)[k := q]
    ensures (map[k := p] + rest) - {k} == rest
  {
  }

  lemma OverwriteTail(k: ClientKey, p: Policy, j: ClientKey, q: Policy, rest: map<ClientKey, Policy>)
    requires j != k
    ensures map[k := p] + rest[j := q] == (map[k := p] + rest)[j := q]
    ensures map[k := p] + (rest - {j}) == (map[k := p] + rest) - {j}
  {
  }

  lemma {:induction false} PutMeaning(d: seq<Client>, c: Client)
    requires UniqueKeys(d)
    ensures LastWins(Put(d, c)) == LastWins(d)[KeyOf(c) := PolicyOf(c)]
  {
    LastWinsHead(Put(d, c));
    if d != [] {
      LastWinsHead(d);
      HeadKeyFresh(d);
      if KeyOf(d[0]) == KeyOf(c) {
        OverwriteHead(KeyOf(c), PolicyOf(d[0]), PolicyOf(c), LastWins(d[1..]));
      } else {
        PutMeaning(d[1..], c);
        assert Put(d, c)[1..] == Put(d[1..], c);
        OverwriteTail(KeyOf(d[0]), PolicyOf(d[0]), KeyOf(c), PolicyOf(c), LastWins(d[1..]));
      }
    }
  }

  lemma {:induction false} PopMeaning(d: seq<Client>, k: ClientKey)
    requires UniqueKeys(d)
    ensures LastWins(Pop(d, k)) == LastWins(d) - {k}
  {
    if d != [] {
      LastWinsHead(d);
      HeadKeyFresh(d);
      if KeyOf(d[0]) == k {
        OverwriteHead(k, PolicyOf(d[0]), PolicyOf(d[0]), LastWins(d[1..]));
      } else {
        PopMeaning(d[1..], k);
        LastWinsHead(Pop(d, k));
        assert Pop(d, k)[1..] == Pop(d[1..], k);
        OverwriteTail(KeyOf(d[0]), PolicyOf(d[0]), k, PolicyOf(d[0]), LastWins(d[1..]));
      }
    }
  }

  lemma OneEntryMore(cs: seq<Client>, c: Client)
    ensures LastWins(cs + [c]) == LastWins(cs)[KeyOf(c) := PolicyOf(c)]
    ensures FirstOccurrences(KeySeq(cs + [c]))
            == if KeyOf(c) in FirstOccurrences(KeySeq(cs)) then FirstOccurrences(KeySeq(cs))
               else FirstOccurrences(KeySeq(cs)) + [KeyOf(c)]
  {
    assert (cs + [c])[..|cs|] == cs;
    assert KeySeq(cs + [c])[..|cs|] == KeySeq(cs);
  }

  lemma {:induction false} WithoutAbsent(ks: seq<ClientKey>, gone: set<ClientKey>)
    requires forall k :: k in ks ==> k !in gone
    ensures Without(ks, gone) == ks
  {
    if ks != [] { WithoutAbsent(ks[1..], gone); }
  }

  lemma {:induction false} WithoutTwice(ks: seq<ClientKey>, a: set<ClientKey>, b: set<ClientKey>)
    ensures Without(Without(ks, a), b) == Without(ks, a + b)
  {
    if ks != [] { WithoutTwice(ks[1..], a, b); }
  }

  lemma {:induction false} PopKeys(d: seq<Client>, k: ClientKey)
    requires UniqueKeys(d)
    ensures KeySeq(Pop(d, k)) == Without(KeySeq(d), {k})
  {
    if d != [] {
      assert KeySeq(d) == [KeyOf(d[0])] + KeySeq(d[1..]);
      if KeyOf(d[0]) == k {
        assert forall j :: 0 <= j < |KeySeq(d[1..])| ==> KeySeq(d[1..])[j] == KeyOf(d[1 + j]);
        WithoutAbsent(KeySeq(d[1..]), {k});
      } else {
        PopKeys(d[1..], k);
        assert KeySeq(Pop(d, k)) == [KeyOf(d[0])] + KeySeq(Pop(d[1..], k));
      }
    }
  }

  lemma {:induction false} WithoutDistinct(ks: seq<ClientKey>, gone: set<ClientKey>)
    requires forall i, j :: 0 <= i < j < |ks| ==> ks[i] != ks[j]
    ensures forall k :: k in Without(ks, gone) <==> k in ks && k !in gone
    ensures forall i, j :: 0 <= i < j < |Without(ks, gone)| ==> Without(ks, gone)[i] != Without(ks, gone)[j]
  {
    if ks != [] { WithoutDistinct(ks[1..], gone); }
  }

  lemma PopUnique(d: seq<Client>, k: ClientKey)
    requires UniqueKeys(d)
    ensures UniqueKeys(Pop(d, k))
  {
    UniqueBySeq(d);
    PopKeys(d, k);
    WithoutDistinct(KeySeq(d), {k});
    UniqueBySeq(Pop(d, k));
  }

  function FirstIndex(ks: seq<ClientKey>, k: ClientKey): (i: nat)
    requires k in ks
    ensures i < |ks| && ks[i] == k && forall j :: 0 <= j < i ==> ks[j] != k
  {
    if ks[0] == k then 0
    else
      assert forall j :: 0 < j < |ks| ==> ks[j] == ks[1..][j - 1];
      1 + FirstIndex(ks[1..], k)
  }

  /** FirstOccurrences has the same elements, in strictly increasing order of first position. */
  lemma {:induction false} FirstOccurrencesOrdered(ks: seq<ClientKey>)
    ensures forall k :: k in FirstOccurrences(ks) <==> k in ks
    ensures forall i, j :: 0 <= i < j < |FirstOccurrences(ks)| ==>
              FirstIndex(ks, FirstOccurrences(ks)[i]) < FirstIndex(ks, FirstOccurrences(ks)[j])
  {
    if ks != [] {
      var n := |ks| - 1;
      var init := ks[..n];
      FirstOccurrencesOrdered(init);
      assert ks == init + [ks[n]];
      forall k | k in init ensures FirstIndex(init, k) == FirstIndex(ks, k) {
        FirstIndexUnique(init, ks, k);
      }
      if ks[n] !in init {
        assert FirstIndex(ks, ks[n]) == n;
      }
    }
  }

  lemma FirstIndexUnique(init: seq<ClientKey>, ks: seq<ClientKey>, k: ClientKey)
    requires k in init && init <= ks
    ensures FirstIndex(init, k) == FirstIndex(ks, k)
  {
    var a, b := FirstIndex(init, k), FirstIndex(ks, k);
    assert forall j :: 0 <= j < |init| ==> init[j] == ks[j];
  }

  /** Removing the key of the i-th entry after those of the entries before it. */
  lemma PopOneMore(d: seq<Client>, rest: seq<Client>, cs: seq<Client>, i: nat)
    requires i < |cs| && UniqueKeys(rest)
    requires LastWins(rest) == LastWins(d) - KeySet(cs[..i]) && KeySeq(rest) == Without(KeySeq(d), KeySet(cs[..i]))
    ensures UniqueKeys(Pop(rest, KeyOf(cs[i])))
    ensures LastWins(Pop(rest, KeyOf(cs[i]))) == LastWins(d) - KeySet(cs[..i + 1])
    ensures KeySeq(Pop(rest, KeyOf(cs[i]))) == Without(KeySeq(d), KeySet(cs[..i + 1]))
  {
    var k := KeyOf(cs[i]);
    PopUnique(rest, k);
    PopMeaning(rest, k);
    PopKeys(rest, k);
    WithoutTwice(KeySeq(d), KeySet(cs[..i]), {k});
    assert cs[..i + 1] == cs[..i] + [cs[i]];
    assert KeySet(cs[..i + 1]) == KeySet(cs[..i]) + {k};
  }

  lemma PutOneMore(d: seq<Client>, before: seq<Client>, c: Client)
    requires UniqueKeys(d) && LastWins(d) == LastWins(before) && KeySeq(d) == FirstOccurrences(KeySeq(before))
    ensures UniqueKeys(Put(d, c)) && LastWins(Put(d, c)) == LastWins(before + [c])
    ensures KeySeq(Put(d, c)) == FirstOccurrences(KeySeq(before + [c]))
  {
    PutUnique(d, c);
    PutMeaning(d, c);
    PutKeys(d, c);
    OneEntryMore(before, c);
  }

  lemma PutAt(d: seq<Client>, cs: seq<Client>, i: nat)
    requires i < |cs| && UniqueKeys(d)
    requires LastWins(d) == LastWins(cs[..i]) && KeySeq(d) == FirstOccurrences(KeySeq(cs[..i]))
    ensures UniqueKeys(Put(d, cs[i])) && LastWins(Put(d, cs[i])) == LastWins(cs[..i + 1])
    ensures KeySeq(Put(d, cs[i])) == FirstOccurrences(KeySeq(cs[..i + 1]))
  {
    PutOneMore(d, cs[..i], cs[i]);
    assert cs[..i + 1] == cs[..i] + [cs[i]];
  }

  // ----- the dictionary as a function of the list read into it -----

  lemma KeySeqConcat(a: seq<Client>, b: seq<Client>)
    ensures KeySeq(a + b) == KeySeq(a) + KeySeq(b)
  {
  }

  /** The values of the dictionary built from a list. */
  function Dict(cs: seq<Client>): seq<Client> {
    if cs == [] then [] else Put(Dict(cs[..|cs| - 1]), cs[|cs| - 1])
  }

  /** One entry per key, where the key occurs first, with the policy written last. */
  lemma {:induction false} DictMeans(cs: seq<Client>)
    ensures UniqueKeys(Dict(cs)) && LastWins(Dict(cs)) == LastWins(cs)
    ensures KeySeq(Dict(cs)) == FirstOccurrences(KeySeq(cs))
  {
    if cs != [] {
      var init, last := cs[..|cs| - 1], cs[|cs| - 1];
      DictMeans(init);
      PutAt(Dict(init), cs, |init|);
      assert cs[..|init| + 1] == cs;
    }
  }

  /** In a list without repeated keys every entry has the policy of its key. */
  lemma {:induction false} UniquePolicy(d: seq<Client>, i: nat)
    requires UniqueKeys(d) && i < |d|
    ensures KeyOf(d[i]) in LastWins(d) && LastWins(d)[KeyOf(d[i])] == PolicyOf(d[i])
  {
    LastWinsIsLastEntry(d, KeyOf(d[i]), PolicyOf(d[i]));
    assert LastEntry(d, i, KeyOf(d[i]), PolicyOf(d[i]));
  }

  /** Keys in order and policies determine such a list. */
  lemma SameList(a: seq<Client>, b: seq<Client>)
    requires UniqueKeys(a) && UniqueKeys(b)
    requires KeySeq(a) == KeySeq(b) && LastWins(a) == LastWins(b)
    ensures a == b
  {
    assert |a| == |KeySeq(a)| == |KeySeq(b)| == |b|;
    forall i | 0 <= i < |a| ensures a[i] == b[i] {
      assert KeySeq(a)[i] == KeySeq(b)[i];
      UniquePolicy(a, i);
      UniquePolicy(b, i);
    }
  }

  lemma SameDict(a: seq<Client>, b: seq<Client>)
    requires FirstOccurrences(KeySeq(a)) == FirstOccurrences(KeySeq(b)) && LastWins(a) == LastWins(b)
    ensures Dict(a) == Dict(b)
  {
    DictMeans(a);
    DictMeans(b);
    SameList(Dict(a), Dict(b));
  }

  lemma {:induction false} FirstOccurrencesDistinct(ks: seq<ClientKey>)
    requires forall i, j :: 0 <= i < j < |ks| ==> ks[i] != ks[j]
    ensures FirstOccurrences(ks) == ks
  {
    if ks != [] { FirstOccurrencesDistinct(ks[..|ks| - 1]); }
  }

  /** The list read into the dictionary comes out as it was exactly if its keys are unique. */
  lemma DictUnchangedIff(cs: seq<Client>)
    ensures Dict(cs) == cs <==> UniqueKeys(cs)
  {
    DictMeans(cs);
    if UniqueKeys(cs) {
      UniqueBySeq(cs);
      FirstOccurrencesDistinct(KeySeq(cs));
      SameList(Dict(cs), cs);
    }
  }

  lemma {:induction false} FirstOccurrencesNested(a: seq<ClientKey>, b: seq<ClientKey>)
    ensures FirstOccurrences(FirstOccurrences(a) + b) == FirstOccurrences(a + b)
  {
    if b == [] {
      FirstOccurrencesOrdered(a);
      FirstOccurrencesDistinct(FirstOccurrences(a));
      assert a + b == a && FirstOccurrences(a) + b == FirstOccurrences(a);
    } else {
      var init, last := b[..|b| - 1], b[|b| - 1];
      FirstOccurrencesNested(a, init);
      assert (a + b)[..|a + b| - 1] == a + init;
      assert (FirstOccurrences(a) + b)[..|FirstOccurrences(a) + b| - 1] == FirstOccurrences(a) + init;
    }
  }

  lemma {:induction false} FirstOccurrencesAbsorb(a: seq<ClientKey>, b: seq<ClientKey>)
    requires forall k :: k in b ==> k in a
    ensures FirstOccurrences(a + b) == FirstOccurrences(a)
  {
    if b == [] {
      assert a + b == a;
    } else {
      var init, last := b[..|b| - 1], b[|b| - 1];
      FirstOccurrencesAbsorb(a, init);
      FirstOccurrencesOrdered(a);
      assert (a + b)[..|a + b| - 1] == a + init;
    }
  }

  /** Reading a dictionary's values and then more is reading everything at once. */
  lemma DictNested(a: seq<Client>, b: seq<Client>)
    ensures Dict(Dict(a) + b) == Dict(a + b)
  {
    DictMeans(a);
    KeySeqConcat(Dict(a), b);
    KeySeqConcat(a, b);
    LastWinsConcat(Dict(a), b);
    LastWinsConcat(a, b);
    FirstOccurrencesNested(KeySeq(a), KeySeq(b));
    SameDict(Dict(a) + b, a + b);
  }

  lemma KeysOfPart(a: seq<Client>, b: seq<Client>)
    requires KeySet(a) <= KeySet(b)
    ensures forall k :: k in KeySeq(a) ==> k in KeySeq(b)
  {
    forall k | k in KeySeq(a) ensures k in KeySeq(b) {
      var i :| 0 <= i < |a| && KeySeq(a)[i] == k;
      assert a[i] in a && k in KeySet(a);
      var c :| c in b && KeyOf(c) == k;
      var j :| 0 <= j < |b| && b[j] == c;
      assert KeySeq(b)[j] == k;
    }
  }

  /** Reading a list that only overwrites does not move any key. */
  lemma DictOverwrite(a: seq<Client>, b: seq<Client>)
    requires KeySet(b) <= KeySet(a) && LastWins(a) + LastWins(b) == LastWins(a)
    ensures Dict(a + b) == Dict(a)
  {
    KeySeqConcat(a, b);
    LastWinsConcat(a, b);
    KeysOfPart(b, a);
    FirstOccurrencesAbsorb(KeySeq(a), KeySeq(b));
    SameDict(a + b, a);
  }

  /** The entries whose keys are not among those given. */
  function Dropped(d: seq<Client>, gone: set<ClientKey>): seq<Client> {
    if d == [] then []
    else if KeyOf(d[0]) in gone then Dropped(d[1..], gone)
    else [d[0]] + Dropped(d[1..], gone)
  }

  lemma {:induction false} DroppedMembers(d: seq<Client>, gone: set<ClientKey>)
    ensures forall c :: c in Dropped(d, gone) <==> c in d && KeyOf(c) !in gone
    ensures KeySeq(Dropped(d, gone)) == Without(KeySeq(d), gone)
  {
    if d != [] {
      DroppedMembers(d[1..], gone);
      KeySeqHead(d);
      if KeyOf(d[0]) !in gone {
        KeySeqHead(Dropped(d, gone));
        assert Dropped(d, gone)[1..] == Dropped(d[1..], gone);
      }
    }
  }

  lemma DroppedMeans(d: seq<Client>, gone: set<ClientKey>)
    requires UniqueKeys(d)
    ensures UniqueKeys(Dropped(d, gone)) && LastWins(Dropped(d, gone)) == LastWins(d) - gone
  {
    DroppedMembers(d, gone);
    UniqueBySeq(d);
    WithoutDistinct(KeySeq(d), gone);
    UniqueBySeq(Dropped(d, gone));
    DroppedPolicies(d, gone);
  }

  lemma RemoveHead(k: ClientKey, p: Policy, rest: map<ClientKey, Policy>, gone: set<ClientKey>)
    ensures k in gone ==> (map[k := p] + rest) - gone == rest - gone
    ensures k !in gone ==> (map[k := p] + rest) - gone == map[k := p] + (rest - gone)
  {
  }

  lemma {:induction false} DroppedPolicies(d: seq<Client>, gone: set<ClientKey>)
    ensures LastWins(Dropped(d, gone)) == LastWins(d) - gone
  {
    if d != [] {
      DroppedPolicies(d[1..], gone);
      LastWinsHead(d);
      RemoveHead(KeyOf(d[0]), PolicyOf(d[0]), LastWins(d[1..]), gone);
      if KeyOf(d[0]) !in gone {
        LastWinsHead(Dropped(d, gone));
        assert Dropped(d, gone)[1..] == Dropped(d[1..], gone);
      }
    }
  }

  lemma {:induction false} DroppedNothing(d: seq<Client>, gone: set<ClientKey>)
    requires KeySet(d) !! gone
    ensures Dropped(d, gone) == d
  {
    if d != [] {
      assert KeyOf(d[0]) in KeySet(d);
      assert KeySet(d[1..]) <= KeySet(d);
      DroppedNothing(d[1..], gone);
    }
  }

  lemma IsDict(d: seq<Client>, cs: seq<Client>)
    requires UniqueKeys(d) && LastWins(d) == LastWins(cs) && KeySeq(d) == FirstOccurrences(KeySeq(cs))
    ensures d == Dict(cs)
  {
    DictMeans(cs);
    SameList(d, Dict(cs));
  }

  lemma IsDropped(d: seq<Client>, cs: seq<Client>, gone: set<ClientKey>)
    requires UniqueKeys(d) && LastWins(d) == LastWins(cs) - gone
    requires KeySeq(d) == Without(FirstOccurrences(KeySeq(cs)), gone)
    ensures d == Dropped(Dict(cs), gone)
  {
    DictMeans(cs);
    DroppedMembers(Dict(cs), gone);
    DroppedMeans(Dict(cs), gone);
    SameList(d, Dropped(Dict(cs), gone));
  }

  // ----- the store of one service -----

  /** A row up to the order of its servers: what is stored, and what the agents are given. */
  datatype Listing = Listing(servers: set<Server>, clients: seq<Client>)

  type Listings = map<Endpoint, Listing>

  function ListingOf(row: Row): Listing { Listing((set s | s in row.servers), row.clients) }

  /** A missing row is created with the lists as they come; an existing one is merged, its client list
      going through a dictionary. */
  function Recorded(ls: Listings, e: Endpoint, x: Listing): Listings {
    if e in ls then ls[e := Listing(ls[e].servers + x.servers, Dict(ls[e].clients + x.clients))] else ls[e := x]
  }

  /** Erasing at an endpoint without a row does nothing. */
  function Erased(ls: Listings, e: Endpoint, x: Listing): Listings {
    if e in ls then
      ls[e := Listing(ls[e].servers - x.servers, Dropped(Dict(ls[e].clients), KeySet(x.clients)))]
    else ls
  }

  // ----- the store seen through what its rows mean -----

  type Store = map<Endpoint, Config>

  function At(st: Store, e: Endpoint): Config { if e in st then st[e] else EMPTY }

  function Registered(st: Store, e: Endpoint, c: Config): Store { st[e := Merge(At(st, e), c)] }

  /** Unregistering at an endpoint without a row does nothing. */
  function Unregistered(st: Store, e: Endpoint, c: Config): Store {
    if e in st then st[e := Remove(st[e], c)] else st
  }

  function ReadOf(x: Listing): Config { Config(x.servers, LastWins(x.clients)) }

  function ReadAll(ls: Listings): Store { map e | e in ls :: ReadOf(ls[e]) }

  lemma RecordedRead(ls: Listings, e: Endpoint, x: Listing)
    ensures ReadAll(Recorded(ls, e, x)) == Registered(ReadAll(ls), e, ReadOf(x))
  {
    if e in ls {
      DictMeans(ls[e].clients + x.clients);
      LastWinsConcat(ls[e].clients, x.clients);
    } else {
      assert Merge(EMPTY, ReadOf(x)) == ReadOf(x);
    }
  }

  lemma ErasedRead(ls: Listings, e: Endpoint, x: Listing)
    ensures ReadAll(Erased(ls, e, x)) == Unregistered(ReadAll(ls), e, ReadOf(x))
  {
    if e in ls {
      DictMeans(ls[e].clients);
      DroppedMeans(Dict(ls[e].clients), KeySet(x.clients));
      LastWinsKeys(x.clients);
    }
  }

  class ConnectedStateProcessor {
    var rows: map<Endpoint, Row>

    ghost function Listed(): Listings
      reads this
    {
      map e | e in rows :: ListingOf(rows[e])
    }

    ghost function Deployed(): Store
      reads this
    {
      ReadAll(Listed())
    }

    constructor ()
      ensures rows == map[] && Listed() == map[]
    {
      rows := map[];
    }

    /** Some listing without repetition of the union or the difference. */
    method UpdateServers(current: seq<Server>, changes: seq<Server>, add: bool) returns (r: seq<Server>)
      ensures forall s :: s in r <==> if add then s in current || s in changes else s in current && s !in changes
      ensures forall i, j :: 0 <= i < j < |r| ==> r[i] != r[j]
    {
      var a, b := (set s | s in current), (set s | s in changes);
      var todo := if add then a + b else a - b;
      ghost var all := todo;
      r := [];
      while todo != {}
        invariant forall s :: s in all <==> s in r || s in todo
        invariant forall s :: s in r ==> s !in todo
        invariant forall i, j :: 0 <= i < j < |r| ==> r[i] != r[j]
      {
        var s :| s in todo;
        todo := todo - {s};
        r := r + [s];
      }
    }

    /** Unique keys in order of first occurrence, each with the policy written last; or the keys removed. */
    method UpdateClients(current: seq<Client>, changes: seq<Client>, add: bool) returns (clients: seq<Client>)
      ensures UniqueKeys(clients)
      ensures LastWins(clients) == if add then LastWins(current) + LastWins(changes)
                                   else LastWins(current) - LastWins(changes).Keys
      ensures KeySeq(clients) == if add then FirstOccurrences(KeySeq(current + changes))
                                 else Without(FirstOccurrences(KeySeq(current)), KeySet(changes))
      ensures clients == if add then Dict(current + changes) else Dropped(Dict(current), KeySet(changes))
    {
      assert current[..0] == [];
      clients := PutFrom([], current, 0);
      if add {
        LastWinsConcat(current, changes);
        assert (current + changes)[..|current|] == current;
        clients := PutFrom(clients, current + changes, |current|);
        IsDict(clients, current + changes);
      } else {
        LastWinsKeys(changes);
        clients := PopAll(clients, changes);
        IsDropped(clients, current, KeySet(changes));
      }
    }

    /** Writes the entries from position k on over a dictionary holding the entries before it. */
    method PutFrom(d: seq<Client>, cs: seq<Client>, k: nat) returns (clients: seq<Client>)
      requires k <= |cs| && UniqueKeys(d)
      requires LastWins(d) == LastWins(cs[..k]) && KeySeq(d) == FirstOccurrences(KeySeq(cs[..k]))
      ensures UniqueKeys(clients)
      ensures LastWins(clients) == LastWins(cs) && KeySeq(clients) == FirstOccurrences(KeySeq(cs))
    {
      clients := d;
      for i := k to |cs|
        invariant UniqueKeys(clients)
        invariant LastWins(clients) == LastWins(cs[..i]) && KeySeq(clients) == FirstOccurrences(KeySeq(cs[..i]))
      {
        clients := PutStep(clients, cs, i);
      }
      assert cs[..|cs|] == cs;
    }

    method PopAll(d: seq<Client>, cs: seq<Client>) returns (clients: seq<Client>)
      requires UniqueKeys(d)
      ensures UniqueKeys(clients)
      ensures LastWins(clients) == LastWins(d) - KeySet(cs)
      ensures KeySeq(clients) == Without(KeySeq(d), KeySet(cs))
    {
      clients := d;
      WithoutAbsent(KeySeq(d), {});
      assert KeySet(cs[..0]) == {};
      for i := 0 to |cs|
        invariant UniqueKeys(clients)
        invariant LastWins(clients) == LastWins(d) - KeySet(cs[..i])
        invariant KeySeq(clients) == Without(KeySeq(d), KeySet(cs[..i]))
      {
        PopOneMore(d, clients, cs, i);
        clients := Pop(clients, KeyOf(cs[i]));
      }
      assert cs[..|cs|] == cs;
    }

    /** Writes the i-th entry of a list over a dictionary holding the entries before it. */
    method PutStep(d: seq<Client>, cs: seq<Client>, i: nat) returns (d': seq<Client>)
      requires i < |cs| && UniqueKeys(d)
      requires LastWins(d) == LastWins(cs[..i]) && KeySeq(d) == FirstOccurrences(KeySeq(cs[..i]))
      ensures UniqueKeys(d')
      ensures LastWins(d') == LastWins(cs[..i + 1]) && KeySeq(d') == FirstOccurrences(KeySeq(cs[..i + 1]))
    {
      PutAt(d, cs, i);
      d' := Put(d, cs[i]);
    }

    /** A missing row is created with the raw lists, an existing one is merged. */
    method CreateOrUpdateConnectedState(endpoint: Endpoint, servers: seq<Server>, clients: seq<Client>)
      modifies this
      ensures Listed() == Recorded(old(Listed()), endpoint, ListingOf(Row(servers, clients)))
      ensures endpoint !in old(rows) ==> rows == old(rows)[endpoint := Row(servers, clients)]
    {
      if endpoint !in rows {
        rows := rows[endpoint := Row(servers, clients)];
      } else {
        var updatedServers := UpdateServers(rows[endpoint].servers, servers, true);
        var updatedClients := UpdateClients(rows[endpoint].clients, clients, true);
        ghost var was, row := rows[endpoint], Row(updatedServers, updatedClients);
        assert ListingOf(row).servers == ListingOf(was).servers + ListingOf(Row(servers, clients)).servers;
        rows := rows[endpoint := Row(updatedServers, updatedClients)];
      }
    }

    method DeleteConnectedState(endpoint: Endpoint, servers: seq<Server>, clients: seq<Client>)
      modifies this
      ensures Listed() == Erased(old(Listed()), endpoint, ListingOf(Row(servers, clients)))
      ensures rows.Keys == old(rows.Keys)
    {
      if endpoint in rows {
        var updatedServers := UpdateServers(rows[endpoint].servers, servers, false);
        var updatedClients := UpdateClients(rows[endpoint].clients, clients, false);
        ghost var was, row := rows[endpoint], Row(updatedServers, updatedClients);
        assert ListingOf(row).servers == ListingOf(was).servers - ListingOf(Row(servers, clients)).servers;
        rows := rows[endpoint := Row(updatedServers, updatedClients)];
      }
    }
  }
}
