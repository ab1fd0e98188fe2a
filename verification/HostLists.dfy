/**
 The client lists the hosts store after a run of the controller, entry by entry: they are what the hosts'
 traffic clients ping. A row created by a push keeps every outgoing rule, overridden ones included; a
 later push leaves one entry per key.
 */
module HostLists {
  import opened TrafficElements
  import opened ConnectedState
  import opened RuleCompiler
  import opened Deployment

  /** The register calls whose push reached the host. */
  function Arrivals(calls: seq<Call>, h: Endpoint): nat {
    if calls == [] then 0
    else
      var last := calls[|calls| - 1];
      Arrivals(calls[..|calls| - 1], h) + if last.kind.RegisterCall? && h in last.delivered then 1 else 0
  }

  function StoredClients(calls: seq<Call>, h: Endpoint): seq<Client> {
    var outgoing := Outgoing(Known(calls, h), h);
    if Arrivals(calls, h) == 1 then outgoing else Dict(outgoing)
  }

  // ----- lists read over lists they begin with -----

  lemma KeysOfPrefix(a: seq<ClientKey>, b: seq<ClientKey>)
    ensures FirstOccurrences(a + (a + b)) == FirstOccurrences(a + b)
  {
    assert a + (a + b) == (a + a) + b;
    FirstOccurrencesAbsorb(a, a);
    FirstOccurrencesNested(a + a, b);
    FirstOccurrencesNested(a, b);
  }

  lemma PoliciesOfPrefix(a: seq<Client>, b: seq<Client>)
    ensures LastWins(a + (a + b)) == LastWins(a + b)
  {
    LastWinsConcat(a, a + b);
    LastWinsConcat(a, b);
  }

  lemma DictOfPrefix(a: seq<Client>, all: seq<Client>)
    requires a <= all
    ensures Dict(a + all) == Dict(all) && KeySet(a) <= KeySet(all)
  {
    var b := all[|a|..];
    assert all == a + b;
    KeySeqConcat(a, b);
    KeySeqConcat(a, all);
    KeysOfPrefix(KeySeq(a), KeySeq(b));
    PoliciesOfPrefix(a, b);
    SameDict(a + all, all);
  }

  lemma {:induction false} DictKeySet(cs: seq<Client>)
    ensures KeySet(Dict(cs)) == KeySet(cs)
  {
    DictMeans(cs);
    LastWinsKeys(Dict(cs));
    LastWinsKeys(cs);
  }

  lemma {:induction false} DroppedAll(d: seq<Client>, gone: set<ClientKey>)
    requires KeySet(d) <= gone
    ensures Dropped(d, gone) == []
  {
    if d != [] {
      assert KeyOf(d[0]) in KeySet(d) && KeySet(d[1..]) <= KeySet(d);
      DroppedAll(d[1..], gone);
    }
  }

  lemma {:induction false} OutgoingPrefix(a: seq<Rule>, b: seq<Rule>, h: Endpoint)
    ensures Outgoing(a, h) <= Outgoing(a + b, h)
  {
    if b == [] {
      assert a + b == a;
    } else {
      OutgoingPrefix(a, b[..|b| - 1], h);
      assert (a + b)[..|a + b| - 1] == a + b[..|b| - 1];
    }
  }

  lemma {:induction false} KnownPrefix(calls: seq<Call>, h: Endpoint)
    ensures Known(calls, h) <= AllRules(calls)
  {
    if calls != [] { KnownPrefix(calls[..|calls| - 1], h); }
  }

  lemma PrefixBegins(known: seq<Rule>, all: seq<Rule>, rules: seq<Rule>, h: Endpoint)
    requires known <= all
    ensures Outgoing(known, h) <= Outgoing(all + rules, h)
  {
    var rest := all[|known|..] + rules;
    assert all + rules == known + rest;
    OutgoingPrefix(known, rest, h);
  }

  /** What is stored begins what a later push brings, up to the dictionary. */
  lemma StoredBefore(calls: seq<Call>, rules: seq<Rule>, h: Endpoint)
    ensures var l, all := StoredClients(calls, h), Outgoing(AllRules(calls) + rules, h);
            Dict(l + all) == Dict(all) && KeySet(l) <= KeySet(all)
  {
    var outgoing, all := Outgoing(Known(calls, h), h), Outgoing(AllRules(calls) + rules, h);
    KnownPrefix(calls, h);
    PrefixBegins(Known(calls, h), AllRules(calls), rules, h);
    DictOfPrefix(outgoing, all);
    DictNested(outgoing, all);
    DictKeySet(outgoing);
  }

  // ----- the lists after a run -----

  lemma PushedClients(calls: seq<Call>, c: Call, h: Endpoint)
    requires ValidRun(calls) && ValidCall(Run(calls), c) && h in c.delivered
    ensures h in Compile(Run(calls).recs, c.rules)
    ensures Compile(Run(calls).recs, c.rules)[h].clients == Outgoing(AllRules(calls) + c.rules, h)
  {
    RunConsistent(calls);
    CompileConcat(map[], AllRules(calls), c.rules);
    RecordOf(AllRules(calls) + c.rules, h);
  }

  lemma ListingAfterPush(calls: seq<Call>, c: Call, h: Endpoint)
    requires ValidRun(calls) && ValidCall(Run(calls), c) && h in c.delivered
    ensures var ls, ls' := ListingsAt(Run(calls).fleet, h), ListingsAt(Step(Run(calls), c).fleet, h);
            var all := Outgoing(AllRules(calls) + c.rules, h);
            && (h in ls' <==> h in ls || c.kind.RegisterCall?)
            && (h in ls' ==> ls'[h].clients
                             == if c.kind.RegisterCall? then (if h in ls then Dict(ls[h].clients + all) else all)
                                else Dropped(Dict(ls[h].clients), KeySet(all)))
  {
    PushedClients(calls, c, h);
    PushAllListings(Run(calls).fleet, c.kind, Compile(Run(calls).recs, c.rules), c.delivered, h);
  }

  ghost predicate ListIs(calls: seq<Call>, h: Endpoint, ls: Listings) {
    && (h in ls <==> Arrivals(calls, h) > 0)
    && (h in ls ==> ls[h].clients == StoredClients(calls, h))
  }

  lemma StoredOneMore(calls: seq<Call>, c: Call, h: Endpoint)
    requires h in c.delivered
    ensures Arrivals(calls + [c], h) == Arrivals(calls, h) + if c.kind.RegisterCall? then 1 else 0
    ensures var all := Outgoing(AllRules(calls) + c.rules, h);
            StoredClients(calls + [c], h)
            == if c.kind.UnregisterCall? then [] else if Arrivals(calls, h) == 0 then all else Dict(all)
  {
    assert (calls + [c])[..|calls|] == calls;
  }

  lemma ListAfterPush(calls: seq<Call>, c: Call, h: Endpoint)
    requires ValidRun(calls) && ValidCall(Run(calls), c) && h in c.delivered
    requires ListIs(calls, h, ListingsAt(Run(calls).fleet, h))
    ensures ListIs(calls + [c], h, ListingsAt(Step(Run(calls), c).fleet, h))
  {
    ListingAfterPush(calls, c, h);
    StoredOneMore(calls, c, h);
    PushOverStored(calls, c, h);
  }

  /** What a push makes of a stored list, as a dictionary over it or what is left of one. */
  lemma PushOverStored(calls: seq<Call>, c: Call, h: Endpoint)
    ensures var l, all := StoredClients(calls, h), Outgoing(AllRules(calls) + c.rules, h);
            Dict(l + all) == Dict(all) && Dropped(Dict(l), KeySet(all)) == []
  {
    StoredBefore(calls, c.rules, h);
    DictKeySet(StoredClients(calls, h));
    DroppedAll(Dict(StoredClients(calls, h)), KeySet(Outgoing(AllRules(calls) + c.rules, h)));
  }

  /** After any run, any pushes lost: a host has a row exactly if a register call ever reached it. Its client
      list is every outgoing rule it knows, in order, if one register call did; otherwise one entry per
      key, in order of first occurrence, with the policy written last. */
  lemma {:induction false} ListAfterRun(calls: seq<Call>, h: Endpoint)
    requires ValidRun(calls)
    ensures var ls := ListingsAt(Run(calls).fleet, h);
            && (h in ls <==> Arrivals(calls, h) > 0)
            && (h in ls ==> ls[h].clients == StoredClients(calls, h))
  {
    if calls != [] {
      var init, last := calls[..|calls| - 1], calls[|calls| - 1];
      ListAfterRun(init, h);
      if h in last.delivered {
        assert calls == init + [last];
        ListAfterPush(init, last, h);
        assert ListIs(calls, h, ListingsAt(Run(calls).fleet, h));
      } else {
        ListAfterLoss(calls, h);
      }
    }
  }

  /** A call that does not reach the host changes nothing there. */
  lemma ListAfterLoss(calls: seq<Call>, h: Endpoint)
    requires ValidRun(calls) && calls != [] && h !in calls[|calls| - 1].delivered
    ensures var init := calls[..|calls| - 1];
            && ListingsAt(Run(calls).fleet, h) == ListingsAt(Run(init).fleet, h)
            && Arrivals(calls, h) == Arrivals(init, h) && StoredClients(calls, h) == StoredClients(init, h)
  {
    var init, last := calls[..|calls| - 1], calls[|calls| - 1];
    PushAllListings(Run(init).fleet, last.kind, Run(calls).recs, last.delivered, h);
  }

  // ----- the lists entry by entry -----

  /** Entry n goes back to the rules at first[n] and last[n]: it stands where the first of them stands and
      carries the fields of the last. */
  ghost predicate EntriesFrom(list: seq<Client>, rules: seq<Rule>, h: Endpoint, first: seq<nat>, last: seq<nat>) {
    && |first| == |last| == |list|
    && (forall m, n :: 0 <= m < n < |first| ==> first[m] < first[n])
    && (forall n :: 0 <= n < |list| ==>
          && first[n] < |rules| && last[n] < |rules|
          && rules[first[n]].src == rules[last[n]].src == h && SameKey(rules[first[n]], rules[last[n]])
          && var r := rules[last[n]];
             list[n] == Client(r.protocol, r.port, r.dst, r.connected, r.action))
  }

  /** No rule of the host before, or after, place i has its key. */
  ghost predicate FirstOfKey(rules: seq<Rule>, h: Endpoint, i: nat) {
    && i < |rules| && rules[i].src == h
    && forall j :: 0 <= j < i && rules[j].src == h ==> !SameKey(rules[j], rules[i])
  }

  ghost predicate LastOfKey(rules: seq<Rule>, h: Endpoint, i: nat) {
    && i < |rules| && rules[i].src == h
    && forall j :: i < j < |rules| && rules[j].src == h ==> !SameKey(rules[j], rules[i])
  }

  lemma RawEntries(rules: seq<Rule>, h: Endpoint)
    ensures EntriesFrom(Outgoing(rules, h), rules, h, Places(rules, h), Places(rules, h))
    ensures forall i: nat :: i in Places(rules, h) <==> i < |rules| && rules[i].src == h
  {
    PlacesInOrder(rules, h);
    OutgoingEntries(rules, h);
    var at := Places(rules, h);
    forall n | 0 <= n < |at| ensures rules[at[n]].src == h { assert at[n] in at; }
  }

  /** Entry n of the dictionary first stood at the place of rule i, and rule l overwrote it last. */
  ghost predicate DictEntryFrom(rules: seq<Rule>, h: Endpoint, n: nat, i: nat, l: nat) {
    var o, at, d := Outgoing(rules, h), Places(rules, h), Dict(Outgoing(rules, h));
    && n < |d| && |o| == |at| && KeyOf(d[n]) in KeySeq(o) && i == at[FirstIndex(KeySeq(o), KeyOf(d[n]))]
    && FirstOfKey(rules, h, i) && LastOfKey(rules, h, l) && SameKey(rules[i], rules[l])
    && var r := rules[l];
       d[n] == Client(r.protocol, r.port, r.dst, r.connected, r.action)
  }

  lemma DictEntry(rules: seq<Rule>, h: Endpoint, n: nat) returns (i: nat, l: nat)
    requires n < |Dict(Outgoing(rules, h))|
    ensures DictEntryFrom(rules, h, n, i, l)
  {
    var o, at := Outgoing(rules, h), Places(rules, h);
    var c := Dict(o)[n];
    DictMeans(o);
    FirstOccurrencesOrdered(KeySeq(o));
    OutgoingEntries(rules, h);
    assert KeySeq(Dict(o))[n] == KeyOf(c);
    assert KeyOf(c) in KeySeq(o);
    i := at[FirstIndex(KeySeq(o), KeyOf(c))];
    FirstPlace(rules, h, KeyOf(c));
    DictIsCurrent(rules, h);
    assert c in Dict(o) && Current(rules, h, c);
    l :| LastMatch(rules, l, h, KeyOf(c)) && Policy(rules[l].connected, rules[l].action) == PolicyOf(c);
  }

  /** The first outgoing entry with a key comes from the first rule of the host with the key. */
  lemma FirstPlace(rules: seq<Rule>, h: Endpoint, k: ClientKey)
    requires k in KeySeq(Outgoing(rules, h))
    ensures |Places(rules, h)| == |KeySeq(Outgoing(rules, h))|
    ensures var i := Places(rules, h)[FirstIndex(KeySeq(Outgoing(rules, h)), k)];
            FirstOfKey(rules, h, i) && ClientKey(rules[i].protocol, rules[i].port, rules[i].dst) == k
  {
    var o, at := Outgoing(rules, h), Places(rules, h);
    OutgoingEntries(rules, h);
    PlacesInOrder(rules, h);
    var f := FirstIndex(KeySeq(o), k);
    assert KeyOf(o[f]) == k && at[f] in at;
    forall j | 0 <= j < at[f] && rules[j].src == h ensures !SameKey(rules[j], rules[at[f]]) {
      assert j in at;
      var m :| 0 <= m < |at| && at[m] == j;
      assert m < f;
      assert KeySeq(o)[m] != k;
    }
  }

  lemma {:induction false} FirstDictEntries(rules: seq<Rule>, h: Endpoint, m: nat)
    returns (first: seq<nat>, last: seq<nat>)
    requires m <= |Dict(Outgoing(rules, h))|
    ensures |first| == |last| == m
    ensures forall n :: 0 <= n < m ==> DictEntryFrom(rules, h, n, first[n], last[n])
  {
    first, last := [], [];
    if m > 0 {
      var f, l := FirstDictEntries(rules, h, m - 1);
      var i, j := DictEntry(rules, h, m - 1);
      first, last := f + [i], l + [j];
    }
  }

  lemma DictEntries(rules: seq<Rule>, h: Endpoint) returns (first: seq<nat>, last: seq<nat>)
    ensures EntriesFrom(Dict(Outgoing(rules, h)), rules, h, first, last)
    ensures forall n :: 0 <= n < |first| ==> FirstOfKey(rules, h, first[n]) && LastOfKey(rules, h, last[n])
    ensures forall i: nat :: FirstOfKey(rules, h, i) ==> i in first
  {
    first, last := FirstDictEntries(rules, h, |Dict(Outgoing(rules, h))|);
    DictOrder(rules, h, first, last);
    forall i: nat | FirstOfKey(rules, h, i) ensures i in first { EveryFirst(rules, h, first, last, i); }
  }

  lemma DictOrder(rules: seq<Rule>, h: Endpoint, first: seq<nat>, last: seq<nat>)
    requires |first| == |last| == |Dict(Outgoing(rules, h))|
    requires forall n :: 0 <= n < |first| ==> DictEntryFrom(rules, h, n, first[n], last[n])
    ensures forall m, n :: 0 <= m < n < |first| ==> first[m] < first[n]
  {
    var o := Outgoing(rules, h);
    DictMeans(o);
    FirstOccurrencesOrdered(KeySeq(o));
    PlacesInOrder(rules, h);
    forall m, n | 0 <= m < n < |first| ensures first[m] < first[n] {
      assert DictEntryFrom(rules, h, m, first[m], last[m]) && DictEntryFrom(rules, h, n, first[n], last[n]);
      assert KeySeq(Dict(o))[m] == KeyOf(Dict(o)[m]) && KeySeq(Dict(o))[n] == KeyOf(Dict(o)[n]);
    }
  }

  /** The entry of the dictionary that goes back to the i-th rule of the host with a key. */
  lemma EntryOfPlace(rules: seq<Rule>, h: Endpoint, m: nat) returns (n: nat)
    requires m < |Outgoing(rules, h)|
    ensures n < |Dict(Outgoing(rules, h))| && KeyOf(Dict(Outgoing(rules, h))[n]) == KeyOf(Outgoing(rules, h)[m])
  {
    var o := Outgoing(rules, h);
    var k := KeyOf(o[m]);
    assert KeySeq(o)[m] == k;
    DictMeans(o);
    FirstOccurrencesOrdered(KeySeq(o));
    assert k in KeySeq(Dict(o));
    n :| 0 <= n < |KeySeq(Dict(o))| && KeySeq(Dict(o))[n] == k;
  }

  lemma FirstIsFirst(rules: seq<Rule>, h: Endpoint, m: nat)
    requires m < |Places(rules, h)| == |Outgoing(rules, h)| && FirstOfKey(rules, h, Places(rules, h)[m])
    ensures var k := KeyOf(Outgoing(rules, h)[m]);
            k in KeySeq(Outgoing(rules, h)) && FirstIndex(KeySeq(Outgoing(rules, h)), k) == m
  {
    var o, at := Outgoing(rules, h), Places(rules, h);
    var k := KeyOf(o[m]);
    PlacesInOrder(rules, h);
    OutgoingEntries(rules, h);
    assert KeySeq(o)[m] == k;
    var f := FirstIndex(KeySeq(o), k);
    assert KeyOf(o[f]) == k && at[f] in at;
    assert SameKey(rules[at[f]], rules[at[m]]);
  }

  lemma EveryFirst(rules: seq<Rule>, h: Endpoint, first: seq<nat>, last: seq<nat>, i: nat)
    requires FirstOfKey(rules, h, i)
    requires |first| == |last| == |Dict(Outgoing(rules, h))|
    requires forall n :: 0 <= n < |first| ==> DictEntryFrom(rules, h, n, first[n], last[n])
    ensures i in first
  {
    var at := Places(rules, h);
    PlacesInOrder(rules, h);
    OutgoingEntries(rules, h);
    assert i in at;
    var m :| 0 <= m < |at| && at[m] == i;
    FirstIsFirst(rules, h, m);
    var n := EntryOfPlace(rules, h, m);
    assert DictEntryFrom(rules, h, n, first[n], last[n]);
    assert first[n] == i;
  }

  /** The stored list of ListAfterRun, in the rules' own fields. */
  lemma StoredEntries(calls: seq<Call>, h: Endpoint) returns (first: seq<nat>, last: seq<nat>)
    requires ValidRun(calls) && h in ListingsAt(Run(calls).fleet, h)
    ensures EntriesFrom(ListingsAt(Run(calls).fleet, h)[h].clients, Known(calls, h), h, first, last)
    ensures var rules := Known(calls, h);
            if Arrivals(calls, h) == 1 then
              first == last && forall i: nat :: i in first <==> i < |rules| && rules[i].src == h
            else
              && (forall n :: 0 <= n < |first| ==> FirstOfKey(rules, h, first[n]) && LastOfKey(rules, h, last[n]))
              && (forall i: nat :: FirstOfKey(rules, h, i) ==> i in first)
  {
    ListAfterRun(calls, h);
    var rules := Known(calls, h);
    if Arrivals(calls, h) == 1 {
      RawEntries(rules, h);
      first, last := Places(rules, h), Places(rules, h);
    } else {
      first, last := DictEntries(rules, h);
    }
  }

  // ----- which policies are pinged -----

  /** The entry carries the policy of the last rule of the host with its key. */
  ghost predicate Current(rules: seq<Rule>, h: Endpoint, c: Client) {
    exists i: nat :: LastMatch(rules, i, h, KeyOf(c)) && Policy(rules[i].connected, rules[i].action) == PolicyOf(c)
  }

  ghost predicate AllCurrent(rules: seq<Rule>, h: Endpoint, list: seq<Client>) {
    forall c :: c in list ==> Current(rules, h, c)
  }

  predicate SameKey(q: Rule, r: Rule) { q.protocol == r.protocol && q.port == r.port && q.dst == r.dst }

  /** No two outgoing rules of the host share a key and differ in policy. */
  ghost predicate NoOverride(rules: seq<Rule>, h: Endpoint) {
    forall q, r :: q in rules && r in rules && q.src == h && r.src == h && SameKey(q, r) ==>
      q.connected == r.connected && q.action == r.action
  }

  lemma {:induction false} OutgoingMembers(rules: seq<Rule>, h: Endpoint, c: Client)
    ensures c in Outgoing(rules, h) <==> exists r :: r in rules && r.src == h && ClientOf(r) == c
  {
    if rules != [] {
      var init, last := rules[..|rules| - 1], rules[|rules| - 1];
      OutgoingMembers(init, h, c);
      assert forall r :: r in rules <==> r in init || r == last;
    }
  }

  lemma CurrentIsLastWins(rules: seq<Rule>, h: Endpoint, c: Client)
    ensures Current(rules, h, c)
            <==> KeyOf(c) in LastWins(Outgoing(rules, h)) && LastWins(Outgoing(rules, h))[KeyOf(c)] == PolicyOf(c)
  {
    OutgoingPolicy(rules, h, KeyOf(c), PolicyOf(c));
  }

  lemma DictIsCurrent(rules: seq<Rule>, h: Endpoint)
    ensures AllCurrent(rules, h, Dict(Outgoing(rules, h)))
  {
    var d := Dict(Outgoing(rules, h));
    DictMeans(Outgoing(rules, h));
    forall c | c in d ensures Current(rules, h, c) {
      var i :| 0 <= i < |d| && d[i] == c;
      UniquePolicy(d, i);
      CurrentIsLastWins(rules, h, c);
    }
  }

  lemma RawIsCurrentIff(rules: seq<Rule>, h: Endpoint)
    ensures AllCurrent(rules, h, Outgoing(rules, h)) <==> NoOverride(rules, h)
  {
    var raw := Outgoing(rules, h);
    if AllCurrent(rules, h, raw) {
      forall q, r | q in rules && r in rules && q.src == h && r.src == h && SameKey(q, r)
        ensures q.connected == r.connected && q.action == r.action
      {
        OutgoingMembers(rules, h, ClientOf(q));
        OutgoingMembers(rules, h, ClientOf(r));
        CurrentIsLastWins(rules, h, ClientOf(q));
        CurrentIsLastWins(rules, h, ClientOf(r));
      }
    }
    if NoOverride(rules, h) {
      forall c | c in raw ensures Current(rules, h, c) { AgreedIsCurrent(rules, h, c); }
    }
  }

  lemma AgreedIsCurrent(rules: seq<Rule>, h: Endpoint, c: Client)
    requires NoOverride(rules, h) && c in Outgoing(rules, h)
    ensures Current(rules, h, c)
  {
    OutgoingMembers(rules, h, c);
    var r :| r in rules && r.src == h && ClientOf(r) == c;
    LastWinsKeys(Outgoing(rules, h));
    assert KeyOf(c) in KeySet(Outgoing(rules, h));
    var p := LastWins(Outgoing(rules, h))[KeyOf(c)];
    OutgoingPolicy(rules, h, KeyOf(c), p);
    var i: nat :| LastMatch(rules, i, h, KeyOf(c)) && Policy(rules[i].connected, rules[i].action) == p;
    assert rules[i] in rules;
  }

  /** After any run every entry of a host's list carries the last matching rule's policy exactly if the host
      was not reached by just one register call, or no rule it knows overrides another. */
  lemma AllCurrentIff(calls: seq<Call>, h: Endpoint)
    requires ValidRun(calls) && h in ListingsAt(Run(calls).fleet, h)
    ensures AllCurrent(Known(calls, h), h, ListingsAt(Run(calls).fleet, h)[h].clients)
            <==> Arrivals(calls, h) != 1 || NoOverride(Known(calls, h), h)
  {
    ListAfterRun(calls, h);
    DictIsCurrent(Known(calls, h), h);
    RawIsCurrentIff(Known(calls, h), h);
  }

  /** In particular after a complete register call: exactly if the host had a row before, or no rule of any
      call overrides another. */
  lemma CompleteCallCurrentIff(calls: seq<Call>, c: Call, h: Endpoint)
    requires ValidRun(calls) && Complete(Run(calls), c) && c.kind.RegisterCall?
    requires h in Compile(Run(calls).recs, c.rules)
    ensures var ls := ListingsAt(Step(Run(calls), c).fleet, h);
            var rules := AllRules(calls) + c.rules;
            && h in ls
            && (AllCurrent(rules, h, ls[h].clients)
                <==> h in ListingsAt(Run(calls).fleet, h) || NoOverride(rules, h))
  {
    assert (calls + [c])[..|calls|] == calls;
    ListAfterRun(calls, h);
    ListAfterRun(calls + [c], h);
    AllCurrentIff(calls + [c], h);
  }

  lemma FirstCallList(c: Call, h: Endpoint)
    requires ValidCall(START, c) && c.kind.RegisterCall? && h in c.delivered
    ensures ValidRun([c]) && h in ListingsAt(Run([c]).fleet, h)
    ensures ListingsAt(Run([c]).fleet, h)[h].clients == Outgoing(c.rules, h)
  {
    RunOfOne(c);
    KnownOfOne(c, h);
    ListAfterRun([c], h);
    assert [c][..0] == [];
    assert Arrivals([c], h) == Arrivals([], h) + 1;
  }

  /** One first register call with a rule and a later one that overrides it: the source stores, and its
      client pings, both. */
  lemma OverriddenRuleKept()
    ensures var src, dst: Endpoint := "10.0.0.1", "10.0.0.2";
            var allow, drop := Rule(src, dst, 80, TCP, true, ALLOW), Rule(src, dst, 80, TCP, true, DROP);
            var c := Call(RegisterCall, [allow, drop], [src, dst]);
            && ValidRun([c]) && Complete(START, c)
            && src in ListingsAt(Run([c]).fleet, src)
            && ListingsAt(Run([c]).fleet, src)[src].clients == [ClientOf(allow), ClientOf(drop)]
            && !AllCurrent([allow, drop], src, [ClientOf(allow), ClientOf(drop)])
  {
    var src, dst: Endpoint := "10.0.0.1", "10.0.0.2";
    var allow, drop := Rule(src, dst, 80, TCP, true, ALLOW), Rule(src, dst, 80, TCP, true, DROP);
    assert "10.0.0.1"[7] != "10.0.0.2"[7];
    TwoRules(allow, drop);
    FirstCallList(Call(RegisterCall, [allow, drop], [src, dst]), src);
    NotCurrent(allow, drop);
  }

  lemma NotCurrent(a: Rule, b: Rule)
    requires a.src == b.src && SameKey(a, b) && a.action != b.action
    ensures !AllCurrent([a, b], a.src, [ClientOf(a), ClientOf(b)])
  {
    TwoRules(a, b);
    RawIsCurrentIff([a, b], a.src);
    assert a in [a, b] && b in [a, b];
  }

  lemma TwoRules(a: Rule, b: Rule)
    requires a.src == b.src && a.dst == b.dst
    ensures Compile(map[], [a, b]).Keys == {a.src, a.dst}
    ensures Outgoing([a, b], a.src) == [ClientOf(a), ClientOf(b)]
  {
    assert [a, b][..1] == [a] && [a][..0] == [];
    assert Compile(map[], []) == map[] && Outgoing([], a.src) == [];
    assert Compile(map[], [a]) == CompileRule(map[], a);
    assert Outgoing([a], a.src) == [ClientOf(a)];
  }
}
