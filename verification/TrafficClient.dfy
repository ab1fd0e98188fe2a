/** The traffic client: rounds of pings over a cyclic list of destinations, one record per ping. */
module TrafficClient {
  import opened TrafficElements
  import opened RecordCounting

  // ----- one ping -----

  datatype Reply = Answered | Silent | BadStatus

  /** What the network does to one ping: whether the socket is opened (for TCP, connected), the first
      try and the one retry. */
  datatype Net = Net(opens: bool, first: Reply, second: Reply, latency: real, created: real)

  /** Whether ping reaches its record() call without an exception. */
  predicate Reached(p: Protocol, net: Net) {
    match p
    case TCP => net.opens && (net.first.Answered? || net.second.Answered?)
    case UDP => net.opens && (net.first.Answered? || net.second.Answered?)
    case HTTP => net.first.Answered? || (net.first.Silent? && net.second.Answered?)
  }

  /** is_traffic_successful */
  predicate TrafficSuccessful(c: Client, success: bool) {
    if !c.connected then c.connected == success else (c.action == ALLOW) == success
  }

  /** The rule wants traffic to flow. */
  predicate WantsTraffic(c: Client) { c.connected && c.action == ALLOW }

  /** A ping counts as a success exactly when the network did what the rule wants. */
  predicate AsWanted(c: Client, net: Net) { Reached(c.protocol, net) <==> WantsTraffic(c) }

  /** The control flow of ping with its retry and its exception path, ending in exactly one record. */
  method Ping(c: Client, net: Net) returns (r: Record)
    ensures r == Pinged(c, net)
    ensures r.kind == c.protocol && r.destination == c.destination && r.port == c.port
    ensures r.latency == net.latency && r.created == net.created
    ensures !c.protocol.HTTP? ==>
              var through := net.opens && (net.first == Answered || net.second == Answered);
              r.success == if c.connected then through == (c.action == ALLOW) else !through
    ensures c.protocol.HTTP? ==>
              var through := net.first == Answered || (net.first == Silent && net.second == Answered);
              r.success == if c.connected then through == (c.action == ALLOW) else !through
  {
    var success := false;
    if c.protocol.HTTP? || net.opens {
      success := net.first.Answered?;
      if !success && !(c.protocol.HTTP? && net.first.BadStatus?) {
        success := net.second.Answered?;
      }
    }
    r := Record(c.protocol, c.destination, c.port, net.latency, TrafficSuccessful(c, success), net.created);
  }

  function Pinged(c: Client, net: Net): Record {
    Record(c.protocol, c.destination, c.port, net.latency, AsWanted(c, net), net.created)
  }

  // ----- rounds -----

  function RequestRate(rate: nat, n: nat): nat { if rate < n then rate else n }

  /** The record of the ping with number j, which goes to the destination at place j in the cycle. */
  function PingOf(destinations: seq<Client>, net: nat -> Net, j: nat): Record
    requires destinations != []
  {
    Pinged(destinations[j % |destinations|], net(j))
  }

  /** The records of the first t pings; net(j) is what the network does to the j-th. */
  function Records(destinations: seq<Client>, net: nat -> Net, t: nat): seq<Record>
    requires t > 0 ==> destinations != []
  {
    if t == 0 then []
    else Records(destinations, net, t - 1) + [PingOf(destinations, net, t - 1)]
  }

  /** The j-th record is that of the j-th ping, which goes to the destination at place j in the cycle. */
  lemma {:induction false} RecordAt(destinations: seq<Client>, net: nat -> Net, t: nat, j: nat)
    requires destinations != [] && j < t
    ensures |Records(destinations, net, t)| == t
    ensures Records(destinations, net, t)[j] == PingOf(destinations, net, j)
  {
    if j < t - 1 {
      RecordAt(destinations, net, t - 1, j);
    } else if t > 1 {
      RecordAt(destinations, net, t - 1, 0);
    }
  }

  /** The records of the pings with the numbers given. */
  function RecordsOf(destinations: seq<Client>, net: nat -> Net, pings: seq<nat>): seq<Record>
    requires pings != [] ==> destinations != []
  {
    seq(|pings|, i requires 0 <= i < |pings| => PingOf(destinations, net, pings[i]))
  }

  function Without(xs: seq<nat>, k: nat): seq<nat>
    requires k < |xs|
  {
    xs[..k] + xs[k + 1..]
  }

  lemma MultisetOfParts(a: seq<Record>, x: Record, b: seq<Record>)
    ensures multiset(a + [x] + b) == multiset(a + b) + multiset{x}
  {
    assert multiset(a + [x] + b) == multiset(a) + multiset{x} + multiset(b);
  }

  lemma RecordsWithout(destinations: seq<Client>, net: nat -> Net, pings: seq<nat>, k: nat)
    requires destinations != [] && k < |pings|
    ensures multiset(RecordsOf(destinations, net, pings))
            == multiset(RecordsOf(destinations, net, Without(pings, k)))
               + multiset{PingOf(destinations, net, pings[k])}
  {
    var all := RecordsOf(destinations, net, pings);
    MultisetOfParts(all[..k], all[k], all[k + 1..]);
    assert all == all[..k] + [all[k]] + all[k + 1..];
    assert RecordsOf(destinations, net, Without(pings, k)) == all[..k] + all[k + 1..];
  }

  /** The records queued and those of the pings still running are the records of the first t pings. */
  ghost predicate Accounted(destinations: seq<Client>, net: nat -> Net, queue: seq<Record>, running: seq<nat>, t: nat) {
    && (destinations == [] ==> t == 0 && running == [])
    && multiset(queue) + multiset(RecordsOf(destinations, net, running)) == multiset(Records(destinations, net, t))
  }

  lemma RecordsAppend(destinations: seq<Client>, net: nat -> Net, pings: seq<nat>, t: nat)
    requires destinations != []
    ensures RecordsOf(destinations, net, pings + [t])
            == RecordsOf(destinations, net, pings) + [PingOf(destinations, net, t)]
  {
  }

  lemma StartAccounted(destinations: seq<Client>, net: nat -> Net, queue: seq<Record>, running: seq<nat>, t: nat)
    requires destinations != [] && Accounted(destinations, net, queue, running, t)
    ensures Accounted(destinations, net, queue, running + [t], t + 1)
  {
    RecordsAppend(destinations, net, running, t);
    assert Records(destinations, net, t + 1) == Records(destinations, net, t) + [PingOf(destinations, net, t)];
  }

  lemma SettleAccounted(destinations: seq<Client>, net: nat -> Net, queue: seq<Record>, running: seq<nat>, t: nat,
                        k: nat)
    requires destinations != [] && k < |running| && Accounted(destinations, net, queue, running, t)
    ensures Accounted(destinations, net, queue + [PingOf(destinations, net, running[k])], Without(running, k), t)
  {
    RecordsWithout(destinations, net, running, k);
  }

  lemma CyclicOneMore(trace: seq<nat>, n: nat)
    requires n > 0 && Cyclic(trace, n)
    ensures Cyclic(trace + [|trace| % n], n) && |trace| % n < n
    ensures (|trace| + 1) % n == if |trace| % n + 1 == n then 0 else |trace| % n + 1
  {
    NextPosition(|trace|, n);
  }

  class TrafficClient {
    const destinations: seq<Client>
    const requestRate: nat
    var position: nat
    var queue: seq<Record>
    /** The list positions pinged so far, in the order in which the pings were started. */
    ghost var trace: seq<nat>

    /** running are the started pings whose record is not on the queue yet. */
    ghost predicate Pinging(net: nat -> Net, running: seq<nat>)
      reads this
    {
      && requestRate <= |destinations|
      && (destinations != [] ==> position == |trace| % |destinations| && Cyclic(trace, |destinations|))
      && Accounted(destinations, net, queue, running, |trace|)
    }

    ghost predicate Valid(net: nat -> Net)
      reads this
    {
      Pinging(net, [])
    }

    constructor (destinations: seq<Client>, rate: nat, ghost net: nat -> Net)
      ensures Valid(net) && trace == [] && queue == [] && this.destinations == destinations
      ensures requestRate <= rate && requestRate <= |destinations|
      ensures requestRate == rate || requestRate == |destinations|
    {
      this.destinations := destinations;
      requestRate := RequestRate(rate, |destinations|);
      position, queue, trace := 0, [], [];
    }

    /** Starts the ping of the next destination of the cycle. */
    method StartNext(ghost net: nat -> Net, running: seq<nat>, start: nat) returns (running': seq<nat>)
      requires Pinging(net, running) && start == |trace| && destinations != []
      modifies `position, `trace
      ensures Pinging(net, running') && running' == running + [start] && trace == old(trace) + [old(position)]
      ensures old(position) < |destinations|
    {
      CyclicOneMore(trace, |destinations|);
      StartAccounted(destinations, net, queue, running, start);
      running' := running + [start];
      trace := trace + [position];
      position := if position + 1 == |destinations| then 0 else position + 1;
    }

    /** One of the running pings comes to its end and queues its record. */
    method Settle(net: nat -> Net, running: seq<nat>, k: nat) returns (r: Record)
      requires Pinging(net, running) && k < |running| && destinations != []
      modifies `queue
      ensures Pinging(net, Without(running, k)) && queue == old(queue) + [r]
    {
      SettleAccounted(destinations, net, queue, running, |trace|, k);
      r := Ping(destinations[running[k] % |destinations|], net(running[k]));
      queue := queue + [r];
    }

    /** The threads of a round end in any order; the join waits for all of them. */
    method JoinAll(net: nat -> Net, threads: seq<nat>)
      requires Pinging(net, threads) && (threads != [] ==> destinations != [])
      modifies `queue
      ensures Valid(net) && old(queue) <= queue
    {
      var running := threads;
      while running != []
        invariant Pinging(net, running) && old(queue) <= queue && (running != [] ==> destinations != [])
        decreases |running|
      {
        var k :| 0 <= k < |running|;
        var r := Settle(net, running, k);
        running := Without(running, k);
      }
    }

    /** One round: a thread for each of the next requestRate destinations of the cycle, then the join. Earlier
        rounds' records stay in front; those of the round follow in any order. */
    method SendTraffic(net: nat -> Net, start: nat)
      requires Valid(net) && start == |trace|
      modifies `position, `queue, `trace
      ensures Valid(net) && |trace| == start + requestRate && old(trace) <= trace
      ensures NoRepeats(trace[start..])
      ensures old(queue) <= queue
      ensures multiset(queue) == multiset(Records(destinations, net, |trace|))
    {
      var threads: seq<nat> := [];
      for i := 0 to requestRate
        invariant Pinging(net, threads) && |trace| == start + i && old(trace) <= trace && queue == old(queue)
        invariant threads != [] ==> destinations != []
      {
        threads := StartNext(net, threads, start + i);
      }
      JoinAll(net, threads);
      RoundMeans(net, start);
    }

    lemma RoundMeans(net: nat -> Net, start: nat)
      requires Valid(net) && |trace| == start + requestRate
      ensures NoRepeats(trace[start..])
      ensures multiset(queue) == multiset(Records(destinations, net, |trace|))
    {
      assert RecordsOf(destinations, net, []) == [];
      if destinations != [] {
        SliceNoRepeats(trace, |destinations|, start, |trace|);
        assert trace[start..] == trace[start..|trace|];
      }
    }

    /** After any number of rounds every destination has been pinged equally often up to one, no round
        pinged a destination twice, and any ceil(n / r) rounds in a row pinged all of them; the queue has
        one record for each ping, that of the destination pinged. */
    method Run(net: nat -> Net, rounds: nat)
      requires Valid(net) && trace == []
      modifies `position, `queue, `trace
      ensures Valid(net) && |trace| == RoundStart(rounds, requestRate)
      ensures multiset(queue) == multiset(Records(destinations, net, |trace|))
      ensures forall j :: 0 <= j < |trace| ==> trace[j] < |destinations|
      ensures FairRun(trace, |destinations|, requestRate, rounds)
    {
      var sent := 0;
      for k := 0 to rounds
        invariant Valid(net) && |trace| == sent == RoundStart(k, requestRate)
      {
        RoundEnd(k, requestRate);
        SendTraffic(net, sent);
        sent := sent + requestRate;
      }
      RunMeans(net, rounds);
    }

    lemma RunMeans(net: nat -> Net, rounds: nat)
      requires Valid(net) && |trace| == RoundStart(rounds, requestRate)
      ensures multiset(queue) == multiset(Records(destinations, net, |trace|))
      ensures forall j :: 0 <= j < |trace| ==> trace[j] < |destinations|
      ensures FairRun(trace, |destinations|, requestRate, rounds)
    {
      assert RecordsOf(destinations, net, []) == [];
      if requestRate > 0 {
        RecordsFollowTrace(destinations, net, trace);
        RunIsFair(trace, |destinations|, requestRate, rounds);
      } else {
        NothingPinged(trace, |destinations|, rounds);
      }
    }
  }

  lemma NothingPinged(trace: seq<nat>, n: nat, rounds: nat)
    requires |trace| == RoundStart(rounds, 0)
    ensures trace == [] && FairRun(trace, n, 0, rounds)
  {
    forall i | 0 <= i < n ensures Share(0, n, i) == 0 {
      ModOf(n - 1 - i, 0, n - 1 - i, n);
    }
  }

  lemma MulSign(d: int, n: int)
    requires n > 0
    ensures (d >= 1 ==> d * n >= n) && (d <= 0 ==> d * n <= 0) && (d <= -1 ==> d * n <= -n)
  {
  }

  lemma ModOf(t: nat, q: nat, p: nat, n: nat)
    requires n > 0 && t == q * n + p && p < n
    ensures t % n == p && t / n == q
  {
    var d := t / n - q;
    assert t / n * n + t % n == t;
    assert d * n == p - t % n;
    MulSign(d, n);
  }

  lemma TurnEnds(q: nat, n: nat)
    requires n > 0
    ensures (q * n + n) % n == 0 && (q * n + n) / n == q + 1
  {
    assert (q + 1) * n == q * n + n;
    ModOf(q * n + n, q + 1, 0, n);
  }

  /** One ping further in the cycle. */
  lemma NextPosition(t: nat, n: nat)
    requires n > 0
    ensures if t % n + 1 == n then (t + 1) % n == 0 && (t + 1) / n == t / n + 1
            else (t + 1) % n == t % n + 1 && (t + 1) / n == t / n
  {
    var q, p := QuotientRemainder(t, n);
    if p + 1 == n {
      TurnEnds(q, n);
    } else {
      ModOf(t + 1, q, p + 1, n);
    }
  }

  // ----- fairness -----

  /** The trace goes round and round the list. */
  ghost predicate Cyclic(trace: seq<nat>, n: nat)
    requires n > 0
  {
    forall j :: 0 <= j < |trace| ==> trace[j] == j % n
  }

  /** How often list position i was pinged. */
  function Occurrences(trace: seq<nat>, i: nat): nat {
    if trace == [] then 0
    else Occurrences(trace[..|trace| - 1], i) + if trace[|trace| - 1] == i then 1 else 0
  }

  /** floor((t + n - 1 - i) / n): what position i gets out of t pings. */
  function Share(t: nat, n: nat, i: nat): nat
    requires i < n
  {
    (t + n - 1 - i) / n
  }

  /** The pings made before round k. */
  function RoundStart(k: nat, r: nat): nat { k * r }

  /** ceil(n / r) */
  function Turns(n: nat, r: nat): nat
    requires r > 0
  {
    (n + r - 1) / r
  }

  /** What rounds k, .., k + count - 1 pinged. */
  function Rounds(trace: seq<nat>, r: nat, k: nat, count: nat): seq<nat> {
    if RoundStart(k, r) <= RoundStart(k + count, r) <= |trace| then trace[RoundStart(k, r)..RoundStart(k + count, r)]
    else []
  }

  ghost predicate NoRepeats(xs: seq<nat>) {
    forall a, b :: 0 <= a < b < |xs| ==> xs[a] != xs[b]
  }

  lemma RoundEnd(k: nat, r: nat)
    ensures RoundStart(k + 1, r) == RoundStart(k, r) + r
  {
  }

  lemma {:induction false} RoundsOrdered(k: nat, m: nat, r: nat)
    requires k <= m
    ensures RoundStart(k, r) <= RoundStart(m, r)
  {
    if k < m {
      RoundsOrdered(k, m - 1, r);
      RoundEnd(m - 1, r);
    }
  }

  /** The records of a cyclic trace are those of the destinations at the positions pinged. */
  lemma RecordsFollowTrace(destinations: seq<Client>, net: nat -> Net, trace: seq<nat>)
    requires destinations != [] && Cyclic(trace, |destinations|)
    ensures var rs := Records(destinations, net, |trace|);
            && |rs| == |trace|
            && forall j :: 0 <= j < |trace| ==>
                 trace[j] < |destinations| && rs[j] == Pinged(destinations[trace[j]], net(j))
  {
    if trace != [] {
      RecordAt(destinations, net, |trace|, 0);
    }
    forall j | 0 <= j < |trace|
      ensures trace[j] < |destinations|
      ensures Records(destinations, net, |trace|)[j] == Pinged(destinations[trace[j]], net(j))
    {
      RecordAt(destinations, net, |trace|, j);
    }
  }

  /** Whole turns, plus one if the current turn is already past i. */
  lemma {:induction false} OccurrencesByTurns(trace: seq<nat>, n: nat, i: nat)
    requires i < n && Cyclic(trace, n)
    ensures Occurrences(trace, i) == |trace| / n + if i < |trace| % n then 1 else 0
    decreases |trace|
  {
    if trace == [] {
      ModOf(0, 0, 0, n);
    } else {
      OccurrencesByTurns(trace[..|trace| - 1], n, i);
      NextPosition(|trace| - 1, n);
    }
  }

  lemma QuotientRemainder(t: nat, n: nat) returns (q: nat, p: nat)
    requires n > 0
    ensures q == t / n && p == t % n && p < n && t == q * n + p
  {
    q, p := t / n, t % n;
  }

  lemma ShareByTurns(t: nat, q: nat, p: nat, n: nat, i: nat)
    requires i < n && p < n && t == q * n + p
    ensures Share(t, n, i) == q + if i < p then 1 else 0
  {
    if i < p {
      assert (q + 1) * n == q * n + n;
      ModOf(t + n - 1 - i, q + 1, p - 1 - i, n);
    } else {
      ModOf(t + n - 1 - i, q, p + n - 1 - i, n);
    }
  }

  lemma {:induction false} OccurrencesCount(trace: seq<nat>, i: nat)
    ensures Occurrences(trace, i) == multiset(trace)[i]
  {
    if trace != [] {
      var n := |trace| - 1;
      OccurrencesCount(trace[..n], i);
      assert trace == trace[..n] + [trace[n]];
    }
  }

  /** Position i of n occurs floor((t + n - 1 - i) / n) times among t pings. */
  lemma OccurrencesFormula(trace: seq<nat>, n: nat, i: nat)
    requires i < n && Cyclic(trace, n)
    ensures multiset(trace)[i] == (|trace| + n - 1 - i) / n
    ensures Occurrences(trace, i) == Share(|trace|, n, i)
  {
    OccurrencesCount(trace, i);
    OccurrencesByTurns(trace, n, i);
    var q, p := QuotientRemainder(|trace|, n);
    ShareByTurns(|trace|, q, p, n, i);
  }

  /** Any two destinations were pinged equally often, up to one. */
  lemma RoundRobinIsFair(trace: seq<nat>, n: nat, i: nat, j: nat)
    requires i < n && j < n && Cyclic(trace, n)
    ensures multiset(trace)[i] <= multiset(trace)[j] + 1
  {
    OccurrencesCount(trace, i);
    OccurrencesCount(trace, j);
    OccurrencesByTurns(trace, n, i);
    OccurrencesByTurns(trace, n, j);
  }

  lemma ApartByLessThanN(x: nat, y: nat, n: nat)
    requires x < y < x + n
    ensures x % n != y % n
  {
    var d := y / n - x / n;
    assert d * n + y % n - x % n == y - x;
    MulSign(d, n);
    MulSign(d - 1, n);
  }

  lemma EntriesDiffer(trace: seq<nat>, n: nat, x: nat, y: nat)
    requires n > 0 && Cyclic(trace, n) && x < y < |trace| && y < x + n
    ensures trace[x] != trace[y]
  {
    var p, q := trace[x], trace[y];
    assert p == x % n && q == y % n;
    ApartByLessThanN(x, y, n);
  }

  /** At most n pings in a row repeat no list position, wherever in the cycle they start. */
  lemma SliceNoRepeats(trace: seq<nat>, n: nat, from: nat, to: nat)
    requires n > 0 && Cyclic(trace, n) && from <= to <= |trace| && to - from <= n
    ensures NoRepeats(trace[from..to])
  {
    var slice := trace[from..to];
    forall a, b | 0 <= a < b < |slice| ensures slice[a] != slice[b] {
      EntriesDiffer(trace, n, from + a, from + b);
    }
  }

  lemma RoundIs(trace: seq<nat>, r: nat, k: nat, start: nat)
    requires start == RoundStart(k, r)
    ensures start + r <= |trace| ==> Rounds(trace, r, k, 1) == trace[start..start + r]
  {
    RoundEnd(k, r);
  }

  /** A round repeats no list position. */
  lemma NoRepeatInRound(trace: seq<nat>, n: nat, r: nat, k: nat)
    requires n > 0 && r <= n && Cyclic(trace, n)
    ensures NoRepeats(Rounds(trace, r, k, 1))
    ensures k * r + r <= |trace| ==> Rounds(trace, r, k, 1) == trace[k * r..k * r + r]
  {
    RoundEnd(k, r);
    RoundIs(trace, r, k, RoundStart(k, r));
    if RoundStart(k + 1, r) <= |trace| {
      SliceNoRepeats(trace, n, RoundStart(k, r), RoundStart(k + 1, r));
    }
  }

  /** Every n consecutive pings hit every destination. */
  lemma HitWithin(t: nat, n: nat, i: nat) returns (u: nat)
    requires i < n
    ensures t <= u < t + n && u % n == i
  {
    var q, p := t / n, t % n;
    assert t == q * n + p;
    if p <= i {
      u := q * n + i;
      ModOf(u, q, i, n);
    } else {
      u := (q + 1) * n + i;
      assert u == q * n + n + i;
      ModOf(u, q + 1, i, n);
    }
  }

  lemma TurnsCover(n: nat, r: nat, k: nat)
    requires r > 0
    ensures RoundStart(k, r) + n <= RoundStart(k + Turns(n, r), r)
  {
    var w := Turns(n, r);
    assert w * r + (n + r - 1) % r == n + r - 1;
    assert (k + w) * r == k * r + w * r;
  }

  /** Any ceil(n / r) rounds in a row ping every list position. */
  lemma EveryDestinationInTime(trace: seq<nat>, n: nat, r: nat, k: nat, i: nat)
    requires i < n && r > 0 && Cyclic(trace, n) && (k + (n + r - 1) / r) * r <= |trace|
    ensures i in Rounds(trace, r, k, Turns(n, r))
    ensures exists u: nat :: u < |trace| && trace[u] == i && k * r <= u < (k + (n + r - 1) / r) * r
  {
    TurnsCover(n, r, k);
    var u := HitWithin(RoundStart(k, r), n, i);
    assert trace[u] == i;
    assert Rounds(trace, r, k, Turns(n, r))[u - RoundStart(k, r)] == i;
  }

  /** Of the pings of some rounds with r pings each: every list position has its share, no round repeats a
      position, and any ceil(n / r) rounds in a row have all positions. */
  ghost predicate FairRun(trace: seq<nat>, n: nat, r: nat, rounds: nat) {
    && (forall i :: 0 <= i < n ==> Occurrences(trace, i) == Share(|trace|, n, i))
    && (forall k: nat :: k < rounds ==> NoRepeats(Rounds(trace, r, k, 1)))
    && (r > 0 ==> forall k: nat, i: nat ::
          k + Turns(n, r) <= rounds && i < n ==> i in Rounds(trace, r, k, Turns(n, r)))
  }

  lemma RunIsFair(trace: seq<nat>, n: nat, r: nat, rounds: nat)
    requires 0 < r <= n && Cyclic(trace, n) && |trace| == RoundStart(rounds, r)
    ensures FairRun(trace, n, r, rounds)
  {
    forall i | 0 <= i < n ensures Occurrences(trace, i) == Share(|trace|, n, i) { OccurrencesFormula(trace, n, i); }
    forall k: nat | k < rounds ensures NoRepeats(Rounds(trace, r, k, 1)) { NoRepeatInRound(trace, n, r, k); }
    forall k: nat, i: nat | k + Turns(n, r) <= rounds && i < n ensures i in Rounds(trace, r, k, Turns(n, r)) {
      RoundsOrdered(k + Turns(n, r), rounds, r);
      EveryDestinationInTime(trace, n, r, k, i);
    }
  }
}
