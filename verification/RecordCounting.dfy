/**
 The counting thread: it tallies traffic records per protocol, sums latencies, and flushes both to
 tables. A flush may fail at any commit; what was not committed stays pending.
 */
module RecordCounting {
  import opened TrafficElements

  datatype Record = Record(
    kind: Protocol, destination: Endpoint, port: int, latency: real, success: bool, created: real)

  datatype Tally = Tally(success: nat, failure: nat)

  datatype CountRow = CountRow(kind: Protocol, success: nat, failure: nat, created: real)

  datatype LatencyRow = LatencyRow(latencySum: real, samples: nat, created: real)

  /** History variables: batches and open are the latencies behind every latency row and those pending;
      processed lists the records counted so far; marks says how many of them were counted when a
      protocol's counts were last committed. */
  datatype Counter = Counter(
    pending: map<Protocol, Tally>,
    latencySum: real,
    samples: nat,
    rows: seq<CountRow>,
    latencyRows: seq<LatencyRow>,
    batches: seq<seq<real>>,
    open: seq<real>,
    processed: seq<Record>,
    marks: map<Protocol, nat>)

  const IDLE: Counter := Counter(map[], 0.0, 0, [], [], [], [], [], map[])

  function Pick(t: Tally, ok: bool): nat { if ok then t.success else t.failure }

  function PendingOf(c: Counter, p: Protocol): Tally { if p in c.pending then c.pending[p] else Tally(0, 0) }

  function MarkOf(c: Counter, p: Protocol): nat { if p in c.marks then c.marks[p] else 0 }

  /** The counters after one more record. */
  function Tallied(c: Counter, r: Record): Counter {
    var t := PendingOf(c, r.kind);
    var counted := c.(processed := c.processed + [r]);
    if r.success then
      counted.(pending := c.pending[r.kind := Tally(t.success + 1, t.failure)],
               latencySum := c.latencySum + r.latency, samples := c.samples + 1, open := c.open + [r.latency])
    else counted.(pending := c.pending[r.kind := Tally(t.success, t.failure + 1)])
  }

  /** One protocol's counts committed as a row and reset; nothing is written for counts of zero. */
  function Committed(c: Counter, p: Protocol, created: real): Counter {
    var t := PendingOf(c, p);
    if t == Tally(0, 0) then c
    else c.(rows := c.rows + [CountRow(p, t.success, t.failure, created)], pending := c.pending[p := Tally(0, 0)],
            marks := c.marks[p := |c.processed|])
  }

  /** The latency sum committed as a row, samples or none, and reset. */
  function FlushedLatency(c: Counter, created: real): Counter {
    c.(latencyRows := c.latencyRows + [LatencyRow(c.latencySum, c.samples, created)], latencySum := 0.0, samples := 0,
       batches := c.batches + [c.open], open := [])
  }

  // ----- what is conserved -----

  function Matches(r: Record, p: Protocol, ok: bool): nat { if r.kind == p && r.success == ok then 1 else 0 }

  function Count(rs: seq<Record>, p: Protocol, ok: bool): nat {
    if rs == [] then 0 else Count(rs[..|rs| - 1], p, ok) + Matches(rs[|rs| - 1], p, ok)
  }

  function RowSum(rows: seq<CountRow>, p: Protocol, ok: bool): nat {
    if rows == [] then 0
    else
      var last := rows[|rows| - 1];
      RowSum(rows[..|rows| - 1], p, ok) + if last.kind == p then (if ok then last.success else last.failure) else 0
  }

  function Total(xs: seq<real>): real { if xs == [] then 0.0 else Total(xs[..|xs| - 1]) + xs[|xs| - 1] }

  function Flatten(batches: seq<seq<real>>): seq<real> {
    if batches == [] then [] else Flatten(batches[..|batches| - 1]) + batches[|batches| - 1]
  }

  /** The latencies of the successful records, in order. */
  function SuccessLatencies(rs: seq<Record>): seq<real> {
    if rs == [] then []
    else
      var init, last := SuccessLatencies(rs[..|rs| - 1]), rs[|rs| - 1];
      if last.success then init + [last.latency] else init
  }

  /** The records counted since a protocol's counts were last committed. */
  function Since(c: Counter, p: Protocol): seq<Record> {
    if MarkOf(c, p) <= |c.processed| then c.processed[MarkOf(c, p)..] else []
  }

  /** Per protocol and outcome: flushed plus pending is what was processed, and what is pending is what
      was processed since the last commit. */
  ghost predicate CountsConserved(c: Counter) {
    forall p, ok :: CountConserved(c, p, ok)
  }

  ghost predicate CountConserved(c: Counter, p: Protocol, ok: bool) {
    && MarkOf(c, p) <= |c.processed|
    && RowSum(c.rows, p, ok) + Pick(PendingOf(c, p), ok) == Count(c.processed, p, ok)
    && Pick(PendingOf(c, p), ok) == Count(Since(c, p), p, ok)
  }

  /** The latency rows cut the processed latencies into consecutive batches. */
  ghost predicate LatenciesConserved(c: Counter) {
    && c.latencySum == Total(c.open) && c.samples == |c.open|
    && |c.batches| == |c.latencyRows|
    && (forall i :: 0 <= i < |c.batches| ==>
          c.latencyRows[i].latencySum == Total(c.batches[i]) && c.latencyRows[i].samples == |c.batches[i]|)
    && Flatten(c.batches) + c.open == SuccessLatencies(c.processed)
  }

  ghost predicate Conserves(c: Counter) {
    CountsConserved(c) && LatenciesConserved(c)
  }

  lemma CountOneMore(rs: seq<Record>, r: Record, p: Protocol, ok: bool)
    ensures Count(rs + [r], p, ok) == Count(rs, p, ok) + Matches(r, p, ok)
  {
    assert (rs + [r])[..|rs|] == rs;
  }

  lemma SinceOneMore(c: Counter, r: Record, p: Protocol)
    requires MarkOf(c, p) <= |c.processed|
    ensures Since(Tallied(c, r), p) == Since(c, p) + [r]
  {
    assert MarkOf(Tallied(c, r), p) == MarkOf(c, p);
  }

  lemma PendingOneMore(c: Counter, r: Record, p: Protocol, ok: bool)
    ensures Pick(PendingOf(Tallied(c, r), p), ok) == Pick(PendingOf(c, p), ok) + Matches(r, p, ok)
    ensures Tallied(c, r).rows == c.rows && MarkOf(Tallied(c, r), p) == MarkOf(c, p)
    ensures Tallied(c, r).processed == c.processed + [r]
  {
  }

  lemma TalliedCount(c: Counter, r: Record, p: Protocol, ok: bool)
    requires CountConserved(c, p, ok)
    ensures CountConserved(Tallied(c, r), p, ok)
  {
    SinceOneMore(c, r, p);
    PendingOneMore(c, r, p, ok);
    CountOneMore(c.processed, r, p, ok);
    CountOneMore(Since(c, p), r, p, ok);
  }

  lemma TalliedConserves(c: Counter, r: Record)
    requires Conserves(c)
    ensures Conserves(Tallied(c, r))
  {
    forall p, ok ensures CountConserved(Tallied(c, r), p, ok) {
      assert CountConserved(c, p, ok);
      TalliedCount(c, r, p, ok);
    }
    assert (c.processed + [r])[..|c.processed|] == c.processed;
    assert (c.open + [r.latency])[..|c.open|] == c.open;
    assert Flatten(c.batches) + (c.open + [r.latency]) == Flatten(c.batches) + c.open + [r.latency];
  }

  lemma CommittedCount(c: Counter, q: Protocol, created: real, p: Protocol, ok: bool)
    requires CountConserved(c, p, ok)
    ensures CountConserved(Committed(c, q, created), p, ok)
  {
    var c' := Committed(c, q, created);
    if c' != c {
      assert c'.rows[..|c.rows|] == c.rows;
      if p == q {
        assert Since(c', p) == [];
      }
    }
  }

  /** Committing one protocol's counts loses and duplicates nothing. */
  lemma CommittedConserves(c: Counter, p: Protocol, created: real)
    requires Conserves(c)
    ensures Conserves(Committed(c, p, created))
    ensures PendingOf(Committed(c, p, created), p) == Tally(0, 0)
    ensures forall q :: q != p ==> PendingOf(Committed(c, p, created), q) == PendingOf(c, q)
  {
    forall q, ok ensures CountConserved(Committed(c, p, created), q, ok) {
      assert CountConserved(c, q, ok);
      CommittedCount(c, p, created, q, ok);
    }
  }

  lemma FlushedLatencyConserves(c: Counter, created: real)
    requires Conserves(c)
    ensures Conserves(FlushedLatency(c, created))
  {
    var c' := FlushedLatency(c, created);
    forall p, ok ensures CountConserved(c', p, ok) { assert CountConserved(c, p, ok); }
    assert c'.batches[..|c.batches|] == c.batches;
    assert Flatten(c'.batches) + c'.open == Flatten(c.batches) + c.open;
  }

  // ----- the totals a reader sees -----

  function SampleSum(rows: seq<LatencyRow>): nat {
    if rows == [] then 0 else SampleSum(rows[..|rows| - 1]) + rows[|rows| - 1].samples
  }

  function LatencyTotal(rows: seq<LatencyRow>): real {
    if rows == [] then 0.0 else LatencyTotal(rows[..|rows| - 1]) + rows[|rows| - 1].latencySum
  }

  lemma {:induction false} TotalConcat(a: seq<real>, b: seq<real>)
    ensures Total(a + b) == Total(a) + Total(b)
  {
    if b == [] {
      assert a + b == a;
    } else {
      TotalConcat(a, b[..|b| - 1]);
      assert (a + b)[..|a + b| - 1] == a + b[..|b| - 1];
    }
  }

  lemma {:induction false} RowsAreBatches(rows: seq<LatencyRow>, batches: seq<seq<real>>)
    requires |rows| == |batches|
    requires forall i :: 0 <= i < |batches| ==>
               rows[i].latencySum == Total(batches[i]) && rows[i].samples == |batches[i]|
    ensures LatencyTotal(rows) == Total(Flatten(batches)) && SampleSum(rows) == |Flatten(batches)|
  {
    if rows != [] {
      var n := |rows| - 1;
      RowsAreBatches(rows[..n], batches[..n]);
      TotalConcat(Flatten(batches[..n]), batches[n]);
    }
  }

  lemma {:induction false} SamplesAreSuccesses(rs: seq<Record>)
    ensures |SuccessLatencies(rs)| == Count(rs, TCP, true) + Count(rs, UDP, true) + Count(rs, HTTP, true)
  {
    if rs != [] { SamplesAreSuccesses(rs[..|rs| - 1]); }
  }

  /** Latency obeys the same law as the counts, and there is one sample per success. */
  lemma LatencyConserved(c: Counter)
    requires Conserves(c)
    ensures LatencyTotal(c.latencyRows) + c.latencySum == Total(SuccessLatencies(c.processed))
    ensures SampleSum(c.latencyRows) + c.samples
            == Count(c.processed, TCP, true) + Count(c.processed, UDP, true) + Count(c.processed, HTTP, true)
  {
    RowsAreBatches(c.latencyRows, c.batches);
    TotalConcat(Flatten(c.batches), c.open);
    SamplesAreSuccesses(c.processed);
  }

  // ----- the sums and counts above, pinned down -----

  function Matching(rs: seq<Record>, p: Protocol, ok: bool): set<int> {
    set i | 0 <= i < |rs| && rs[i].kind == p && rs[i].success == ok
  }

  lemma MatchingOneMore(rs: seq<Record>, p: Protocol, ok: bool)
    requires rs != []
    ensures var n := |rs| - 1;
            Matching(rs, p, ok)
            == Matching(rs[..n], p, ok) + if rs[n].kind == p && rs[n].success == ok then {n} else {}
    ensures |rs| - 1 !in Matching(rs[..|rs| - 1], p, ok)
  {
  }

  lemma {:induction false} CountIs(rs: seq<Record>, p: Protocol, ok: bool)
    ensures Count(rs, p, ok) == |set i | 0 <= i < |rs| && rs[i].kind == p && rs[i].success == ok|
  {
    assert Matching(rs, p, ok) == set i | 0 <= i < |rs| && rs[i].kind == p && rs[i].success == ok;
    if rs != [] {
      CountIs(rs[..|rs| - 1], p, ok);
      MatchingOneMore(rs, p, ok);
    }
  }

  /** The recursion equations that determine every sum over rows, latencies and batches. */
  lemma SumsAre(rows: seq<CountRow>, row: CountRow, p: Protocol, ok: bool, ls: seq<LatencyRow>, l: LatencyRow,
                xs: seq<real>, x: real, bs: seq<seq<real>>, b: seq<real>)
    ensures RowSum([], p, ok) == 0 && LatencyTotal([]) == 0.0 && SampleSum([]) == 0 && Total([]) == 0.0
    ensures RowSum(rows + [row], p, ok)
            == RowSum(rows, p, ok) + if row.kind != p then 0 else if ok then row.success else row.failure
    ensures LatencyTotal(ls + [l]) == LatencyTotal(ls) + l.latencySum
    ensures SampleSum(ls + [l]) == SampleSum(ls) + l.samples
    ensures Total(xs + [x]) == Total(xs) + x
    ensures Flatten([]) == [] && Flatten(bs + [b]) == Flatten(bs) + b
  {
    assert (rows + [row])[..|rows|] == rows && (ls + [l])[..|ls|] == ls;
    assert (xs + [x])[..|xs|] == xs && (bs + [b])[..|bs|] == bs;
  }

  function SuccessPlaces(rs: seq<Record>): seq<nat> {
    if rs == [] then []
    else
      var n := |rs| - 1;
      if rs[n].success then SuccessPlaces(rs[..n]) + [n] else SuccessPlaces(rs[..n])
  }

  lemma {:induction false} SuccessPlacesInOrder(rs: seq<Record>)
    ensures forall i, j :: 0 <= i < j < |SuccessPlaces(rs)| ==> SuccessPlaces(rs)[i] < SuccessPlaces(rs)[j]
    ensures forall i: nat :: i in SuccessPlaces(rs) <==> i < |rs| && rs[i].success
    ensures forall j :: 0 <= j < |SuccessPlaces(rs)| ==> SuccessPlaces(rs)[j] < |rs|
  {
    if rs != [] { SuccessPlacesInOrder(rs[..|rs| - 1]); }
  }

  lemma {:induction false} SuccessEntries(rs: seq<Record>)
    ensures |SuccessLatencies(rs)| == |SuccessPlaces(rs)|
    ensures forall j :: 0 <= j < |SuccessPlaces(rs)| ==>
              SuccessPlaces(rs)[j] < |rs| && SuccessLatencies(rs)[j] == rs[SuccessPlaces(rs)[j]].latency
  {
    if rs != [] { SuccessEntries(rs[..|rs| - 1]); }
  }

  /** The successful records, at the places given, contribute their own latencies, in order. */
  lemma SuccessLatenciesAre(rs: seq<Record>) returns (at: seq<nat>)
    ensures forall i, j :: 0 <= i < j < |at| ==> at[i] < at[j]
    ensures forall i: nat :: i in at <==> i < |rs| && rs[i].success
    ensures |SuccessLatencies(rs)| == |at|
    ensures forall j :: 0 <= j < |at| ==> at[j] < |rs| && SuccessLatencies(rs)[j] == rs[at[j]].latency
  {
    at := SuccessPlaces(rs);
    SuccessPlacesInOrder(rs);
    SuccessEntries(rs);
  }
}
