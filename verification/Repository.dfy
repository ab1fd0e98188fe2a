/** The tables' window queries, inclusive at both ends, over arbitrary flush histories. */
module Repository {
  import opened TrafficElements
  import opened RecordCounting

  predicate InWindow(t: real, s: real, e: real) { s <= t <= e }

  /** get_request_count, for one outcome: all protocols together. */
  function RequestCount(rows: seq<CountRow>, ok: bool, s: real, e: real): nat {
    if rows == [] then 0
    else
      var last := rows[|rows| - 1];
      RequestCount(rows[..|rows| - 1], ok, s, e)
      + if InWindow(last.created, s, e) then (if ok then last.success else last.failure) else 0
  }

  /** get_record_count on the raw tables. */
  function RecordCount(records: seq<Record>, s: real, e: real): nat {
    if records == [] then 0
    else RecordCount(records[..|records| - 1], s, e) + if InWindow(records[|records| - 1].created, s, e) then 1 else 0
  }

  function LatencyIn(rows: seq<LatencyRow>, s: real, e: real): real {
    if rows == [] then 0.0
    else
      var last := rows[|rows| - 1];
      LatencyIn(rows[..|rows| - 1], s, e) + if InWindow(last.created, s, e) then last.latencySum else 0.0
  }

  function SamplesIn(rows: seq<LatencyRow>, s: real, e: real): nat {
    if rows == [] then 0
    else
      var last := rows[|rows| - 1];
      SamplesIn(rows[..|rows| - 1], s, e) + if InWindow(last.created, s, e) then last.samples else 0
  }

  /** get_latency_stats */
  function AverageLatency(rows: seq<LatencyRow>, s: real, e: real): real {
    if SamplesIn(rows, s, e) == 0 then 0.0 else LatencyIn(rows, s, e) / SamplesIn(rows, s, e) as real
  }

  /** Splitting a window at m counts the rows stamped m twice, and those only. */
  lemma {:induction false} WindowSplits(rows: seq<CountRow>, ok: bool, s: real, m: real, e: real)
    requires s <= m <= e
    ensures RequestCount(rows, ok, s, e)
            == RequestCount(rows, ok, s, m) + RequestCount(rows, ok, m, e) - RequestCount(rows, ok, m, m)
  {
    if rows != [] { WindowSplits(rows[..|rows| - 1], ok, s, m, e); }
  }

  lemma {:induction false} CoveringWindow(rows: seq<CountRow>, ok: bool, s: real, e: real)
    requires forall i :: 0 <= i < |rows| ==> s <= rows[i].created <= e
    ensures RequestCount(rows, ok, s, e) == RowSum(rows, TCP, ok) + RowSum(rows, UDP, ok) + RowSum(rows, HTTP, ok)
  {
    if rows != [] { CoveringWindow(rows[..|rows| - 1], ok, s, e); }
  }

  lemma {:induction false} CoveringRecords(records: seq<Record>, s: real, e: real)
    requires forall i :: 0 <= i < |records| ==> s <= records[i].created <= e
    ensures RecordCount(records, s, e) == |records|
  {
    if records != [] { CoveringRecords(records[..|records| - 1], s, e); }
  }

  // ----- every window, with the comparison written out -----

  /** The places of the stamps from s to e, both included. */
  function Inside(stamps: seq<real>, s: real, e: real): seq<nat> {
    if stamps == [] then []
    else
      var n := |stamps| - 1;
      if s <= stamps[n] <= e then Inside(stamps[..n], s, e) + [n] else Inside(stamps[..n], s, e)
  }

  /** at lists exactly the places of the stamps from s to e, in order. */
  ghost predicate Exactly(at: seq<nat>, stamps: seq<real>, s: real, e: real) {
    && (forall i, j :: 0 <= i < j < |at| ==> at[i] < at[j])
    && (forall i: nat :: i in at <==> i < |stamps| && s <= stamps[i] <= e)
    && (forall j :: 0 <= j < |at| ==> at[j] < |stamps|)
  }

  lemma {:induction false} InsideBounds(stamps: seq<real>, s: real, e: real)
    ensures forall j :: 0 <= j < |Inside(stamps, s, e)| ==> Inside(stamps, s, e)[j] < |stamps|
    ensures forall i, j :: 0 <= i < j < |Inside(stamps, s, e)| ==> Inside(stamps, s, e)[i] < Inside(stamps, s, e)[j]
  {
    if stamps != [] { InsideBounds(stamps[..|stamps| - 1], s, e); }
  }

  lemma {:induction false} InsideMembers(stamps: seq<real>, s: real, e: real, i: nat)
    ensures i in Inside(stamps, s, e) <==> i < |stamps| && s <= stamps[i] <= e
  {
    if stamps != [] {
      InsideMembers(stamps[..|stamps| - 1], s, e, i);
    }
  }

  lemma InsideExactly(stamps: seq<real>, s: real, e: real)
    ensures Exactly(Inside(stamps, s, e), stamps, s, e)
  {
    InsideBounds(stamps, s, e);
    forall i: nat ensures i in Inside(stamps, s, e) <==> i < |stamps| && s <= stamps[i] <= e {
      InsideMembers(stamps, s, e, i);
    }
  }

  function Picked<T>(rows: seq<T>, at: seq<nat>): seq<T>
    requires forall j :: 0 <= j < |at| ==> at[j] < |rows|
  {
    seq(|at|, j requires 0 <= j < |at| => rows[at[j]])
  }

  lemma PickedPrefix<T>(rows: seq<T>, at: seq<nat>)
    requires rows != [] && forall j :: 0 <= j < |at| ==> at[j] < |rows| - 1
    ensures Picked(rows[..|rows| - 1], at) == Picked(rows, at)
    ensures Picked(rows, at + [|rows| - 1]) == Picked(rows, at) + [rows[|rows| - 1]]
  {
  }

  function CountStamps(rows: seq<CountRow>): seq<real> { seq(|rows|, i requires 0 <= i < |rows| => rows[i].created) }

  function LatencyStamps(rows: seq<LatencyRow>): seq<real> {
    seq(|rows|, i requires 0 <= i < |rows| => rows[i].created)
  }

  function RecordStamps(rs: seq<Record>): seq<real> { seq(|rs|, i requires 0 <= i < |rs| => rs[i].created) }

  function SumOf(rows: seq<CountRow>, ok: bool): nat {
    RowSum(rows, TCP, ok) + RowSum(rows, UDP, ok) + RowSum(rows, HTTP, ok)
  }

  lemma SumOfOneMore(rows: seq<CountRow>, row: CountRow, ok: bool)
    ensures SumOf(rows + [row], ok) == SumOf(rows, ok) + if ok then row.success else row.failure
  {
    assert (rows + [row])[..|rows|] == rows;
  }

  function CountRowsIn(rows: seq<CountRow>, s: real, e: real): seq<CountRow> {
    if rows == [] then []
    else
      var last := rows[|rows| - 1];
      if s <= last.created <= e then CountRowsIn(rows[..|rows| - 1], s, e) + [last]
      else CountRowsIn(rows[..|rows| - 1], s, e)
  }

  lemma {:induction false} CountRowsPicked(rows: seq<CountRow>, s: real, e: real)
    ensures forall j :: 0 <= j < |Inside(CountStamps(rows), s, e)| ==> Inside(CountStamps(rows), s, e)[j] < |rows|
    ensures CountRowsIn(rows, s, e) == Picked(rows, Inside(CountStamps(rows), s, e))
  {
    InsideBounds(CountStamps(rows), s, e);
    if rows != [] {
      var n := |rows| - 1;
      CountRowsPicked(rows[..n], s, e);
      assert CountStamps(rows)[..n] == CountStamps(rows[..n]);
      InsideOneMore(CountStamps(rows), s, e);
      PickedPrefix(rows, Inside(CountStamps(rows[..n]), s, e));
    }
  }

  lemma {:induction false} RequestSums(rows: seq<CountRow>, ok: bool, s: real, e: real)
    ensures RequestCount(rows, ok, s, e) == SumOf(CountRowsIn(rows, s, e), ok)
  {
    if rows != [] {
      var n := |rows| - 1;
      RequestSums(rows[..n], ok, s, e);
      SumOfOneMore(CountRowsIn(rows[..n], s, e), rows[n], ok);
    }
  }

  /** get_request_count sums exactly the rows stamped from start to end, both included. */
  lemma RequestCountIs(rows: seq<CountRow>, ok: bool, s: real, e: real) returns (at: seq<nat>)
    ensures |CountStamps(rows)| == |rows| && forall i :: 0 <= i < |rows| ==> CountStamps(rows)[i] == rows[i].created
    ensures Exactly(at, CountStamps(rows), s, e)
    ensures var picked := Picked(rows, at);
            RequestCount(rows, ok, s, e) == RowSum(picked, TCP, ok) + RowSum(picked, UDP, ok) + RowSum(picked, HTTP, ok)
  {
    at := Inside(CountStamps(rows), s, e);
    InsideExactly(CountStamps(rows), s, e);
    RequestSums(rows, ok, s, e);
    CountRowsPicked(rows, s, e);
  }

  /** get_record_count counts exactly the rows stamped from start to end. */
  lemma {:induction false} RecordCountIs(rs: seq<Record>, s: real, e: real) returns (at: seq<nat>)
    ensures |RecordStamps(rs)| == |rs| && forall i :: 0 <= i < |rs| ==> RecordStamps(rs)[i] == rs[i].created
    ensures Exactly(at, RecordStamps(rs), s, e) && RecordCount(rs, s, e) == |at|
    ensures at == Inside(RecordStamps(rs), s, e)
  {
    at := Inside(RecordStamps(rs), s, e);
    InsideExactly(RecordStamps(rs), s, e);
    if rs != [] {
      var n := |rs| - 1;
      var before := RecordCountIs(rs[..n], s, e);
      assert RecordStamps(rs)[..n] == RecordStamps(rs[..n]);
    }
  }

  lemma InsideOneMore(stamps: seq<real>, s: real, e: real)
    requires stamps != []
    ensures var n := |stamps| - 1;
            Inside(stamps, s, e) == Inside(stamps[..n], s, e) + if s <= stamps[n] <= e then [n] else []
  {
  }

  function LatencyRowsIn(rows: seq<LatencyRow>, s: real, e: real): seq<LatencyRow> {
    if rows == [] then []
    else
      var last := rows[|rows| - 1];
      if s <= last.created <= e then LatencyRowsIn(rows[..|rows| - 1], s, e) + [last]
      else LatencyRowsIn(rows[..|rows| - 1], s, e)
  }

  lemma {:induction false} LatencyRowsPicked(rows: seq<LatencyRow>, s: real, e: real)
    ensures forall j :: 0 <= j < |Inside(LatencyStamps(rows), s, e)| ==> Inside(LatencyStamps(rows), s, e)[j] < |rows|
    ensures LatencyRowsIn(rows, s, e) == Picked(rows, Inside(LatencyStamps(rows), s, e))
  {
    InsideBounds(LatencyStamps(rows), s, e);
    if rows != [] {
      var n := |rows| - 1;
      LatencyRowsPicked(rows[..n], s, e);
      assert LatencyStamps(rows)[..n] == LatencyStamps(rows[..n]);
      InsideOneMore(LatencyStamps(rows), s, e);
      PickedPrefix(rows, Inside(LatencyStamps(rows[..n]), s, e));
    }
  }

  lemma {:induction false} LatencySums(rows: seq<LatencyRow>, s: real, e: real)
    ensures LatencyIn(rows, s, e) == LatencyTotal(LatencyRowsIn(rows, s, e))
    ensures SamplesIn(rows, s, e) == SampleSum(LatencyRowsIn(rows, s, e))
  {
    if rows != [] {
      var n := |rows| - 1;
      LatencySums(rows[..n], s, e);
      LatencyOneMore(LatencyRowsIn(rows[..n], s, e), rows[n]);
    }
  }

  /** The latency query sums exactly the sums and samples of the rows stamped from start to end. */
  lemma LatencyIs(rows: seq<LatencyRow>, s: real, e: real) returns (at: seq<nat>)
    ensures |LatencyStamps(rows)| == |rows|
    ensures forall i :: 0 <= i < |rows| ==> LatencyStamps(rows)[i] == rows[i].created
    ensures Exactly(at, LatencyStamps(rows), s, e)
    ensures LatencyIn(rows, s, e) == LatencyTotal(Picked(rows, at))
    ensures SamplesIn(rows, s, e) == SampleSum(Picked(rows, at))
  {
    at := Inside(LatencyStamps(rows), s, e);
    InsideExactly(LatencyStamps(rows), s, e);
    LatencySums(rows, s, e);
    LatencyRowsPicked(rows, s, e);
  }

  lemma LatencyOneMore(rows: seq<LatencyRow>, row: LatencyRow)
    ensures LatencyTotal(rows + [row]) == LatencyTotal(rows) + row.latencySum
    ensures SampleSum(rows + [row]) == SampleSum(rows) + row.samples
  {
    assert (rows + [row])[..|rows|] == rows;
  }

  lemma SomethingInside(at: seq<nat>, stamps: seq<real>, s: real, e: real)
    requires Exactly(at, stamps, s, e) && at != []
    ensures exists i: nat :: i < |stamps| && s <= stamps[i] <= e
  {
    assert at[0] in at;
  }

  /** A window outside all stamps reports nothing. */
  lemma OutsideIsZero(rows: seq<CountRow>, rs: seq<Record>, ls: seq<LatencyRow>, ok: bool, s: real, e: real)
    requires forall i :: 0 <= i < |rows| ==> rows[i].created < s || rows[i].created > e
    requires forall i :: 0 <= i < |rs| ==> rs[i].created < s || rs[i].created > e
    requires forall i :: 0 <= i < |ls| ==> ls[i].created < s || ls[i].created > e
    ensures RequestCount(rows, ok, s, e) == 0 && RecordCount(rs, s, e) == 0 && AverageLatency(ls, s, e) == 0.0
  {
    var a := RequestCountIs(rows, ok, s, e);
    var b := RecordCountIs(rs, s, e);
    var c := LatencyIs(ls, s, e);
    if a != [] { SomethingInside(a, CountStamps(rows), s, e); }
    if b != [] { SomethingInside(b, RecordStamps(rs), s, e); }
    if c != [] { SomethingInside(c, LatencyStamps(ls), s, e); }
  }

  /** Rows stamped exactly at an end of the window are reported. */
  lemma EdgesAreCounted(rows: seq<CountRow>, row: CountRow, rs: seq<Record>, r: Record, ok: bool, s: real, e: real)
    requires s <= e && (row.created == s || row.created == e) && (r.created == s || r.created == e)
    ensures RequestCount(rows + [row], ok, s, e)
            == RequestCount(rows, ok, s, e) + if ok then row.success else row.failure
    ensures RecordCount(rs + [r], s, e) == RecordCount(rs, s, e) + 1
  {
    assert (rows + [row])[..|rows|] == rows && (rs + [r])[..|rs|] == rs;
  }

  // ----- the average is the mean of the latencies flushed in the window -----

  /** The latencies behind the rows stamped inside the window. */
  function LatenciesIn(rows: seq<LatencyRow>, batches: seq<seq<real>>, s: real, e: real): seq<real>
    requires |rows| == |batches|
  {
    if rows == [] then []
    else
      var n := |rows| - 1;
      LatenciesIn(rows[..n], batches[..n], s, e) + if InWindow(rows[n].created, s, e) then batches[n] else []
  }

  lemma {:induction false} WindowIsBatches(rows: seq<LatencyRow>, batches: seq<seq<real>>, s: real, e: real)
    requires |rows| == |batches|
    requires forall i :: 0 <= i < |batches| ==>
               rows[i].latencySum == Total(batches[i]) && rows[i].samples == |batches[i]|
    ensures LatencyIn(rows, s, e) == Total(LatenciesIn(rows, batches, s, e))
    ensures SamplesIn(rows, s, e) == |LatenciesIn(rows, batches, s, e)|
  {
    if rows != [] {
      var n := |rows| - 1;
      WindowIsBatches(rows[..n], batches[..n], s, e);
      TotalConcat(LatenciesIn(rows[..n], batches[..n], s, e), batches[n]);
      TotalConcat(LatenciesIn(rows[..n], batches[..n], s, e), []);
    }
  }

  lemma {:induction false} TotalBounds(xs: seq<real>, lo: real, hi: real)
    requires forall i :: 0 <= i < |xs| ==> lo <= xs[i] <= hi
    ensures lo * |xs| as real <= Total(xs) <= hi * |xs| as real
  {
    if xs != [] {
      var n := |xs| - 1;
      TotalBounds(xs[..n], lo, hi);
      assert lo * |xs| as real == lo * n as real + lo;
      assert hi * |xs| as real == hi * n as real + hi;
    }
  }

  lemma QuotientBounds(sum: real, n: real, lo: real, hi: real)
    requires n > 0.0 && lo * n <= sum <= hi * n
    ensures lo <= sum / n <= hi
  {
    var q := sum / n;
    assert q * n == sum;
    ScalingIsMonotone(q, lo, n);
    ScalingIsMonotone(hi, q, n);
  }

  lemma ScalingIsMonotone(a: real, b: real, n: real)
    requires n > 0.0
    ensures a < b ==> a * n < b * n
  {
  }

  function Mean(xs: seq<real>): real
    requires xs != []
  {
    Total(xs) / |xs| as real
  }

  lemma MeanBounds(xs: seq<real>, lo: real, hi: real)
    requires xs != [] && forall i :: 0 <= i < |xs| ==> lo <= xs[i] <= hi
    ensures lo <= Mean(xs) <= hi
  {
    TotalBounds(xs, lo, hi);
    QuotientBounds(Total(xs), |xs| as real, lo, hi);
  }

  lemma {:induction false} LatenciesPicked(rows: seq<LatencyRow>, batches: seq<seq<real>>, s: real, e: real)
    requires |rows| == |batches|
    ensures Exactly(Inside(LatencyStamps(rows), s, e), LatencyStamps(rows), s, e)
    ensures LatenciesIn(rows, batches, s, e) == Flatten(Picked(batches, Inside(LatencyStamps(rows), s, e)))
  {
    var at := Inside(LatencyStamps(rows), s, e);
    InsideExactly(LatencyStamps(rows), s, e);
    if rows != [] {
      var n := |rows| - 1;
      LatenciesPicked(rows[..n], batches[..n], s, e);
      assert LatencyStamps(rows)[..n] == LatencyStamps(rows[..n]);
      var before := Inside(LatencyStamps(rows[..n]), s, e);
      PickedPrefix(batches, before);
      assert (Picked(batches, before) + [batches[n]])[..|before|] == Picked(batches, before);
    }
  }

  /** For every counter state the pipeline can reach: the average latency of a window is the mean of the
      latencies behind the rows stamped from start to end. */
  lemma AverageIsMean(c: Counter, s: real, e: real) returns (at: seq<nat>)
    requires Conserves(c)
    ensures |LatencyStamps(c.latencyRows)| == |c.latencyRows| == |c.batches|
    ensures forall i :: 0 <= i < |c.latencyRows| ==> LatencyStamps(c.latencyRows)[i] == c.latencyRows[i].created
    ensures Exactly(at, LatencyStamps(c.latencyRows), s, e)
    ensures var xs := Flatten(Picked(c.batches, at));
            AverageLatency(c.latencyRows, s, e) == if xs == [] then 0.0 else Total(xs) / |xs| as real
    ensures Flatten(Picked(c.batches, at)) == LatenciesIn(c.latencyRows, c.batches, s, e)
  {
    at := Inside(LatencyStamps(c.latencyRows), s, e);
    LatenciesPicked(c.latencyRows, c.batches, s, e);
    WindowIsBatches(c.latencyRows, c.batches, s, e);
  }

  lemma {:induction false} LatencyBounds(rows: seq<LatencyRow>, batches: seq<seq<real>>, s: real, e: real,
                                         lo: real, hi: real)
    requires |rows| == |batches|
    requires forall i, j :: 0 <= i < |rows| && s <= rows[i].created <= e && 0 <= j < |batches[i]| ==>
               lo <= batches[i][j] <= hi
    ensures forall i :: 0 <= i < |LatenciesIn(rows, batches, s, e)| ==> lo <= LatenciesIn(rows, batches, s, e)[i] <= hi
  {
    if rows != [] {
      var n := |rows| - 1;
      LatencyBounds(rows[..n], batches[..n], s, e, lo, hi);
    }
  }

  lemma {:induction false} LatencyThere(rows: seq<LatencyRow>, batches: seq<seq<real>>, s: real, e: real, i: nat)
    requires |rows| == |batches| && i < |rows| && s <= rows[i].created <= e && batches[i] != []
    ensures LatenciesIn(rows, batches, s, e) != []
  {
    if i < |rows| - 1 {
      LatencyThere(rows[..|rows| - 1], batches[..|rows| - 1], s, e, i);
    }
  }

  /** With a sample in the window the average lies within any bounds of the latencies flushed in it. */
  lemma AverageBetween(c: Counter, s: real, e: real, lo: real, hi: real)
    requires Conserves(c)
    requires exists i :: 0 <= i < |c.latencyRows| && s <= c.latencyRows[i].created <= e && c.latencyRows[i].samples > 0
    requires forall i, j :: (0 <= i < |c.batches| && i < |c.latencyRows| && s <= c.latencyRows[i].created <= e
                             && 0 <= j < |c.batches[i]|) ==> lo <= c.batches[i][j] <= hi
    ensures lo <= AverageLatency(c.latencyRows, s, e) <= hi
  {
    var at := AverageIsMean(c, s, e);
    LatencyBounds(c.latencyRows, c.batches, s, e, lo, hi);
    var i :| 0 <= i < |c.latencyRows| && s <= c.latencyRows[i].created <= e && c.latencyRows[i].samples > 0;
    LatencyThere(c.latencyRows, c.batches, s, e, i);
    MeanBounds(LatenciesIn(c.latencyRows, c.batches, s, e), lo, hi);
  }
}
