/**
 What the statistics report of the records emitted: at any moment of any run, in quiet states, and once
 everything has come through.
 */
module ReportedCounts {
  import opened TrafficElements
  import opened RecordCounting
  import opened CountingThread
  import opened Repository
  import opened RecordPipeline

  // ----- runs in which everything emitted has come through -----

  /** Nothing in any queue or writer, and the counting thread waits for a record. */
  ghost predicate Quiet(s: State) {
    && s.traffic == [] && s.countQueue == [] && s.counting.phase.Waiting?
    && forall i :: 0 <= i < |s.writers| ==> s.writers[i].Free?
  }

  /** Quiet, with every count committed and no insert failed. */
  ghost predicate Drained(s: State) {
    Quiet(s) && s.failedInserts == [] && AllCommitted(s.counting.counter)
  }

  /** A window that holds every row written so far. */
  ghost predicate AllInWindow(s: State, start: real, end: real) {
    && (forall i :: 0 <= i < |s.counting.counter.rows| ==> start <= s.counting.counter.rows[i].created <= end)
    && (forall i :: 0 <= i < |s.successRows| ==> start <= s.successRows[i].created <= end)
    && (forall i :: 0 <= i < |s.faultRows| ==> start <= s.faultRows[i].created <= end)
  }

  /** All protocols together. */
  function CountBoth(rs: seq<Record>, ok: bool): nat { Count(rs, TCP, ok) + Count(rs, UDP, ok) + Count(rs, HTTP, ok) }

  function PendingBoth(c: Counter, ok: bool): nat {
    Pick(PendingOf(c, TCP), ok) + Pick(PendingOf(c, UDP), ok) + Pick(PendingOf(c, HTTP), ok)
  }

  lemma {:induction false} CountAll(rs: seq<Record>, ok: bool)
    requires forall i :: 0 <= i < |rs| ==> rs[i].success == ok
    ensures CountBoth(rs, ok) == |rs|
  {
    if rs != [] { CountAll(rs[..|rs| - 1], ok); }
  }

  lemma {:induction false} NobodyHolds(ws: seq<Writer>)
    requires forall i :: 0 <= i < |ws| ==> ws[i].Free?
    ensures HeldList(ws, true) == HeldList(ws, false) == [] && Held(ws, true) == multiset{}
            && Held(ws, false) == multiset{}
  {
    if ws != [] { NobodyHolds(ws[1..]); }
  }

  lemma SameTally(a: seq<Record>, b: seq<Record>, ok: bool)
    requires multiset(a) == multiset(b)
    ensures CountBoth(a, ok) == CountBoth(b, ok)
  {
    CountIsOrderFree(a, b, TCP, ok);
    CountIsOrderFree(a, b, UDP, ok);
    CountIsOrderFree(a, b, HTTP, ok);
  }

  /** What was emitted and is not counted yet. */
  function UnderWay(s: State): seq<Record> { s.traffic + (HeldList(s.writers, false) + s.countQueue) }

  lemma CountBothConcat(a: seq<Record>, b: seq<Record>, ok: bool)
    ensures CountBoth(a + b, ok) == CountBoth(a, ok) + CountBoth(b, ok)
  {
    CountConcat(a, b, TCP, ok);
    CountConcat(a, b, UDP, ok);
    CountConcat(a, b, HTTP, ok);
  }

  /** Everything emitted is either counted, once, or still under way. */
  lemma EmittedIsAccounted(s: State)
    requires Inv(s)
    ensures multiset(s.emitted) == multiset(Counted(s) + UnderWay(s))
  {
    forall x ensures multiset(s.emitted)[x] == multiset(Counted(s) + UnderWay(s))[x] {
      assert Balanced(s, x);
      HeldListOccurs(s.writers, false, x);
    }
  }

  /** In every reachable state, on any window covering the rows so far: what the count query reports, what
      is pending and what is under way make up the records emitted. */
  lemma EmittedCounts(s: State, start: real, end: real, ok: bool)
    requires Inv(s) && AllInWindow(s, start, end)
    ensures RequestCount(s.counting.counter.rows, ok, start, end) + PendingBoth(s.counting.counter, ok)
            + CountBoth(UnderWay(s), ok) == CountBoth(s.emitted, ok)
  {
    EmittedIsAccounted(s);
    SameTally(s.emitted, Counted(s) + UnderWay(s), ok);
    CountBothConcat(Counted(s), UnderWay(s), ok);
    CountedTotals(s, ok);
    CoveringWindow(s.counting.counter.rows, ok, start, end);
  }

  lemma CountedTotals(s: State, ok: bool)
    requires Inv(s)
    ensures RowSum(s.counting.counter.rows, TCP, ok) + RowSum(s.counting.counter.rows, UDP, ok)
            + RowSum(s.counting.counter.rows, HTTP, ok) + PendingBoth(s.counting.counter, ok)
            == CountBoth(Counted(s), ok)
  {
    assert CountConserved(s.counting.counter, TCP, ok);
    assert CountConserved(s.counting.counter, UDP, ok);
    assert CountConserved(s.counting.counter, HTTP, ok);
  }

  /** In a quiet state, on any window covering all rows, the count query plus what is pending gives the
      records emitted, and so does the raw table plus the failed inserts, success and failure apart. */
  lemma QuietCounts(s: State, start: real, end: real, ok: bool)
    requires Inv(s) && Quiet(s) && AllInWindow(s, start, end)
    ensures RequestCount(s.counting.counter.rows, ok, start, end) + PendingBoth(s.counting.counter, ok)
            == CountBoth(s.emitted, ok)
            == RecordCount(if ok then s.successRows else s.faultRows, start, end) + CountBoth(s.failedInserts, ok)
  {
    var table := if ok then s.successRows else s.faultRows;
    NobodyHolds(s.writers);
    EmittedCounts(s, start, end, ok);
    assert UnderWay(s) == [];
    QuietTotals(s, ok);
    SameTally(s.emitted, Counted(s), ok);
    CountAll(table, ok);
    CoveringRecords(table, start, end);
  }

  lemma QuietTotals(s: State, ok: bool)
    requires Inv(s) && Quiet(s)
    ensures CountBoth(Counted(s), ok)
            == CountBoth(if ok then s.successRows else s.faultRows, ok) + CountBoth(s.failedInserts, ok)
    ensures multiset(s.emitted) == multiset(Counted(s))
  {
    NobodyHolds(s.writers);
    EmittedIsAccounted(s);
    assert Counted(s) + UnderWay(s) == Counted(s);
    QuietTotal(s, TCP, ok);
    QuietTotal(s, UDP, ok);
    QuietTotal(s, HTTP, ok);
  }

  lemma QuietTotal(s: State, p: Protocol, ok: bool)
    requires Inv(s) && Quiet(s)
    ensures Count(Counted(s), p, ok)
            == Count(if ok then s.successRows else s.faultRows, p, ok) + Count(s.failedInserts, p, ok)
  {
    NobodyHolds(s.writers);
    RawEqualsCounted(s, p, ok);
    assert CountConserved(s.counting.counter, p, ok);
  }

  // ----- laws of runs -----

  /** For any number of writers, any interleaving and any failures. */
  lemma EveryRunBalances(writers: nat, now: real, steps: seq<Step>, p: Protocol, ok: bool)
    requires Schedulable(Init(writers, now), steps)
    ensures var s := Execute(Init(writers, now), steps);
            var c := s.counting.counter;
            && RowSum(c.rows, p, ok) + Pick(PendingOf(c, p), ok) == Count(Counted(s), p, ok)
            && Pick(PendingOf(c, p), ok) == Count(Since(c, p), p, ok)
            && (Count(if ok then s.successRows else s.faultRows, p, ok)
                + Count(HeldList(s.writers, true), p, ok) + Count(s.failedInserts, p, ok)
                == RowSum(c.rows, p, ok) + Pick(PendingOf(c, p), ok) + Count(s.countQueue, p, ok))
            && LatencyTotal(c.latencyRows) + c.latencySum == Total(SuccessLatencies(Counted(s)))
            && |s.countQueue| <= 1000 && |s.traffic| <= 5000
  {
    InitInv(writers, now);
    ScheduleKeepsInv(Init(writers, now), steps);
    var s := Execute(Init(writers, now), steps);
    assert CountConserved(s.counting.counter, p, ok);
    RawEqualsCounted(s, p, ok);
    LatencyConserved(s.counting.counter);
  }

  /** Once drained, the aggregated counts and the raw tables agree with the records emitted. */
  lemma DrainedRunAgrees(writers: nat, now: real, steps: seq<Step>, start: real, end: real, ok: bool)
    requires Schedulable(Init(writers, now), steps)
    requires Drained(Execute(Init(writers, now), steps)) && AllInWindow(Execute(Init(writers, now), steps), start, end)
    ensures var s := Execute(Init(writers, now), steps);
            RequestCount(s.counting.counter.rows, ok, start, end) == CountBoth(s.emitted, ok)
            == RecordCount(if ok then s.successRows else s.faultRows, start, end)
  {
    InitInv(writers, now);
    ScheduleKeepsInv(Init(writers, now), steps);
    QuietCounts(Execute(Init(writers, now), steps), start, end, ok);
  }
}
