/**
 The counting thread: it blocks for the next record, counts it, and only then, if the interval has
 passed, commits the counts protocol by protocol, the latency sum, and moves its timer. A failing
 commit ends the flush; nothing flushes without a record.
 */
module CountingThread {
  import opened TrafficElements
  import opened RecordCounting

  const UPDATE_INTERVAL: real := 30.0

  /** Counts: inside a flush, with the protocols still to be visited and the stamp of its rows. */
  datatype Phase = Waiting | Counts(todo: set<Protocol>, created: real)

  datatype Thread = Thread(counter: Counter, lastUpdated: real, phase: Phase)

  /** Receive carries the clock readings of the interval check and of the rows to be written. */
  datatype CountStep =
    | Receive(record: Record, check: real, created: real)
    | Commit(kind: Protocol)
    | CommitLatencies(created: real, finished: real)
    | Fail

  /** Some protocol with counts to commit whose commit fails. */
  ghost predicate SomeCommitFails(pending: map<Protocol, Tally>, commits: Protocol -> bool) {
    exists p :: p in pending && pending[p] != Tally(0, 0) && !commits(p)
  }

  /** The rows from place n on: each has the counts a protocol had pending, and the stamp; no protocol twice. */
  ghost predicate RowsOf(rows: seq<CountRow>, n: nat, pending: map<Protocol, Tally>, created: real) {
    && (forall i :: n <= i < |rows| ==>
          && rows[i].kind in pending && rows[i].created == created
          && pending[rows[i].kind] == Tally(rows[i].success, rows[i].failure) != Tally(0, 0))
    && (forall i, j :: n <= i < j < |rows| ==> rows[i].kind != rows[j].kind)
  }

  /** Every protocol with counts pending has its row. */
  ghost predicate AllRows(rows: seq<CountRow>, n: nat, pending: map<Protocol, Tally>) {
    forall p :: p in pending && pending[p] != Tally(0, 0) ==> HasRow(rows, n, p)
  }

  /** The row of a protocol's counts, if there are any. */
  function RowFor(p: Protocol, t: Tally, created: real): seq<CountRow> {
    if t == Tally(0, 0) then [] else [CountRow(p, t.success, t.failure, created)]
  }

  /** What a flush has done so far: the rows written, the counts left, the protocols still to be visited. */
  ghost predicate Flushing(rows: seq<CountRow>, counts: map<Protocol, Tally>, n: nat, before: map<Protocol, Tally>,
                           created: real, commits: Protocol -> bool, todo: set<Protocol>, raised: bool)
  {
    && todo <= before.Keys == counts.Keys
    && (forall p :: p in todo ==> counts[p] == before[p])
    && (forall i :: n <= i < |rows| ==> rows[i].kind !in todo)
    && RowsOf(rows, n, before, created)
    && (!raised ==> forall p :: p in before && p !in todo && before[p] != Tally(0, 0) ==>
                      commits(p) && HasRow(rows, n, p))
    && (raised ==> SomeCommitFails(before, commits))
  }

  ghost predicate HasRow(rows: seq<CountRow>, n: nat, p: Protocol) {
    exists i :: n <= i < |rows| && rows[i].kind == p
  }

  lemma RowsOfOneMore(rows: seq<CountRow>, n: nat, pending: map<Protocol, Tally>, created: real, p: Protocol)
    requires n <= |rows| && RowsOf(rows, n, pending, created) && p in pending
    requires forall i :: n <= i < |rows| ==> rows[i].kind != p
    ensures RowsOf(rows + RowFor(p, pending[p], created), n, pending, created)
  {
  }

  lemma HasRowStill(rows: seq<CountRow>, more: seq<CountRow>, n: nat, p: Protocol)
    requires n <= |rows| && (HasRow(rows, n, p) || (exists i :: 0 <= i < |more| && more[i].kind == p))
    ensures HasRow(rows + more, n, p)
  {
    if HasRow(rows, n, p) {
      var i :| n <= i < |rows| && rows[i].kind == p;
      assert (rows + more)[i].kind == p;
    } else {
      var i :| 0 <= i < |more| && more[i].kind == p;
      assert (rows + more)[|rows| + i].kind == p;
    }
  }

  lemma FlushedOneMore(rows: seq<CountRow>, counts: map<Protocol, Tally>, n: nat, before: map<Protocol, Tally>,
                       created: real, commits: Protocol -> bool, todo: set<Protocol>, p: Protocol,
                       left: map<Protocol, Tally>)
    requires n <= |rows| && p in todo && Flushing(rows, counts, n, before, created, commits, todo, false)
    requires left.Keys == counts.Keys && forall q :: q in left && q != p ==> left[q] == counts[q]
    ensures var committed := commits(p) || counts[p] == Tally(0, 0);
            var rows' := rows + if committed then RowFor(p, counts[p], created) else [];
            Flushing(rows', left, n, before, created, commits, todo - {p}, !committed)
  {
    if commits(p) || counts[p] == Tally(0, 0) {
      var more := RowFor(p, counts[p], created);
      RowsOfOneMore(rows, n, before, created, p);
      forall q | q in before && q !in todo - {p} && before[q] != Tally(0, 0)
        ensures commits(q) && HasRow(rows + more, n, q)
      {
        assert q == p ==> more[0].kind == q;
        HasRowStill(rows, more, n, q);
      }
    } else {
      assert rows + [] == rows;
    }
  }

  predicate Due(t: Thread, check: real) { check - t.lastUpdated >= UPDATE_INTERVAL }

  /** Something the flush still has to commit, and whose commit may therefore fail. */
  predicate CanFail(t: Thread) {
    t.phase.Counts? && (t.phase.todo == {} || exists p :: p in t.phase.todo && PendingOf(t.counter, p) != Tally(0, 0))
  }

  predicate CountEnabled(t: Thread, step: CountStep) {
    match step
    case Receive(_, _, _) => t.phase.Waiting?
    case Commit(p) => t.phase.Counts? && p in t.phase.todo
    case CommitLatencies(_, _) => t.phase.Counts? && t.phase.todo == {}
    case Fail => CanFail(t)
  }

  function CountNext(t: Thread, step: CountStep): Thread
    requires CountEnabled(t, step)
  {
    match step
    case Receive(r, check, created) =>
      var c := Tallied(t.counter, r);
      t.(counter := c, phase := if Due(t, check) then Counts(c.pending.Keys, created) else Waiting)
    case Commit(p) =>
      t.(counter := Committed(t.counter, p, t.phase.created), phase := t.phase.(todo := t.phase.todo - {p}))
    case CommitLatencies(created, finished) =>
      t.(counter := FlushedLatency(t.counter, created), lastUpdated := finished, phase := Waiting)
    case Fail => t.(phase := Waiting)
  }

  predicate CountSchedulable(t: Thread, steps: seq<CountStep>)
    decreases |steps|
  {
    steps == [] || (CountEnabled(t, steps[0]) && CountSchedulable(CountNext(t, steps[0]), steps[1..]))
  }

  function CountExecute(t: Thread, steps: seq<CountStep>): Thread
    requires CountSchedulable(t, steps)
    decreases |steps|
  {
    if steps == [] then t else CountExecute(CountNext(t, steps[0]), steps[1..])
  }

  ghost predicate AllCommitted(c: Counter) {
    forall p :: PendingOf(c, p) == Tally(0, 0)
  }

  /** The conservation law; no row is empty; and inside a flush the protocols already visited have
      nothing pending. */
  ghost predicate ThreadInv(t: Thread) {
    && Conserves(t.counter)
    && (forall i :: 0 <= i < |t.counter.rows| ==> t.counter.rows[i].success + t.counter.rows[i].failure > 0)
    && (t.phase.Counts? ==> forall p :: p !in t.phase.todo ==> PendingOf(t.counter, p) == Tally(0, 0))
  }

  lemma CountNextKeepsInv(t: Thread, step: CountStep)
    requires ThreadInv(t) && CountEnabled(t, step)
    ensures ThreadInv(CountNext(t, step))
  {
    match step
    case Receive(r, _, _) => TalliedConserves(t.counter, r);
    case Commit(p) => CommittedConserves(t.counter, p, t.phase.created);
    case CommitLatencies(created, _) => FlushedLatencyConserves(t.counter, created);
    case Fail =>
  }

  /** Either way a flush can end once all protocols were visited. */
  lemma FlushEnds(t: Thread, created: real, finished: real)
    requires ThreadInv(t) && t.phase.Counts? && t.phase.todo == {}
    ensures ThreadInv(CountNext(t, Fail)) && ThreadInv(CountNext(t, CommitLatencies(created, finished)))
    ensures AllCommitted(CountNext(t, CommitLatencies(created, finished)).counter)
  {
    CountNextKeepsInv(t, Fail);
    CountNextKeepsInv(t, CommitLatencies(created, finished));
    forall p ensures PendingOf(CountNext(t, CommitLatencies(created, finished)).counter, p) == Tally(0, 0) {
      assert PendingOf(t.counter, p) == Tally(0, 0);
    }
  }

  /** Appending one more step to a run. */
  lemma {:induction false} CountOneStepMore(t: Thread, steps: seq<CountStep>, step: CountStep)
    requires CountSchedulable(t, steps) && CountEnabled(CountExecute(t, steps), step)
    ensures CountSchedulable(t, steps + [step])
    ensures CountExecute(t, steps + [step]) == CountNext(CountExecute(t, steps), step)
    decreases |steps|
  {
    if steps == [] {
      assert [step][1..] == [];
      assert [] + [step] == [step];
    } else {
      CountOneStepMore(CountNext(t, steps[0]), steps[1..], step);
      assert (steps + [step])[1..] == steps[1..] + [step];
    }
  }

  /** The clock readings of one update, in the order in which they are taken. */
  datatype Clock = Clock(check: real, counts: real, latency: real, finished: real)

  class SqlRecordCountHandler {
    var protoRecordCount: map<Protocol, Tally>
    var latencySum: real
    var samples: nat
    var lastUpdated: real
    var requestCount: seq<CountRow>
    var latencyStats: seq<LatencyRow>
    ghost var batches: seq<seq<real>>
    ghost var open: seq<real>
    ghost var processed: seq<Record>
    ghost var marks: map<Protocol, nat>
    ghost var phase: Phase

    ghost function Now(): Thread
      reads this
    {
      var c := Counter(protoRecordCount, latencySum, samples, requestCount, latencyStats,
                       batches, open, processed, marks);
      Thread(c, lastUpdated, phase)
    }

    ghost predicate Valid()
      reads this
    {
      ThreadInv(Now())
    }

    constructor (now: real)
      ensures Valid() && Now() == Thread(IDLE, now, Waiting)
    {
      protoRecordCount, latencySum, samples, lastUpdated := map[], 0.0, 0, now;
      requestCount, latencyStats := [], [];
      batches, open, processed, marks, phase := [], [], [], map[], Waiting;
    }

    /** Adds the record to the counters. */
    method TallyRecord(r: Record)
      modifies this
      ensures Now() == old(Now()).(counter := Tallied(old(Now()).counter, r))
    {
      var tally := if r.kind in protoRecordCount then protoRecordCount[r.kind] else Tally(0, 0);
      if r.success {
        protoRecordCount := protoRecordCount[r.kind := Tally(tally.success + 1, tally.failure)];
        latencySum := latencySum + r.latency;
        samples := samples + 1;
        open := open + [r.latency];
      } else {
        protoRecordCount := protoRecordCount[r.kind := Tally(tally.success, tally.failure + 1)];
      }
      processed := processed + [r];
    }

    /** Counts the record and looks at the clock. */
    method AddRecord(r: Record, clock: Clock) returns (due: bool)
      requires Valid() && phase.Waiting?
      modifies this
      ensures Valid() && Now() == CountNext(old(Now()), Receive(r, clock.check, clock.counts))
      ensures due <==> phase.Counts?
      ensures due ==> phase.todo == protoRecordCount.Keys
    {
      CountNextKeepsInv(Now(), Receive(r, clock.check, clock.counts));
      TallyRecord(r);
      due := clock.check - lastUpdated >= UPDATE_INTERVAL;
      phase := if due then Counts(protoRecordCount.Keys, clock.counts) else Waiting;
    }

    /** Commits the counts of one protocol, unless they are zero; the commit may fail. */
    method CommitProtocol(p: Protocol, created: real, commits: bool) returns (committed: bool)
      requires Valid() && p in protoRecordCount && phase.Counts? && p in phase.todo && phase.created == created
      modifies `protoRecordCount, `requestCount, `marks, `phase
      ensures Valid() && protoRecordCount.Keys == old(protoRecordCount.Keys)
      ensures forall q :: q in protoRecordCount && q != p ==> protoRecordCount[q] == old(protoRecordCount[q])
      ensures CountEnabled(old(Now()), if committed then Commit(p) else Fail)
      ensures Now() == CountNext(old(Now()), if committed then Commit(p) else Fail)
      ensures committed <==> commits || old(protoRecordCount[p]) == Tally(0, 0)
      ensures requestCount == old(requestCount)
                              + if committed then RowFor(p, old(protoRecordCount[p]), created) else []
    {
      ghost var t := Now();
      CountNextKeepsInv(t, Commit(p));
      var tally := protoRecordCount[p];
      committed := true;
      if tally.success > 0 || tally.failure > 0 {
        committed := commits;
        if committed {
          requestCount := requestCount + [CountRow(p, tally.success, tally.failure, created)];
          protoRecordCount := protoRecordCount[p := Tally(0, 0)];
          marks := marks[p := |processed|];
        }
      }
      if committed {
        phase := phase.(todo := phase.todo - {p});
        assert Now() == CountNext(t, Commit(p));
      } else {
        phase := Waiting;
        CountNextKeepsInv(t, Fail);
        assert Now() == CountNext(t, Fail);
      }
    }

    /** One protocol more. */
    method FlushOne(p: Protocol, created: real, commits: Protocol -> bool, ghost n: nat,
                    ghost before: map<Protocol, Tally>, ghost todo: set<Protocol>,
                    ghost start: Thread, ghost steps: seq<CountStep>)
      returns (committed: bool)
      requires Valid() && phase == Counts(todo, created) && p in todo && n <= |requestCount|
      requires Flushing(requestCount, protoRecordCount, n, before, created, commits, todo, false)
      requires CountSchedulable(start, steps) && Now() == CountExecute(start, steps)
      modifies `protoRecordCount, `requestCount, `marks, `phase
      ensures Valid() && old(requestCount) <= requestCount
      ensures CountSchedulable(start, steps + [if committed then Commit(p) else Fail])
      ensures Now() == CountExecute(start, steps + [if committed then Commit(p) else Fail])
      ensures Flushing(requestCount, protoRecordCount, n, before, created, commits, todo - {p}, !committed)
      ensures phase == if committed then Counts(todo - {p}, created) else Waiting
    {
      ghost var rows, counts := requestCount, protoRecordCount;
      committed := CommitProtocol(p, created, commits(p));
      FlushedOneMore(rows, counts, n, before, created, commits, todo, p, protoRecordCount);
      CountOneStepMore(start, steps, if committed then Commit(p) else Fail);
    }

    /** Visits the protocols in arbitrary order; stops at the first failing commit. */
    method CreateRecordCount(created: real, commits: Protocol -> bool,
                             ghost before: seq<CountStep>, ghost start: Thread)
      returns (raised: bool, ghost steps: seq<CountStep>)
      requires Valid() && phase == Counts(protoRecordCount.Keys, created)
      requires CountSchedulable(start, before) && Now() == CountExecute(start, before)
      modifies `protoRecordCount, `requestCount, `marks, `phase
      ensures Valid() && CountSchedulable(start, steps) && Now() == CountExecute(start, steps) && before <= steps
      ensures forall i :: |before| <= i < |steps| ==> !steps[i].Receive?
      ensures phase == if raised then Waiting else Counts({}, created)
      ensures old(requestCount) <= requestCount
      ensures RowsOf(requestCount, |old(requestCount)|, old(protoRecordCount), created)
      ensures raised <==> SomeCommitFails(old(protoRecordCount), commits)
      ensures !raised ==> AllRows(requestCount, |old(requestCount)|, old(protoRecordCount))
    {
      ghost var rows, counts := requestCount, protoRecordCount;
      var todo := protoRecordCount.Keys;
      raised, steps := false, before;
      while todo != {} && !raised
        invariant Valid() && CountSchedulable(start, steps) && Now() == CountExecute(start, steps) && before <= steps
        invariant forall i :: |before| <= i < |steps| ==> !steps[i].Receive?
        invariant phase == if raised then Waiting else Counts(todo, created)
        invariant rows <= requestCount
        invariant Flushing(requestCount, protoRecordCount, |rows|, counts, created, commits, todo, raised)
        decreases todo
      {
        var p :| p in todo;
        var committed := FlushOne(p, created, commits, |rows|, counts, todo, start, steps);
        steps := steps + [if committed then Commit(p) else Fail];
        raised := !committed;
        todo := todo - {p};
      }
    }

    /** Commits the latency sum and its samples, or leaves everything as it is. */
    method CreateLatencyStats(created: real, commits: bool) returns (raised: bool)
      modifies `latencySum, `samples, `latencyStats, `batches, `open
      ensures var t := old(Now());
              Now() == if raised then t else t.(counter := FlushedLatency(t.counter, created))
      ensures raised <==> !commits
      ensures latencyStats == old(latencyStats)
                              + if commits then [LatencyRow(old(latencySum), old(samples), created)] else []
      ensures commits ==> latencySum == 0.0 && samples == 0
    {
      if !commits {
        return true;
      }
      latencyStats := latencyStats + [LatencyRow(latencySum, samples, created)];
      batches, open := batches + [open], [];
      latencySum, samples := 0.0, 0;
      raised := false;
    }

    /** The end of a flush: the latency sum, then the timer. */
    method FinishFlush(clock: Clock, commits: bool) returns (raised: bool)
      requires Valid() && phase.Counts? && phase.todo == {}
      modifies `latencySum, `samples, `latencyStats, `batches, `open, `lastUpdated, `phase
      ensures Valid()
      ensures Now() == CountNext(old(Now()), if raised then Fail else CommitLatencies(clock.latency, clock.finished))
      ensures raised <==> !commits
      ensures lastUpdated == if raised then old(lastUpdated) else clock.finished
      ensures latencyStats == old(latencyStats)
                              + if commits then [LatencyRow(old(latencySum), old(samples), clock.latency)] else []
      ensures !raised ==> open == [] && AllCommitted(Now().counter)
    {
      ghost var t := Now();
      FlushEnds(t, clock.latency, clock.finished);
      raised := CreateLatencyStats(clock.latency, commits);
      if !raised {
        lastUpdated := clock.finished;
      }
      phase := Waiting;
      assert Now() == CountNext(t, if raised then Fail else CommitLatencies(clock.latency, clock.finished));
    }

    method Flush(clock: Clock, commits: Protocol -> bool, latencyCommits: bool,
                 ghost before: seq<CountStep>, ghost start: Thread)
      returns (raised: bool, ghost steps: seq<CountStep>)
      requires Valid() && phase == Counts(protoRecordCount.Keys, clock.counts)
      requires CountSchedulable(start, before) && Now() == CountExecute(start, before)
      modifies `protoRecordCount, `requestCount, `marks, `phase, `latencySum, `samples, `latencyStats, `batches, `open,
               `lastUpdated
      ensures Valid() && phase.Waiting?
      ensures CountSchedulable(start, steps) && Now() == CountExecute(start, steps) && before <= steps
      ensures forall i :: |before| <= i < |steps| ==> !steps[i].Receive?
      ensures raised <==> SomeCommitFails(old(protoRecordCount), commits) || !latencyCommits
      ensures lastUpdated == if raised then old(lastUpdated) else clock.finished
      ensures old(requestCount) <= requestCount
      ensures RowsOf(requestCount, |old(requestCount)|, old(protoRecordCount), clock.counts)
      ensures latencyStats == old(latencyStats)
                              + if raised then [] else [LatencyRow(old(latencySum), old(samples), clock.latency)]
      ensures !raised ==> AllRows(requestCount, |old(requestCount)|, old(protoRecordCount))
      ensures !raised ==> open == [] && AllCommitted(Now().counter)
    {
      raised, steps := CreateRecordCount(clock.counts, commits, before, start);
      if !raised {
        raised := FinishFlush(clock, latencyCommits);
        ghost var last := if raised then Fail else CommitLatencies(clock.latency, clock.finished);
        CountOneStepMore(start, steps, last);
        steps := steps + [last];
      }
    }

    /** update_counters is a run of the counting thread that begins with receiving the record and ends
        waiting again. It flushes if 30 seconds have passed: a row stamped alike for each protocol with counts
        pending, this record's included, then the latency row. It raises exactly if a commit it needs fails,
        and then leaves the timer alone; a flush that does not raise leaves nothing pending. */
    method UpdateCounters(r: Record, clock: Clock, commits: Protocol -> bool, latencyCommits: bool)
      returns (raised: bool, ghost steps: seq<CountStep>)
      requires Valid() && phase.Waiting?
      modifies this
      ensures Valid() && phase.Waiting?
      ensures CountSchedulable(old(Now()), steps) && Now() == CountExecute(old(Now()), steps)
      ensures [Receive(r, clock.check, clock.counts)] <= steps
      ensures forall i :: 1 <= i < |steps| ==> !steps[i].Receive?
      ensures var c := Tallied(old(Now()).counter, r);
              if clock.check - old(lastUpdated) < 30.0 then
                && !raised && steps == [Receive(r, clock.check, clock.counts)] && Now().counter == c
                && lastUpdated == old(lastUpdated)
              else
                && (raised <==> SomeCommitFails(c.pending, commits) || !latencyCommits)
                && lastUpdated == (if raised then old(lastUpdated) else clock.finished)
                && old(requestCount) <= requestCount
                && RowsOf(requestCount, |old(requestCount)|, c.pending, clock.counts)
                && latencyStats == old(latencyStats)
                                   + (if raised then [] else [LatencyRow(c.latencySum, c.samples, clock.latency)])
                && (!raised ==> AllRows(requestCount, |old(requestCount)|, c.pending)
                                && open == [] && AllCommitted(Now().counter))
    {
      ghost var start := Now();
      var due := AddRecord(r, clock);
      CountOneStepMore(start, [], Receive(r, clock.check, clock.counts));
      steps := [] + [Receive(r, clock.check, clock.counts)];
      raised := false;
      if due {
        raised, steps := Flush(clock, commits, latencyCommits, steps, start);
      }
    }
  }
}
