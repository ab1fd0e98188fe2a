/**
 From the traffic queue to the tables: any number of writer threads hand each record to the counting
 thread's bounded queue and then insert its row; the counting thread tallies and flushes. Every step
 of every thread is a transition, so runs are all interleavings, failures included.
 */
module RecordPipeline {
  import opened TrafficElements
  import opened RecordCounting
  import opened CountingThread
  import opened Repository

  const QUEUE_SIZE: nat := 1000

  /** The bound of the queue the pings put their records on. */
  const TRAFFIC_QUEUE_SIZE: nat := 5000

  /** Queued: the record is on the counting queue, its row still to be inserted. */
  datatype Writer = Free | Got(record: Record) | Queued(record: Record)

  /** emitted is a history variable. */
  datatype State = State(
    traffic: seq<Record>,
    writers: seq<Writer>,
    countQueue: seq<Record>,
    successRows: seq<Record>,
    faultRows: seq<Record>,
    failedInserts: seq<Record>,
    counting: Thread,
    emitted: seq<Record>)

  datatype Step =
    | Emit(record: Record)
    | Take(writer: nat)
    | Enqueue(writer: nat)
    | Insert(writer: nat, committed: bool)
    | Counting(step: CountStep)

  function Init(writers: nat, now: real): State {
    State([], seq(writers, i => Free), [], [], [], [], Thread(IDLE, now, Waiting), [])
  }

  /** The counting thread receives nothing but the head of its queue, and blocks while that is empty. */
  predicate Enabled(s: State, step: Step) {
    match step
    case Emit(_) => |s.traffic| < TRAFFIC_QUEUE_SIZE
    case Take(w) => w < |s.writers| && s.writers[w].Free? && s.traffic != []
    case Enqueue(w) => w < |s.writers| && s.writers[w].Got? && |s.countQueue| < QUEUE_SIZE
    case Insert(w, _) => w < |s.writers| && s.writers[w].Queued?
    case Counting(c) =>
      CountEnabled(s.counting, c) && (c.Receive? ==> s.countQueue != [] && c.record == s.countQueue[0])
  }

  /** A failed insert is logged and the row is lost. */
  function Next(s: State, step: Step): State
    requires Enabled(s, step)
  {
    match step
    case Emit(r) => s.(traffic := s.traffic + [r], emitted := s.emitted + [r])
    case Take(w) => s.(traffic := s.traffic[1..], writers := s.writers[w := Got(s.traffic[0])])
    case Enqueue(w) =>
      var r := s.writers[w].record;
      s.(countQueue := s.countQueue + [r], writers := s.writers[w := Queued(r)])
    case Insert(w, committed) =>
      var r := s.writers[w].record;
      var freed := s.(writers := s.writers[w := Free]);
      if !committed then freed.(failedInserts := s.failedInserts + [r])
      else if r.success then freed.(successRows := s.successRows + [r])
      else freed.(faultRows := s.faultRows + [r])
    case Counting(c) =>
      s.(countQueue := if c.Receive? then s.countQueue[1..] else s.countQueue, counting := CountNext(s.counting, c))
  }

  /** The records counted so far. */
  function Counted(s: State): seq<Record> { s.counting.counter.processed }

  predicate Schedulable(s: State, steps: seq<Step>)
    decreases |steps|
  {
    steps == [] || (Enabled(s, steps[0]) && Schedulable(Next(s, steps[0]), steps[1..]))
  }

  function Execute(s: State, steps: seq<Step>): State
    requires Schedulable(s, steps)
    decreases |steps|
  {
    if steps == [] then s else Execute(Next(s, steps[0]), steps[1..])
  }

  lemma {:induction false} ExecuteConcat(s: State, a: seq<Step>, b: seq<Step>)
    requires Schedulable(s, a) && Schedulable(Execute(s, a), b)
    ensures Schedulable(s, a + b) && Execute(s, a + b) == Execute(Execute(s, a), b)
    decreases |a|
  {
    if a == [] {
      assert a + b == b;
    } else {
      ExecuteConcat(Next(s, a[0]), a[1..], b);
      assert (a + b)[1..] == a[1..] + b;
    }
  }

  lemma OneStep(s: State, step: Step)
    requires Enabled(s, step)
    ensures Schedulable(s, [step]) && Execute(s, [step]) == Next(s, step)
  {
    assert [step][1..] == [];
  }

  lemma AppendStep(s: State, steps: seq<Step>, step: Step)
    requires Schedulable(s, steps) && Enabled(Execute(s, steps), step)
    ensures Schedulable(s, steps + [step]) && Execute(s, steps + [step]) == Next(Execute(s, steps), step)
  {
    OneStep(Execute(s, steps), step);
    ExecuteConcat(s, steps, [step]);
  }

  lemma TwoSteps(s: State, a: Step, rest: seq<Step>)
    requires Enabled(s, a) && Schedulable(Next(s, a), rest)
    ensures Schedulable(s, [a] + rest) && Execute(s, [a] + rest) == Execute(Next(s, a), rest)
  {
    OneStep(s, a);
    ExecuteConcat(s, [a], rest);
  }

  // ----- the counting thread inside the pipeline -----

  function Lift(cs: seq<CountStep>): seq<Step> { seq(|cs|, i requires 0 <= i < |cs| => Counting(cs[i])) }

  lemma {:induction false} FlushLifts(s: State, cs: seq<CountStep>)
    requires CountSchedulable(s.counting, cs) && forall i :: 0 <= i < |cs| ==> !cs[i].Receive?
    ensures Schedulable(s, Lift(cs)) && Execute(s, Lift(cs)) == s.(counting := CountExecute(s.counting, cs))
    decreases |cs|
  {
    if cs != [] {
      FlushLifts(Next(s, Counting(cs[0])), cs[1..]);
      assert Lift(cs) == [Counting(cs[0])] + Lift(cs[1..]);
      TwoSteps(s, Counting(cs[0]), Lift(cs[1..]));
    }
  }

  /** One update of the counting thread, for the record at the head of its queue, is a run of the
      pipeline that touches nothing but that queue and the thread. */
  lemma UpdateLifts(s: State, cs: seq<CountStep>)
    requires s.countQueue != [] && CountSchedulable(s.counting, cs)
    requires cs != [] && cs[0].Receive? && cs[0].record == s.countQueue[0]
    requires forall i :: 1 <= i < |cs| ==> !cs[i].Receive?
    ensures Schedulable(s, Lift(cs))
    ensures Execute(s, Lift(cs)) == s.(countQueue := s.countQueue[1..], counting := CountExecute(s.counting, cs))
  {
    FlushLifts(Next(s, Counting(cs[0])), cs[1..]);
    assert Lift(cs) == [Counting(cs[0])] + Lift(cs[1..]);
    TwoSteps(s, Counting(cs[0]), Lift(cs[1..]));
  }

  // ----- what the writers hold -----

  function HeldBy(w: Writer, queued: bool): multiset<Record> {
    if (if queued then w.Queued? else w.Got?) then multiset{w.record} else multiset{}
  }

  function Held(ws: seq<Writer>, queued: bool): multiset<Record> {
    if ws == [] then multiset{} else HeldBy(ws[0], queued) + Held(ws[1..], queued)
  }

  lemma {:induction false} HeldUpdate(ws: seq<Writer>, i: nat, w: Writer, queued: bool, x: Record)
    requires i < |ws|
    ensures Held(ws[i := w], queued)[x] + HeldBy(ws[i], queued)[x] == Held(ws, queued)[x] + HeldBy(w, queued)[x]
  {
    if i == 0 {
      assert ws[i := w][1..] == ws[1..];
    } else {
      HeldUpdate(ws[1..], i - 1, w, queued, x);
      assert ws[i := w][1..] == ws[1..][i - 1 := w];
    }
  }

  lemma {:induction false} NothingHeld(ws: seq<Writer>, queued: bool)
    requires forall i :: 0 <= i < |ws| ==> HeldBy(ws[i], queued) == multiset{}
    ensures Held(ws, queued) == multiset{}
  {
    if ws != [] { NothingHeld(ws[1..], queued); }
  }

  // ----- the invariant -----

  function Occurs(rs: seq<Record>, x: Record): nat { multiset(rs)[x] }

  lemma OccursMore(rs: seq<Record>, r: Record, x: Record)
    ensures Occurs(rs + [r], x) == Occurs(rs, x) + if r == x then 1 else 0
  {
  }

  lemma OccursLess(rs: seq<Record>, x: Record)
    requires rs != []
    ensures Occurs(rs, x) == Occurs(rs[1..], x) + if rs[0] == x then 1 else 0
  {
    assert rs == [rs[0]] + rs[1..];
  }

  /** Rows, lost inserts and inserts under way on one side; counted or queued for counting on the other. */
  ghost predicate Balanced(s: State, x: Record) {
    && Occurs(s.successRows, x) + Occurs(s.faultRows, x) + Occurs(s.failedInserts, x) + Held(s.writers, true)[x]
       == Occurs(Counted(s), x) + Occurs(s.countQueue, x)
    && Occurs(s.emitted, x)
       == Occurs(s.traffic, x) + Held(s.writers, false)[x] + Occurs(Counted(s), x) + Occurs(s.countQueue, x)
  }

  /** Successes and faults go to separate tables, and the queues stay within their bounds. */
  ghost predicate TablesInv(s: State) {
    && (forall i :: 0 <= i < |s.successRows| ==> s.successRows[i].success)
    && (forall i :: 0 <= i < |s.faultRows| ==> !s.faultRows[i].success)
    && |s.countQueue| <= QUEUE_SIZE && |s.traffic| <= TRAFFIC_QUEUE_SIZE
  }

  /** The raw side and the counting side account for the same records; nothing emitted is missing. */
  ghost predicate Inv(s: State) {
    && (forall x :: Balanced(s, x))
    && ThreadInv(s.counting)
    && TablesInv(s)
  }

  lemma InitInv(writers: nat, now: real)
    ensures Inv(Init(writers, now))
  {
    var s := Init(writers, now);
    forall x ensures Balanced(s, x) { InitBalanced(writers, now, x); }
    assert ThreadInv(s.counting) && TablesInv(s);
  }

  lemma InitBalanced(writers: nat, now: real, x: Record)
    ensures Balanced(Init(writers, now), x)
  {
    NothingHeld(Init(writers, now).writers, true);
    NothingHeld(Init(writers, now).writers, false);
  }

  /** Taking, queueing or inserting moves one writer from w to w'. */
  lemma HeldAfter(ws: seq<Writer>, i: nat, w: Writer, x: Record)
    requires i < |ws|
    ensures Held(ws[i := w], true)[x] + HeldBy(ws[i], true)[x] == Held(ws, true)[x] + HeldBy(w, true)[x]
    ensures Held(ws[i := w], false)[x] + HeldBy(ws[i], false)[x] == Held(ws, false)[x] + HeldBy(w, false)[x]
  {
    HeldUpdate(ws, i, w, true, x);
    HeldUpdate(ws, i, w, false, x);
  }

  lemma TakeBalanced(s: State, w: nat, x: Record)
    requires Balanced(s, x) && Enabled(s, Take(w))
    ensures Balanced(Next(s, Take(w)), x)
  {
    HeldAfter(s.writers, w, Got(s.traffic[0]), x);
    OccursLess(s.traffic, x);
  }

  lemma EnqueueBalanced(s: State, w: nat, x: Record)
    requires Balanced(s, x) && Enabled(s, Enqueue(w))
    ensures Balanced(Next(s, Enqueue(w)), x)
  {
    var r := s.writers[w].record;
    HeldAfter(s.writers, w, Queued(r), x);
    OccursMore(s.countQueue, r, x);
  }

  lemma InsertBalanced(s: State, w: nat, committed: bool, x: Record)
    requires Balanced(s, x) && Enabled(s, Insert(w, committed))
    ensures Balanced(Next(s, Insert(w, committed)), x)
  {
    var r := s.writers[w].record;
    HeldAfter(s.writers, w, Free, x);
    if !committed {
      OccursMore(s.failedInserts, r, x);
    } else if r.success {
      OccursMore(s.successRows, r, x);
    } else {
      OccursMore(s.faultRows, r, x);
    }
  }

  lemma EmitBalanced(s: State, r: Record, x: Record)
    requires Balanced(s, x) && Enabled(s, Emit(r))
    ensures Balanced(Next(s, Emit(r)), x)
  {
    OccursMore(s.traffic, r, x);
    OccursMore(s.emitted, r, x);
  }

  lemma CountingBalanced(s: State, c: CountStep, x: Record)
    requires Balanced(s, x) && Enabled(s, Counting(c))
    ensures Balanced(Next(s, Counting(c)), x)
  {
    if c.Receive? {
      OccursLess(s.countQueue, x);
      OccursMore(Counted(s), s.countQueue[0], x);
    }
  }

  lemma NextBalanced(s: State, step: Step, x: Record)
    requires Balanced(s, x) && Enabled(s, step)
    ensures Balanced(Next(s, step), x)
  {
    match step
    case Emit(r) => EmitBalanced(s, r, x);
    case Take(w) => TakeBalanced(s, w, x);
    case Enqueue(w) => EnqueueBalanced(s, w, x);
    case Insert(w, committed) => InsertBalanced(s, w, committed, x);
    case Counting(c) => CountingBalanced(s, c, x);
  }

  lemma NextKeepsTables(s: State, step: Step)
    requires TablesInv(s) && Enabled(s, step)
    ensures TablesInv(Next(s, step))
  {
  }

  lemma NextKeepsInv(s: State, step: Step)
    requires Inv(s) && Enabled(s, step)
    ensures Inv(Next(s, step))
  {
    forall x ensures Balanced(Next(s, step), x) {
      NextBalanced(s, step, x);
    }
    NextKeepsTables(s, step);
    if step.Counting? {
      CountNextKeepsInv(s.counting, step.step);
    }
  }

  lemma {:induction false} ScheduleKeepsInv(s: State, steps: seq<Step>)
    requires Inv(s) && Schedulable(s, steps)
    ensures Inv(Execute(s, steps))
    decreases |steps|
  {
    if steps != [] {
      NextKeepsInv(s, steps[0]);
      ScheduleKeepsInv(Next(s, steps[0]), steps[1..]);
    }
  }

  // ----- counting agrees with the raw tables -----

  lemma {:induction false} CountConcat(a: seq<Record>, b: seq<Record>, p: Protocol, ok: bool)
    ensures Count(a + b, p, ok) == Count(a, p, ok) + Count(b, p, ok)
  {
    if b == [] {
      assert a + b == a;
    } else {
      CountConcat(a, b[..|b| - 1], p, ok);
      assert (a + b)[..|a + b| - 1] == a + b[..|b| - 1];
    }
  }

  lemma CountWithout(b: seq<Record>, i: nat, p: Protocol, ok: bool)
    requires i < |b|
    ensures Count(b, p, ok) == Count(b[..i] + b[i + 1..], p, ok) + Matches(b[i], p, ok)
  {
    assert b == b[..i] + ([b[i]] + b[i + 1..]);
    CountConcat(b[..i], b[i + 1..], p, ok);
    CountConcat(b[..i], [b[i]] + b[i + 1..], p, ok);
    CountConcat([b[i]], b[i + 1..], p, ok);
    assert [b[i]][..0] == [];
  }

  lemma MultisetWithout(b: seq<Record>, i: nat)
    requires i < |b|
    ensures multiset(b) == multiset(b[..i] + b[i + 1..]) + multiset{b[i]}
  {
    assert b == b[..i] + ([b[i]] + b[i + 1..]);
    assert multiset([b[i]] + b[i + 1..]) == multiset{b[i]} + multiset(b[i + 1..]);
  }

  /** The place in b of the last record of a, for lists with the same records. */
  lemma PlaceOfLast(a: seq<Record>, b: seq<Record>) returns (i: nat)
    requires a != [] && multiset(a) == multiset(b)
    ensures i < |b| && b[i] == a[|a| - 1]
    ensures multiset(a[..|a| - 1]) == multiset(b[..i] + b[i + 1..])
  {
    var n := |a| - 1;
    assert a[n] in multiset(b);
    i :| 0 <= i < |b| && b[i] == a[n];
    assert a[..n] + a[n + 1..] == a[..n];
    MultisetWithout(a, n);
    MultisetWithout(b, i);
    assert multiset(a[..n]) == multiset(a) - multiset{a[n]};
    assert multiset(b[..i] + b[i + 1..]) == multiset(b) - multiset{a[n]};
  }

  /** Counting does not depend on the order of the records. */
  lemma {:induction false} CountIsOrderFree(a: seq<Record>, b: seq<Record>, p: Protocol, ok: bool)
    requires multiset(a) == multiset(b)
    ensures Count(a, p, ok) == Count(b, p, ok)
    decreases |a|
  {
    if a == [] {
      assert |multiset(b)| == 0;
    } else {
      var i := PlaceOfLast(a, b);
      CountWithout(b, i, p, ok);
      CountIsOrderFree(a[..|a| - 1], b[..i] + b[i + 1..], p, ok);
    }
  }

  /** The records writers hold, after or before queueing them, as a list. */
  function HeldList(ws: seq<Writer>, queued: bool): seq<Record> {
    if ws == [] then []
    else if (if queued then ws[0].Queued? else ws[0].Got?) then [ws[0].record] + HeldList(ws[1..], queued)
    else HeldList(ws[1..], queued)
  }

  lemma {:induction false} HeldListOccurs(ws: seq<Writer>, queued: bool, x: Record)
    ensures Occurs(HeldList(ws, queued), x) == Held(ws, queued)[x]
  {
    if ws != [] { HeldListOccurs(ws[1..], queued, x); }
  }

  lemma {:induction false} CountAlike(rs: seq<Record>, p: Protocol, ok: bool)
    requires forall i :: 0 <= i < |rs| ==> rs[i].success != ok
    ensures Count(rs, p, ok) == 0
  {
    if rs != [] { CountAlike(rs[..|rs| - 1], p, ok); }
  }

  /** In every reachable state, per protocol and outcome: rows, inserts under way and failed inserts
      together equal what was flushed, is pending, or waits on the counting queue. */
  lemma RawEqualsCounted(s: State, p: Protocol, ok: bool)
    requires Inv(s)
    ensures Count(if ok then s.successRows else s.faultRows, p, ok)
            + Count(HeldList(s.writers, true), p, ok) + Count(s.failedInserts, p, ok)
            == RowSum(s.counting.counter.rows, p, ok) + Pick(PendingOf(s.counting.counter, p), ok)
              + Count(s.countQueue, p, ok)
  {
    var a := s.successRows + s.faultRows + (HeldList(s.writers, true) + s.failedInserts);
    var b := Counted(s) + s.countQueue;
    SameRecords(s, a, b);
    CountIsOrderFree(a, b, p, ok);
    assert CountConserved(s.counting.counter, p, ok);
    CountConcat(Counted(s), s.countQueue, p, ok);
    CountConcat(s.successRows + s.faultRows, HeldList(s.writers, true) + s.failedInserts, p, ok);
    CountConcat(s.successRows, s.faultRows, p, ok);
    CountConcat(HeldList(s.writers, true), s.failedInserts, p, ok);
    CountAlike(if ok then s.faultRows else s.successRows, p, ok);
  }

  lemma SameRecords(s: State, a: seq<Record>, b: seq<Record>)
    requires Inv(s) && a == s.successRows + s.faultRows + (HeldList(s.writers, true) + s.failedInserts)
    requires b == Counted(s) + s.countQueue
    ensures multiset(a) == multiset(b)
  {
    forall x ensures multiset(a)[x] == multiset(b)[x] {
      assert Balanced(s, x);
      HeldListOccurs(s.writers, true, x);
    }
  }
}
