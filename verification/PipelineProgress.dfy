/**
 Where the pipeline gets to by itself: every run without a further record is bounded and stops only when
 the pipeline is quiet; and whether a quiet pipeline is drained, or keeps counts pending.
 */
module PipelineProgress {
  import opened TrafficElements
  import opened RecordCounting
  import opened CountingThread
  import opened RecordPipeline
  import opened ReportedCounts

  // ----- when pending counts reach the table -----

  lemma {:induction false} NoneOfKind(rs: seq<Record>, p: Protocol)
    ensures (Count(rs, p, true) == 0 && Count(rs, p, false) == 0)
            <==> forall i :: 0 <= i < |rs| ==> rs[i].kind != p
  {
    if rs != [] {
      var n := |rs| - 1;
      NoneOfKind(rs[..n], p);
      assert forall i :: 0 <= i < n ==> rs[..n][i] == rs[i];
      assert rs[n].success == true || rs[n].success == false;
    }
  }

  /** With the queues and writers empty and no insert failed, the state is drained exactly if no record
      of any protocol was counted after the last commit of that protocol. */
  lemma QuietDrainedIff(s: State)
    requires Inv(s) && Quiet(s) && s.failedInserts == []
    ensures Drained(s)
            <==> forall p, i :: 0 <= i < |Since(s.counting.counter, p)| ==> Since(s.counting.counter, p)[i].kind != p
  {
    var c := s.counting.counter;
    forall p
      ensures PendingOf(c, p) == Tally(0, 0) <==> forall i :: 0 <= i < |Since(c, p)| ==> Since(c, p)[i].kind != p
    {
      assert CountConserved(c, p, true) && CountConserved(c, p, false);
      NoneOfKind(Since(c, p), p);
    }
  }

  /** A quiet pipeline stands still: only a further record moves any thread, so counts that are pending
      then stay pending until one arrives. */
  lemma QuietWaits(s: State, steps: seq<Step>)
    requires Quiet(s) && Schedulable(s, steps) && steps != []
    ensures steps[0].Emit?
  {
    QuietOnlyEmits(s, steps[0]);
  }

  lemma QuietOnlyEmits(s: State, step: Step)
    requires Quiet(s)
    ensures Enabled(s, step) <==> step.Emit?
  {
  }

  // ----- progress -----

  function Owed(w: Writer): nat { if w.Got? then 8 else if w.Queued? then 1 else 0 }

  function OwedBy(ws: seq<Writer>): nat { if ws == [] then 0 else Owed(ws[0]) + OwedBy(ws[1..]) }

  lemma {:induction false} OwedUpdate(ws: seq<Writer>, i: nat, w: Writer)
    requires i < |ws|
    ensures OwedBy(ws[i := w]) + Owed(ws[i]) == OwedBy(ws) + Owed(w)
  {
    if i == 0 {
      assert ws[i := w][1..] == ws[1..];
    } else {
      OwedUpdate(ws[1..], i - 1, w);
      assert ws[i := w][1..] == ws[1..][i - 1 := w];
    }
  }

  lemma {:induction false} FindBusy(ws: seq<Writer>) returns (i: nat)
    requires OwedBy(ws) > 0
    ensures i < |ws| && !ws[i].Free?
  {
    if !ws[0].Free? { i := 0; } else { i := FindBusy(ws[1..]); i := i + 1; }
  }

  lemma {:induction false} NobodyOwes(ws: seq<Writer>, i: nat)
    requires OwedBy(ws) == 0 && i < |ws|
    ensures ws[i].Free?
  {
    if i > 0 { NobodyOwes(ws[1..], i - 1); }
  }

  function FlushLeft(t: Thread): nat { if t.phase.Waiting? then 0 else 1 + |t.phase.todo| }

  /** An upper bound for the steps the threads can still make without a further record. */
  function WorkLeft(s: State): nat { 9 * |s.traffic| + OwedBy(s.writers) + 6 * |s.countQueue| + FlushLeft(s.counting) }

  lemma NoWorkIsQuiet(s: State)
    requires WorkLeft(s) == 0
    ensures Quiet(s)
  {
    forall i | 0 <= i < |s.writers| ensures s.writers[i].Free? { NobodyOwes(s.writers, i); }
  }

  /** A next step of the flush in which every commit succeeds. */
  lemma FlushGoesOn(t: Thread, stamp: real) returns (step: CountStep)
    requires t.phase.Counts?
    ensures CountEnabled(t, step) && !step.Receive? && !step.Fail?
    ensures FlushLeft(CountNext(t, step)) == FlushLeft(t) - 1
    ensures step == CommitLatencies(stamp, stamp) || step.Commit?
  {
    if t.phase.todo == {} {
      step := CommitLatencies(stamp, stamp);
    } else {
      var p :| p in t.phase.todo;
      step := Commit(p);
    }
  }

  lemma AtMostThree(ps: set<Protocol>)
    ensures |ps| <= 3
  {
    forall p | p in ps ensures p in {TCP, UDP, HTTP} { assert p.TCP? || p.UDP? || p.HTTP?; }
    var rest := {TCP, UDP, HTTP} - ps;
    assert ps + rest == {TCP, UDP, HTTP} && ps !! rest;
    assert |ps + rest| == |ps| + |rest|;
  }

  lemma CountingWorks(t: Thread, c: CountStep)
    requires CountEnabled(t, c)
    ensures if c.Receive? then FlushLeft(CountNext(t, c)) <= 4 else FlushLeft(CountNext(t, c)) < FlushLeft(t)
  {
    if c.Receive? {
      AtMostThree(CountNext(t, c).counter.pending.Keys);
    }
  }

  /** Every step but the emission of a record uses up work, a failing one as well. */
  lemma StepWorks(s: State, step: Step)
    requires Enabled(s, step) && !step.Emit?
    ensures WorkLeft(Next(s, step)) < WorkLeft(s)
  {
    match step
    case Take(w) => OwedUpdate(s.writers, w, Next(s, step).writers[w]);
    case Enqueue(w) => OwedUpdate(s.writers, w, Next(s, step).writers[w]);
    case Insert(w, _) => OwedUpdate(s.writers, w, Next(s, step).writers[w]);
    case Counting(c) => CountingWorks(s.counting, c);
  }

  /** While a record or a flush is under way some thread can advance it, without a further record, a
      failure or a new flush: the bounded counting queue never blocks for good. */
  lemma WorkGoesOn(s: State) returns (step: Step)
    requires |s.writers| > 0 && WorkLeft(s) > 0
    ensures Enabled(s, step) && !step.Emit? && WorkLeft(Next(s, step)) < WorkLeft(s)
    ensures |Next(s, step).writers| == |s.writers| && Next(s, step).failedInserts == s.failedInserts
  {
    if s.counting.phase.Counts? {
      var c := FlushGoesOn(s.counting, 0.0);
      step := Counting(c);
    } else if s.countQueue != [] {
      step := Counting(Receive(s.countQueue[0], s.counting.lastUpdated, 0.0));
    } else if OwedBy(s.writers) > 0 {
      var w := FindBusy(s.writers);
      step := if s.writers[w].Got? then Enqueue(w) else Insert(w, true);
    } else {
      NobodyOwes(s.writers, 0);
      step := Take(0);
    }
    StepWorks(s, step);
  }

  lemma {:induction false} WritersStay(s: State, steps: seq<Step>)
    requires Schedulable(s, steps)
    ensures |Execute(s, steps).writers| == |s.writers|
    decreases |steps|
  {
    if steps != [] { WritersStay(Next(s, steps[0]), steps[1..]); }
  }

  /** Without a further record every run is bounded. */
  lemma {:induction false} RunBounded(s: State, steps: seq<Step>)
    requires Schedulable(s, steps) && forall i :: 0 <= i < |steps| ==> !steps[i].Emit?
    ensures |steps| + WorkLeft(Execute(s, steps)) <= WorkLeft(s)
    decreases |steps|
  {
    if steps != [] {
      StepWorks(s, steps[0]);
      RunBounded(Next(s, steps[0]), steps[1..]);
    }
  }

  /** The threads can go no further by themselves exactly in the quiet states. */
  lemma QuietIffOnlyEmits(s: State)
    requires |s.writers| > 0
    ensures Quiet(s) <==> forall step :: Enabled(s, step) ==> step.Emit?
  {
    if Quiet(s) {
      forall step | Enabled(s, step) ensures step.Emit? { QuietOnlyEmits(s, step); }
    } else {
      if WorkLeft(s) == 0 {
        NoWorkIsQuiet(s);
      } else {
        var step := WorkGoesOn(s);
        assert Enabled(s, step);
      }
    }
  }

  /** Hence every run without a further record, whatever the interleaving and the failures, comes to a quiet
      state within the bound, and stops nowhere else. */
  lemma EveryRunQuietens(s: State, steps: seq<Step>)
    requires |s.writers| > 0 && Schedulable(s, steps) && forall i :: 0 <= i < |steps| ==> !steps[i].Emit?
    ensures |steps| <= WorkLeft(s)
    ensures Quiet(Execute(s, steps)) <==> forall step :: Enabled(Execute(s, steps), step) ==> step.Emit?
  {
    RunBounded(s, steps);
    WritersStay(s, steps);
    QuietIffOnlyEmits(Execute(s, steps));
  }

  lemma {:induction false} CanQuieten(s: State) returns (steps: seq<Step>)
    requires |s.writers| > 0
    ensures Schedulable(s, steps) && forall i :: 0 <= i < |steps| ==> !steps[i].Emit?
    ensures var t := Execute(s, steps);
            Quiet(t) && t.failedInserts == s.failedInserts && |t.writers| == |s.writers|
    decreases WorkLeft(s)
  {
    if WorkLeft(s) == 0 {
      steps := [];
      NoWorkIsQuiet(s);
    } else {
      var step := WorkGoesOn(s);
      var rest := CanQuieten(Next(s, step));
      steps := [step] + rest;
    }
  }

  /** The rest of a flush whose commits succeed leaves nothing pending and moves the timer. */
  lemma {:induction false} FlushCompletes(s: State, stamp: real) returns (steps: seq<Step>)
    requires s.counting.phase.Counts? && ThreadInv(s.counting)
    ensures Schedulable(s, steps) && forall i :: 0 <= i < |steps| ==> steps[i].Counting?
    ensures var t := Execute(s, steps);
            && t == s.(counting := t.counting) && t.counting.phase.Waiting? && t.counting.lastUpdated == stamp
            && AllCommitted(t.counting.counter)
    decreases FlushLeft(s.counting)
  {
    var c := FlushGoesOn(s.counting, stamp);
    var t := Next(s, Counting(c));
    CountNextKeepsInv(s.counting, c);
    if t.counting.phase.Counts? {
      var rest := FlushCompletes(t, stamp);
      steps := [Counting(c)] + rest;
    } else {
      steps := [Counting(c)];
      assert steps[1..] == [];
      assert forall p :: PendingOf(t.counting.counter, p) == PendingOf(s.counting.counter, p);
    }
  }

  /** The way of one further record through a quiet pipeline, up to the interval check. */
  function OneMore(r: Record, check: real, created: real): seq<Step> {
    [Emit(r), Take(0), Enqueue(0), Insert(0, true), Counting(Receive(r, check, created))]
  }

  /** The record on the counting queue and in its table. */
  function HandedOver(s: State, r: Record): State {
    s.(countQueue := [r], emitted := s.emitted + [r],
       successRows := if r.success then s.successRows + [r] else s.successRows,
       faultRows := if r.success then s.faultRows else s.faultRows + [r])
  }

  lemma OneMoreHandedOver(s: State, r: Record)
    requires Quiet(s) && |s.writers| > 0
    ensures Schedulable(s, [Emit(r)] + ([Take(0)] + ([Enqueue(0)] + [Insert(0, true)])))
    ensures Execute(s, [Emit(r)] + ([Take(0)] + ([Enqueue(0)] + [Insert(0, true)]))) == HandedOver(s, r)
  {
    var s1 := Next(s, Emit(r));
    var s2 := Next(s1, Take(0));
    var s3 := Next(s2, Enqueue(0));
    assert s3.writers[0 := Free] == s.writers;
    OneStep(s3, Insert(0, true));
    TwoSteps(s2, Enqueue(0), [Insert(0, true)]);
    TwoSteps(s1, Take(0), [Enqueue(0)] + [Insert(0, true)]);
    TwoSteps(s, Emit(r), [Take(0)] + ([Enqueue(0)] + [Insert(0, true)]));
  }

  function Arrived(s: State, r: Record, check: real, created: real): State
    requires s.counting.phase.Waiting?
  {
    HandedOver(s, r).(countQueue := [], counting := CountNext(s.counting, Receive(r, check, created)))
  }

  lemma LastOfOneMore(s: State, r: Record, check: real, created: real)
    requires s.counting.phase.Waiting?
    ensures var last := Counting(Receive(r, check, created));
            Enabled(HandedOver(s, r), last) && Next(HandedOver(s, r), last) == Arrived(s, r, check, created)
  {
  }

  lemma OneMoreArrives(s: State, r: Record, check: real, created: real)
    requires Quiet(s) && |s.writers| > 0
    ensures Schedulable(s, OneMore(r, check, created))
    ensures Execute(s, OneMore(r, check, created)) == Arrived(s, r, check, created)
  {
    var first := [Emit(r)] + ([Take(0)] + ([Enqueue(0)] + [Insert(0, true)]));
    assert OneMore(r, check, created) == first + [Counting(Receive(r, check, created))];
    OneMoreHandedOver(s, r);
    LastOfOneMore(s, r, check, created);
    AppendStep(s, first, Counting(Receive(r, check, created)));
  }

  /** Some run with one further record drains a quiet pipeline. */
  lemma SomeRunDrains(s: State, r: Record, check: real, created: real, stamp: real) returns (steps: seq<Step>)
    requires Inv(s) && Quiet(s) && s.failedInserts == [] && |s.writers| > 0 && Due(s.counting, check)
    ensures Schedulable(s, OneMore(r, check, created) + steps) && forall i :: 0 <= i < |steps| ==> steps[i].Counting?
    ensures Drained(Execute(s, OneMore(r, check, created) + steps))
  {
    OneMoreArrives(s, r, check, created);
    var t := Execute(s, OneMore(r, check, created));
    CountNextKeepsInv(s.counting, Receive(r, check, created));
    steps := FlushCompletes(t, stamp);
    ExecuteConcat(s, OneMore(r, check, created), steps);
  }

  predicate Receives(step: Step) { step.Counting? && step.step.Receive? }

  predicate Fails(step: Step) { step.Counting? && step.step.Fail? }

  ghost predicate NoReceive(steps: seq<Step>) { forall i :: 0 <= i < |steps| ==> !Receives(steps[i]) }

  ghost predicate NoFail(steps: seq<Step>) { forall i :: 0 <= i < |steps| ==> !Fails(steps[i]) }

  /** A flush is under way, or nothing is pending. */
  ghost predicate Settling(t: Thread) { t.phase.Waiting? ==> AllCommitted(t.counter) }

  lemma SettlingStep(t: Thread, c: CountStep)
    requires ThreadInv(t) && Settling(t) && CountEnabled(t, c) && !c.Receive? && !c.Fail?
    ensures Settling(CountNext(t, c))
  {
    if c.CommitLatencies? {
      forall p ensures PendingOf(CountNext(t, c).counter, p) == Tally(0, 0) {
        assert PendingOf(CountNext(t, c).counter, p) == PendingOf(t.counter, p);
      }
    }
  }

  lemma {:induction false} SettlingRun(s: State, steps: seq<Step>)
    requires Inv(s) && Settling(s.counting) && Schedulable(s, steps) && NoReceive(steps) && NoFail(steps)
    ensures Settling(Execute(s, steps).counting)
    decreases |steps|
  {
    if steps != [] {
      assert !Receives(steps[0]) && !Fails(steps[0]);
      if steps[0].Counting? {
        SettlingStep(s.counting, steps[0].step);
      }
      NextKeepsInv(s, steps[0]);
      SettlingRun(Next(s, steps[0]), steps[1..]);
    }
  }

  /** Outside a flush the counting thread only moves by receiving. */
  lemma {:induction false} WaitingStays(s: State, steps: seq<Step>)
    requires s.counting.phase.Waiting? && Schedulable(s, steps) && NoReceive(steps)
    ensures Execute(s, steps).counting == s.counting
    decreases |steps|
  {
    if steps != [] {
      assert !Receives(steps[0]);
      WaitingStays(Next(s, steps[0]), steps[1..]);
    }
  }

  lemma ReceivedIsPending(t: Thread, r: Record, check: real, created: real)
    requires t.phase.Waiting?
    ensures PendingOf(CountNext(t, Receive(r, check, created)).counter, r.kind) != Tally(0, 0)
  {
  }

  /** The last record counted decides. After a record is received, every run that receives no other and in
      which no commit fails, whatever its interleaving, and that ends quiet without a failed insert, is
      drained exactly if the interval had passed when the record was counted. */
  lemma LastRecordDecides(s: State, r: Record, check: real, created: real, steps: seq<Step>)
    requires Inv(s) && Enabled(s, Counting(Receive(r, check, created)))
    requires var t := Next(s, Counting(Receive(r, check, created)));
             && Schedulable(t, steps) && NoReceive(steps) && NoFail(steps)
             && Quiet(Execute(t, steps)) && Execute(t, steps).failedInserts == []
    ensures Drained(Execute(Next(s, Counting(Receive(r, check, created))), steps))
            <==> check - s.counting.lastUpdated >= 30.0
  {
    var t := Next(s, Counting(Receive(r, check, created)));
    NextKeepsInv(s, Counting(Receive(r, check, created)));
    if Due(s.counting, check) {
      SettlingRun(t, steps);
    } else {
      WaitingStays(t, steps);
      ReceivedIsPending(s.counting, r, check, created);
    }
  }

  /** Counts can stay pending: one record counted before the interval has passed leaves the pipeline quiet
      and not drained. */
  lemma CountsCanStayPending(r: Record)
    ensures Schedulable(Init(1, 0.0), OneMore(r, 0.0, 0.0))
    ensures var t := Execute(Init(1, 0.0), OneMore(r, 0.0, 0.0)); Quiet(t) && t.failedInserts == [] && !Drained(t)
  {
    OneMoreArrives(Init(1, 0.0), r, 0.0, 0.0);
    ReceivedIsPending(Init(1, 0.0).counting, r, 0.0, 0.0);
  }
}
