/**
 The recorder in the form of the program: a writer's turn takes a record off the traffic queue, waits
 for room on the counting queue, puts it there and inserts its row, while all other threads go on.
 */
module Recorder {
  import opened RecordCounting
  import opened CountingThread
  import opened RecordPipeline
  import opened PipelineProgress

  /** Whether a step is one of writer w's own. */
  predicate OwnedBy(step: Step, w: nat) {
    (step.Take? || step.Enqueue? || step.Insert?) && step.writer == w
  }

  /** What writer w did in a run. */
  function Own(steps: seq<Step>, w: nat): seq<Step> {
    if steps == [] then []
    else
      var init, last := Own(steps[..|steps| - 1], w), steps[|steps| - 1];
      if OwnedBy(last, w) then init + [last] else init
  }

  lemma OwnOneMore(steps: seq<Step>, step: Step, w: nat)
    ensures Own(steps + [step], w) == Own(steps, w) + if OwnedBy(step, w) then [step] else []
  {
    assert (steps + [step])[..|steps|] == steps;
  }

  lemma OthersKeep(s: State, step: Step, w: nat)
    requires Enabled(s, step) && !OwnedBy(step, w) && w < |s.writers|
    ensures |Next(s, step).writers| == |s.writers| && Next(s, step).writers[w] == s.writers[w]
  {
  }

  class SqlDbRecorder {
    var traffic: seq<Record>
    var writers: seq<Writer>
    var queue: seq<Record>
    var trafficRecords: seq<Record>
    var faults: seq<Record>
    var lost: seq<Record>
    var counting: Thread
    var emitted: seq<Record>

    function Now(): State
      reads this
    {
      State(traffic, writers, queue, trafficRecords, faults, lost, counting, emitted)
    }

    /** The steps lead from start to the present state. */
    ghost predicate Reached(start: State, steps: seq<Step>)
      reads this
    {
      Schedulable(start, steps) && Execute(start, steps) == Now()
    }

    /** The accounting of the pipeline holds wherever the recorder gets to. */
    lemma ReachedInv(start: State, steps: seq<Step>)
      requires Inv(start) && Reached(start, steps)
      ensures Inv(Now())
    {
      ScheduleKeepsInv(start, steps);
    }

    /** One step of another thread than writer w. */
    method Apply(step: Step, w: nat, ghost start: State, ghost before: seq<Step>)
      requires Enabled(Now(), step) && !OwnedBy(step, w) && Reached(start, before)
      modifies this
      ensures Now() == Next(old(Now()), step)
      ensures Reached(start, before + [step]) && Own(before + [step], w) == Own(before, w)
    {
      AppendStep(start, before, step);
      var s := Next(Now(), step);
      traffic, writers, queue, counting, emitted := s.traffic, s.writers, s.countQueue, s.counting, s.emitted;
      trafficRecords, faults, lost := s.successRows, s.faultRows, s.failedInserts;
      OwnOneMore(before, step, w);
    }

    /** All threads but writer w run for any number of steps. */
    method Interleave(w: nat, ghost start: State, ghost before: seq<Step>) returns (ghost steps: seq<Step>)
      requires Reached(start, before) && w < |writers|
      modifies this
      ensures Reached(start, steps) && Own(steps, w) == Own(before, w)
      ensures |writers| == old(|writers|) && writers[w] == old(writers[w])
    {
      steps := before;
      var budget: nat := *;
      while budget > 0
        invariant Reached(start, steps) && Own(steps, w) == Own(before, w)
        invariant |writers| == old(|writers|) && writers[w] == old(writers[w])
      {
        var step: Step := *;
        if Enabled(Now(), step) && !OwnedBy(step, w) {
          OthersKeep(Now(), step, w);
          Apply(step, w, start, steps);
          steps := steps + [step];
        }
        budget := budget - 1;
      }
    }

    /** Some step the counting thread can take, if there is anything for it to do. */
    method CountingMove() returns (c: CountStep)
      requires queue != []
      ensures Enabled(Now(), Counting(c))
    {
      c := *;
      if !Enabled(Now(), Counting(c)) {
        if counting.phase.Waiting? {
          c := Receive(queue[0], counting.lastUpdated, 0.0);
        } else if counting.phase.todo == {} {
          c := CommitLatencies(0.0, 0.0);
        } else {
          var p :| p in counting.phase.todo;
          c := Commit(p);
        }
      }
    }

    /** A put waits while the bounded queue is full. Once the other writers leave a place to this one, the
        counting thread, flushing or failing as it may, makes room. */
    method AwaitRoom(w: nat, ghost start: State, ghost before: seq<Step>) returns (ghost steps: seq<Step>)
      requires Reached(start, before) && w < |writers|
      modifies this
      ensures Reached(start, steps) && Own(steps, w) == Own(before, w)
      ensures writers == old(writers) && |queue| < 1000
    {
      steps := before;
      while |queue| >= QUEUE_SIZE
        invariant Reached(start, steps) && Own(steps, w) == Own(before, w) && writers == old(writers)
        decreases |queue|, FlushLeft(counting)
      {
        var c := CountingMove();
        Apply(Counting(c), w, start, steps);
        steps := steps + [Counting(c)];
      }
    }

    /** create_record: the outcome decides the table; the commit may fail. */
    method CreateRecord(r: Record, commits: bool) returns (committed: bool)
      modifies `trafficRecords, `faults
      ensures committed == commits
      ensures trafficRecords == old(trafficRecords) + if committed && r.success then [r] else []
      ensures faults == old(faults) + if committed && !r.success then [r] else []
    {
      committed := commits;
      if committed {
        if r.success {
          trafficRecords := trafficRecords + [r];
        } else {
          faults := faults + [r];
        }
      }
    }

    /** The put, once there is room. */
    method Put(w: nat, ghost start: State, ghost before: seq<Step>)
      requires Reached(start, before) && w < |writers| && writers[w].Got? && |queue| < QUEUE_SIZE
      modifies `queue, `writers
      ensures Now() == Next(old(Now()), Enqueue(w)) && Reached(start, before + [Enqueue(w)])
    {
      AppendStep(start, before, Enqueue(w));
      queue := queue + [writers[w].record];
      writers := writers[w := Queued(writers[w].record)];
    }

    /** The insert; an exception is swallowed and the row lost. */
    method InsertRow(w: nat, commits: bool, ghost start: State, ghost before: seq<Step>) returns (committed: bool)
      requires Reached(start, before) && w < |writers| && writers[w].Queued?
      modifies `trafficRecords, `faults, `lost, `writers
      ensures committed == commits
      ensures Now() == Next(old(Now()), Insert(w, committed)) && Reached(start, before + [Insert(w, committed)])
    {
      committed := CreateRecord(writers[w].record, commits);
      if !committed {
        lost := lost + [writers[w].record];
      }
      writers := writers[w := Free];
      AppendStep(start, before, Insert(w, committed));
    }

    /** record_traffic: first the counting queue, then the row. Whatever the other threads do before,
        while and after it waits, writer w itself makes exactly these two steps. */
    method RecordTraffic(w: nat, commits: bool, ghost start: State, ghost before: seq<Step>)
      returns (committed: bool, ghost steps: seq<Step>)
      requires Reached(start, before) && w < |writers| && writers[w].Got?
      modifies this
      ensures Reached(start, steps) && |writers| == old(|writers|) && writers[w].Free?
      ensures committed == commits
      ensures Own(steps, w) == Own(before, w) + [Enqueue(w), Insert(w, committed)]
      ensures var r := old(writers[w].record);
              r in if !committed then lost else if r.success then trafficRecords else faults
    {
      steps := Interleave(w, start, before);
      steps := AwaitRoom(w, start, steps);
      Put(w, start, steps);
      OwnOneMore(steps, Enqueue(w), w);
      steps := steps + [Enqueue(w)];
      steps := Interleave(w, start, steps);
      committed := InsertRow(w, commits, start, steps);
      OwnOneMore(steps, Insert(w, committed), w);
      steps := steps + [Insert(w, committed)];
    }

    /** The get of the writer loop. */
    method Get(w: nat, ghost start: State, ghost before: seq<Step>)
      requires Reached(start, before) && w < |writers| && writers[w].Free? && traffic != []
      modifies `traffic, `writers
      ensures Now() == Next(old(Now()), Take(w)) && Reached(start, before + [Take(w)])
    {
      AppendStep(start, before, Take(w));
      writers, traffic := writers[w := Got(traffic[0])], traffic[1..];
    }

    /** A record is taken and recorded. */
    method TakeAndRecord(w: nat, commits: bool, ghost start: State, ghost before: seq<Step>)
      returns (committed: bool, ghost steps: seq<Step>)
      requires Reached(start, before) && w < |writers| && writers[w].Free? && traffic != []
      modifies this
      ensures Reached(start, steps) && |writers| == old(|writers|) && writers[w].Free?
      ensures committed == commits
      ensures Own(steps, w) == Own(before, w) + [Take(w), Enqueue(w), Insert(w, committed)]
    {
      Get(w, start, before);
      OwnOneMore(before, Take(w), w);
      committed, steps := RecordTraffic(w, commits, start, before + [Take(w)]);
    }

    /** One turn of the writer loop. With nothing on the traffic queue the get goes on waiting. */
    method ProcessNext(w: nat, commits: bool, ghost start: State, ghost before: seq<Step>)
      returns (worked: bool, committed: bool, ghost steps: seq<Step>)
      requires Reached(start, before) && w < |writers| && writers[w].Free?
      modifies this
      ensures Reached(start, steps) && |writers| == old(|writers|) && writers[w].Free?
      ensures worked ==> committed == commits
      ensures Own(steps, w) == Own(before, w) + if worked then [Take(w), Enqueue(w), Insert(w, committed)] else []
      ensures Inv(start) ==> Inv(Now())
    {
      steps := Interleave(w, start, before);
      worked, committed := traffic != [], false;
      if worked {
        committed, steps := TakeAndRecord(w, commits, start, steps);
      }
      if Inv(start) {
        ReachedInv(start, steps);
      }
    }
  }
}
