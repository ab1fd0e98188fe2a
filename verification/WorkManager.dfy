/**
 ParallelWork and its WorkManager in the form of the program: the calling thread's loops over the
 shared fields, with Interleave standing wherever the worker threads may run in between.
 Each method is proved against the transition system of WorkProtocol.
 */
module WorkManager {
  import opened WorkProtocol

  class ParallelWork<V> {
    const work: seq<Outcome<V>>
    const count: nat
    var queue: seq<Item>
    var unfinished: int
    var mail: seq<seq<Result<V>>>
    var threads: seq<Worker>
    var results: seq<Result<V>>
    ghost var main: Main
    ghost var log: seq<nat>

    ghost function Now(): State<V>
      reads this
    {
      State(work, queue, unfinished, mail, threads, main, results, log)
    }

    ghost predicate Valid()
      reads this
    {
      Inv(Now()) && |threads| == count
    }

    /** Queues every job before any thread exists. */
    constructor (work: seq<Outcome<V>>, requested: Option<int>)
      ensures Now() == Init(work, EffectiveCount(requested, |work|))
      ensures |threads| == if requested.None? || requested.value > |work| then |work|
                           else if requested.value > 0 then requested.value else 0
      ensures Valid()
    {
      var n := EffectiveCount(requested, |work|);
      this.work := work;
      count := n;
      queue, unfinished, mail, results := [], 0, [], [];
      threads := seq(n, i requires 0 <= i < n => Unstarted);
      main, log := Spawning(0), [];
      new;
      for j := 0 to |work|
        invariant queue == seq(j, i requires 0 <= i < j => Work(i)) && unfinished == j
        invariant mail == seq(j, i requires 0 <= i < j => [])
        invariant threads == Init(work, n).workers && main == Spawning(0) && results == [] && log == []
      {
        Run(j);
      }
      InitInv(work, n);
    }

    /** Gives one job its mailbox and queues it. */
    method Run(job: nat)
      modifies `queue, `unfinished, `mail
      ensures queue == old(queue) + [Work(job)] && unfinished == old(unfinished) + 1 && mail == old(mail) + [[]]
    {
      mail := mail + [[]];
      queue := queue + [Work(job)];
      unfinished := unfinished + 1;
    }

    predicate CanMove(i: nat)
      reads this
      ensures CanMove(i) <==> Enabled(Now(), Pool(i))
    {
      i < |threads| &&
      match threads[i]
      case Unstarted => false
      case Idle => queue != []
      case Holding(item) => item.Sentinel? || (item.job < |mail| && item.job < |work|)
      case Delivered => true
      case Exited => false
    }

    /** One atomic action of worker i: a get, a call with its put, or a task_done. */
    method Turn(i: nat)
      requires Valid() && CanMove(i)
      modifies `queue, `unfinished, `mail, `threads, `log
      ensures Now() == WorkerStep(old(Now()), i)
      ensures Valid() && StepsLeft(Now()) < old(StepsLeft(Now()))
    {
      StepLemma(Now(), Pool(i));
      match threads[i] {
        case Idle =>
          threads := threads[i := Holding(queue[0])];
          queue := queue[1..];
        case Holding(item) =>
          match item {
            case Sentinel =>
              unfinished := unfinished - 1;
              threads := threads[i := Exited];
            case Work(j) =>
              mail := mail[j := mail[j] + [Settle(work[j])]];
              log := log + [j];
              threads := threads[i := Delivered];
          }
        case Delivered =>
          unfinished := unfinished - 1;
          threads := threads[i := Idle];
      }
    }

    /** The workers run for any number of actions, in any order. */
    method Interleave()
      requires Valid()
      modifies `queue, `unfinished, `mail, `threads, `log
      ensures Valid()
      ensures main.Collecting? ==> unchanged(this)
    {
      while *
        invariant Valid()
        invariant main.Collecting? ==> unchanged(this)
        decreases StepsLeft(Now())
      {
        var i: nat := *;
        if main.Collecting? {
          NobodyLeft(i);
        }
        if !CanMove(i) {
          break;
        }
        StepsLeftNonNegative(Now());
        Turn(i);
        StepsLeftNonNegative(Now());
      }
    }

    lemma NobodyLeft(i: nat)
      requires Valid() && main.Collecting?
      ensures !CanMove(i)
    {
      if i < |threads| {
        AllTakenOnceJoined(Now());
      }
    }

    method StartThread(k: nat)
      requires Valid() && main == Spawning(k) && k < count
      modifies `threads, `main
      ensures Valid() && main == Spawning(k + 1)
    {
      ghost var s := Now();
      StepLemma(s, Caller);
      threads := threads[k := Idle];
      main := Spawning(k + 1);
      assert Now() == CallerStep(s);
    }

    method Start()
      requires Valid() && main == Spawning(0)
      modifies this
      ensures Valid() && main == Stopping(0)
    {
      for k := 0 to count
        invariant Valid() && main == Spawning(k)
      {
        StartThread(k);
        Interleave();
      }
      StepLemma(Now(), Caller);
      main := Stopping(0);
    }

    method QueueSentinel(k: nat)
      requires Valid() && main == Stopping(k) && k < count
      modifies `queue, `unfinished, `main
      ensures Valid() && main == Stopping(k + 1)
    {
      ghost var s := Now();
      StepLemma(s, Caller);
      queue := queue + [Sentinel];
      unfinished := unfinished + 1;
      main := Stopping(k + 1);
      assert Now() == CallerStep(s);
    }

    /** One sentinel per worker. */
    method StopThreads()
      requires Valid() && main == Stopping(0)
      modifies this
      ensures Valid() && main == Joining
    {
      for k := 0 to count
        invariant Valid() && main == Stopping(k)
      {
        QueueSentinel(k);
        Interleave();
      }
      StepLemma(Now(), Caller);
      main := Joining;
    }

    lemma SomebodyMoves() returns (i: nat)
      requires Valid() && main == Joining && unfinished != 0
      requires count > 0 || work == []
      ensures i < |threads| && CanMove(i)
      ensures StepsLeft(Now()) >= 0
    {
      StepsLeftNonNegative(Now());
      var t := Progress(Now());
      i := t.index;
    }

    /** Waits until every queued item is acknowledged. */
    method Join()
      requires Valid() && main == Joining
      requires count > 0 || work == []
      modifies this
      ensures Valid() && main == Collecting(0)
    {
      while unfinished != 0
        invariant Valid() && main == Joining
        decreases StepsLeft(Now())
      {
        ghost var w := SomebodyMoves();
        var i: nat :| i < |threads| && CanMove(i);
        Turn(i);
      }
      StepLemma(Now(), Caller);
      main := Collecting(0);
    }

    method ReadMailbox(k: nat)
      requires Valid() && main == Collecting(k) && k < |work|
      requires count > 0 || work == []
      modifies `results, `mail, `main
      ensures Valid() && main == Collecting(k + 1)
    {
      ghost var s := Now();
      MailboxReady(s);
      StepLemma(s, Caller);
      results := results + [mail[k][0]];
      mail := mail[k := mail[k][1..]];
      main := Collecting(k + 1);
      assert Now() == CallerStep(s);
    }

    method Get()
      requires Valid() && main == Stopping(0)
      requires count > 0 || work == []
      modifies this
      ensures Valid() && main == Collecting(|work|)
      ensures results == SequentialMap(work) && IsPermutation(log, |work|)
    {
      StopThreads();
      Join();
      for k := 0 to |work|
        invariant Valid() && main == Collecting(k)
      {
        ReadMailbox(k);
        Interleave();
      }
      FinishedMeans(Now());
    }
  }

  /** The results in submission order, whatever the scheduler did; order is the order of execution. */
  method Do<V>(work: seq<Outcome<V>>, requested: Option<int>) returns (results: seq<Result<V>>, ghost order: seq<nat>)
    requires work == [] || requested.None? || requested.value > 0
    ensures |results| == |work|
    ensures forall i :: 0 <= i < |work| ==>
              results[i] == match work[i] case Returns(v) => Value(v) case Raises(e) => FuncException(e)
    ensures |order| == |work| && forall j: nat :: j < |work| ==> j in order
    ensures results == SequentialMap(work) && IsPermutation(order, |work|)
  {
    var pw := new ParallelWork(work, requested);
    pw.Start();
    pw.Get();
    results, order := pw.results, pw.log;
  }
}
