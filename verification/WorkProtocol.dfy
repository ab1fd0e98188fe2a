/**
 The protocol by which ParallelWork drains one FIFO queue with several worker threads, as a
 transition system whose steps belong to the calling thread or to one of the workers.
 Every interleaving is a schedule: a sequence of thread identities.
 */
module WorkProtocol {

  /** What calling a queued function does. */
  datatype Outcome<V> = Returns(value: V) | Raises(error: string)

  /** What the worker puts in the function's mailbox. */
  datatype Result<V> = Value(value: V) | FuncException(error: string)

  datatype Option<T> = None | Some(value: T)

  datatype Item = Work(job: nat) | Sentinel

  /** Delivered: the result is in its mailbox and task_done is still to come. */
  datatype Worker = Unstarted | Idle | Holding(item: Item) | Delivered | Exited

  /** Where the calling thread stands: starting threads, queueing sentinels, joining, reading mailboxes. */
  datatype Main = Spawning(started: nat) | Stopping(queued: nat) | Joining | Collecting(read: nat)

  datatype Thread = Caller | Pool(index: nat)

  /** log is a history variable: the jobs in the order in which they were executed. */
  datatype State<V> = State(
    work: seq<Outcome<V>>,
    queue: seq<Item>,
    unfinished: int,
    mail: seq<seq<Result<V>>>,
    workers: seq<Worker>,
    main: Main,
    results: seq<Result<V>>,
    log: seq<nat>)

  function Settle<V>(o: Outcome<V>): Result<V> {
    match o
    case Returns(v) => Value(v)
    case Raises(e) => FuncException(e)
  }

  /** The sequential reading of the job list: one settled result per job, in submission order. */
  function SequentialMap<V>(work: seq<Outcome<V>>): seq<Result<V>> {
    seq(|work|, i requires 0 <= i < |work| => Settle(work[i]))
  }

  /** The worker count ParallelWork settles on; a negative count starts no thread at all. */
  function EffectiveCount(requested: Option<int>, jobs: nat): nat {
    if requested.None? || requested.value > jobs then jobs
    else if requested.value < 0 then 0
    else requested.value
  }

  /** The state just after every job was queued and before the first thread is started. */
  function Init<V>(work: seq<Outcome<V>>, count: nat): State<V> {
    State(work,
          seq(|work|, i requires 0 <= i < |work| => Work(i)),
          |work|,
          seq(|work|, i requires 0 <= i < |work| => []),
          seq(count, i requires 0 <= i < count => Unstarted),
          Spawning(0), [], [])
  }

  predicate Enabled<V>(s: State<V>, t: Thread) {
    match t
    case Caller =>
      (match s.main
       case Spawning(_) => true
       case Stopping(_) => true
       case Joining => s.unfinished == 0
       case Collecting(k) => k < |s.mail| && s.mail[k] != [])
    case Pool(i) =>
      i < |s.workers| &&
      match s.workers[i]
      case Unstarted => false
      case Idle => s.queue != []
      case Holding(item) => item.Sentinel? || (item.job < |s.mail| && item.job < |s.work|)
      case Delivered => true
      case Exited => false
  }

  function CallerStep<V>(s: State<V>): State<V>
    requires Enabled(s, Caller)
  {
    match s.main
    case Spawning(k) =>
      if k < |s.workers| then s.(workers := s.workers[k := Idle], main := Spawning(k + 1))
      else s.(main := Stopping(0))
    case Stopping(k) =>
      if k < |s.workers| then s.(queue := s.queue + [Sentinel], unfinished := s.unfinished + 1, main := Stopping(k + 1))
      else s.(main := Joining)
    case Joining => s.(main := Collecting(0))
    case Collecting(k) =>
      s.(results := s.results + [s.mail[k][0]], mail := s.mail[k := s.mail[k][1..]], main := Collecting(k + 1))
  }

  function WorkerStep<V>(s: State<V>, i: nat): State<V>
    requires Enabled(s, Pool(i))
  {
    match s.workers[i]
    case Idle => s.(queue := s.queue[1..], workers := s.workers[i := Holding(s.queue[0])])
    case Holding(Work(j)) =>
      s.(mail := s.mail[j := s.mail[j] + [Settle(s.work[j])]],
         workers := s.workers[i := Delivered], log := s.log + [j])
    case Holding(Sentinel) => s.(unfinished := s.unfinished - 1, workers := s.workers[i := Exited])
    case Delivered => s.(unfinished := s.unfinished - 1, workers := s.workers[i := Idle])
  }

  function Next<V>(s: State<V>, t: Thread): State<V>
    requires Enabled(s, t)
  {
    match t
    case Caller => CallerStep(s)
    case Pool(i) => WorkerStep(s, i)
  }

  predicate Finished<V>(s: State<V>) {
    s.main == Collecting(|s.work|)
  }

  predicate Schedulable<V>(s: State<V>, schedule: seq<Thread>)
    decreases |schedule|
  {
    schedule == [] || (Enabled(s, schedule[0]) && Schedulable(Next(s, schedule[0]), schedule[1..]))
  }

  function Execute<V>(s: State<V>, schedule: seq<Thread>): State<V>
    requires Schedulable(s, schedule)
    decreases |schedule|
  {
    if schedule == [] then s else Execute(Next(s, schedule[0]), schedule[1..])
  }

  ghost predicate Stuck<V>(s: State<V>) {
    forall t: Thread :: !Enabled(s, t)
  }

  // ----- sums over the worker pool -----

  function Sum(ws: seq<Worker>, f: Worker -> int): int {
    if ws == [] then 0 else f(ws[0]) + Sum(ws[1..], f)
  }

  lemma {:induction false} SumUpdate(ws: seq<Worker>, f: Worker -> int, i: nat, w: Worker)
    requires i < |ws|
    ensures Sum(ws[i := w], f) == Sum(ws, f) - f(ws[i]) + f(w)
  {
    if i == 0 {
      assert ws[i := w][1..] == ws[1..];
    } else {
      SumUpdate(ws[1..], f, i - 1, w);
      assert ws[i := w][1..] == ws[1..][i - 1 := w];
    }
  }

  lemma {:induction false} SumConstant(ws: seq<Worker>, f: Worker -> int, c: int)
    requires forall i :: 0 <= i < |ws| ==> f(ws[i]) == c
    ensures Sum(ws, f) == c * |ws|
  {
    if ws != [] {
      SumConstant(ws[1..], f, c);
    }
  }

  lemma {:induction false} SumBounds(ws: seq<Worker>, f: Worker -> int)
    requires forall w: Worker :: 0 <= f(w) <= 3
    ensures 0 <= Sum(ws, f)
    ensures forall i :: 0 <= i < |ws| ==> f(ws[i]) <= Sum(ws, f)
  {
    if ws != [] {
      SumBounds(ws[1..], f);
      forall i | 0 <= i < |ws| ensures f(ws[i]) <= Sum(ws, f) {
        if i > 0 {
          assert ws[i] == ws[1..][i - 1];
        }
      }
    }
  }

  /** Taken from the queue and not yet acknowledged. */
  function InFlight(w: Worker): int { if w.Holding? || w.Delivered? then 1 else 0 }

  /** Workers that took a sentinel. */
  function Retired(w: Worker): int { if w.Exited? || w == Holding(Sentinel) then 1 else 0 }

  /** Steps a worker still owes for what it holds. */
  function Owed(w: Worker): int {
    if w.Holding? && w.item.Work? then 2 else if w.Holding? || w.Delivered? then 1 else 0
  }

  // ----- the invariant -----

  function SentinelsQueued<V>(s: State<V>): nat {
    match s.main
    case Spawning(_) => 0
    case Stopping(k) => k
    case _ => |s.workers|
  }

  /** Items that have left the queue. */
  function Taken<V>(s: State<V>): int { |s.work| + SentinelsQueued(s) - |s.queue| }

  function JobsTaken<V>(s: State<V>): int { if Taken(s) < |s.work| then Taken(s) else |s.work| }

  function SentinelsTaken<V>(s: State<V>): int { Taken(s) - JobsTaken(s) }

  /** The k-th item ever queued: the jobs in submission order, then only sentinels. */
  function ItemAt(jobs: nat, k: nat): Item { if k < jobs then Work(k) else Sentinel }

  ghost predicate Held<V>(s: State<V>, j: nat) { exists i :: 0 <= i < |s.workers| && s.workers[i] == Holding(Work(j)) }

  /** FIFO order survives: the queue is a suffix of the submission order, sentinels behind every job. */
  ghost predicate QueueInv<V>(s: State<V>) {
    && 0 <= Taken(s)
    && forall k :: 0 <= k < |s.queue| ==> s.queue[k] == ItemAt(|s.work|, Taken(s) + k)
  }

  /** Every taken job is held by exactly one worker or has been executed exactly once. */
  ghost predicate JobInv<V>(s: State<V>) {
    && (forall i: nat, j: nat :: i < |s.workers| && s.workers[i] == Holding(Work(j)) ==>
          j < JobsTaken(s) && j !in s.log)
    && (forall i, k :: 0 <= i < k < |s.workers| && s.workers[i].Holding? && s.workers[i].item.Work? ==>
          s.workers[i] != s.workers[k])
    && (forall j: nat :: j < JobsTaken(s) ==> j in s.log || Held(s, j))
    && (forall j :: j in s.log ==> j < JobsTaken(s))
    && (forall a, b :: 0 <= a < b < |s.log| ==> s.log[a] != s.log[b])
  }

  /** A mailbox holds its job's settled result from the execution until the caller reads it. */
  ghost predicate MailInv<V>(s: State<V>) {
    && |s.mail| == |s.work|
    && |s.results| == (if s.main.Collecting? then s.main.read else 0)
    && |s.results| <= |s.work|
    && (forall j :: 0 <= j < |s.work| ==>
          s.mail[j] == if j in s.log && j >= |s.results| then [Settle(s.work[j])] else [])
    && (forall j :: 0 <= j < |s.results| ==> s.results[j] == Settle(s.work[j]))
  }

  ghost predicate CountInv<V>(s: State<V>) {
    && s.unfinished == |s.queue| + Sum(s.workers, InFlight)
    && Sum(s.workers, Retired) == SentinelsTaken(s)
  }

  ghost predicate MainInv<V>(s: State<V>) {
    match s.main
    case Spawning(k) => k <= |s.workers| && forall i :: 0 <= i < |s.workers| ==> (s.workers[i].Unstarted? <==> i >= k)
    case Stopping(k) => k <= |s.workers| && forall i :: 0 <= i < |s.workers| ==> !s.workers[i].Unstarted?
    case Joining => forall i :: 0 <= i < |s.workers| ==> !s.workers[i].Unstarted?
    case Collecting(k) =>
      && s.unfinished == 0 && k <= |s.work|
      && forall i :: 0 <= i < |s.workers| ==> !s.workers[i].Unstarted?
  }

  ghost predicate Inv<V>(s: State<V>) {
    QueueInv(s) && JobInv(s) && MailInv(s) && CountInv(s) && MainInv(s)
  }

  lemma InitInv<V>(work: seq<Outcome<V>>, count: nat)
    ensures Inv(Init(work, count))
  {
    var s := Init(work, count);
    SumConstant(s.workers, InFlight, 0);
    SumConstant(s.workers, Retired, 0);
  }

  lemma CallerKeepsQueue<V>(s: State<V>)
    requires Inv(s) && Enabled(s, Caller)
    ensures QueueInv(CallerStep(s)) && MainInv(CallerStep(s)) && Taken(CallerStep(s)) == Taken(s)
  {
  }

  lemma CallerKeepsHeld<V>(s: State<V>, j: nat)
    requires MainInv(s) && Enabled(s, Caller) && Held(s, j)
    ensures Held(CallerStep(s), j)
  {
    var i :| 0 <= i < |s.workers| && s.workers[i] == Holding(Work(j));
    assert CallerStep(s).workers[i] == Holding(Work(j));
  }

  lemma CallerKeepsJobs<V>(s: State<V>)
    requires Inv(s) && Enabled(s, Caller)
    ensures JobInv(CallerStep(s))
  {
    var s' := CallerStep(s);
    CallerKeepsQueue(s);
    assert JobsTaken(s') == JobsTaken(s) && s'.log == s.log;
    forall j: nat | j < JobsTaken(s') ensures j in s'.log || Held(s', j) {
      if j !in s.log {
        CallerKeepsHeld(s, j);
      }
    }
  }

  lemma CallerKeepsMail<V>(s: State<V>)
    requires Inv(s) && Enabled(s, Caller)
    ensures MailInv(CallerStep(s))
  {
  }

  lemma CallerKeepsCount<V>(s: State<V>)
    requires Inv(s) && Enabled(s, Caller)
    ensures CountInv(CallerStep(s))
  {
    CallerKeepsQueue(s);
    if s.main.Spawning? && s.main.started < |s.workers| {
      SumUpdate(s.workers, InFlight, s.main.started, Idle);
      SumUpdate(s.workers, Retired, s.main.started, Idle);
    }
  }

  lemma WorkerKeepsQueue<V>(s: State<V>, i: nat)
    requires Inv(s) && Enabled(s, Pool(i))
    ensures QueueInv(WorkerStep(s, i))
    ensures Taken(WorkerStep(s, i)) == Taken(s) + (if s.workers[i].Idle? then 1 else 0)
    ensures s.workers[i].Idle? ==> s.queue[0] == ItemAt(|s.work|, Taken(s))
  {
  }

  lemma WorkerKeepsMain<V>(s: State<V>, i: nat)
    requires Inv(s) && Enabled(s, Pool(i))
    ensures MainInv(WorkerStep(s, i))
  {
    SumBounds(s.workers, InFlight);
  }

  lemma WorkerKeepsCount<V>(s: State<V>, i: nat)
    requires Inv(s) && Enabled(s, Pool(i))
    ensures CountInv(WorkerStep(s, i))
  {
    var s' := WorkerStep(s, i);
    WorkerKeepsQueue(s, i);
    SumUpdate(s.workers, InFlight, i, s'.workers[i]);
    SumUpdate(s.workers, Retired, i, s'.workers[i]);
  }

  lemma WorkerKeepsMail<V>(s: State<V>, i: nat)
    requires Inv(s) && Enabled(s, Pool(i))
    ensures MailInv(WorkerStep(s, i))
  {
    SumBounds(s.workers, InFlight);
  }

  lemma WorkerKeepsHeld<V>(s: State<V>, i: nat, j: nat)
    requires Enabled(s, Pool(i)) && Held(s, j) && s.workers[i] != Holding(Work(j))
    ensures Held(WorkerStep(s, i), j)
  {
    var k :| 0 <= k < |s.workers| && s.workers[k] == Holding(Work(j));
    assert WorkerStep(s, i).workers[k] == Holding(Work(j));
  }

  /** Taking an item: the taker is the only holder of the job at the head of the queue. */
  lemma TakeKeepsJobs<V>(s: State<V>, i: nat)
    requires Inv(s) && Enabled(s, Pool(i)) && s.workers[i].Idle?
    ensures JobInv(WorkerStep(s, i))
  {
    var s' := WorkerStep(s, i);
    WorkerKeepsQueue(s, i);
    var item := ItemAt(|s.work|, Taken(s));
    assert s'.workers == s.workers[i := Holding(item)] && s'.log == s.log;
    assert JobsTaken(s') == JobsTaken(s) + if item.Work? then 1 else 0;
    assert item.Work? ==> item.job == JobsTaken(s);
    forall j: nat | j < JobsTaken(s') ensures j in s'.log || Held(s', j) {
      if j < JobsTaken(s) {
        if j !in s.log {
          WorkerKeepsHeld(s, i, j);
        }
      } else {
        assert s'.workers[i] == Holding(Work(j));
      }
    }
  }

  /** Executing a job, or acknowledging one. */
  lemma SettleKeepsJobs<V>(s: State<V>, i: nat)
    requires Inv(s) && Enabled(s, Pool(i)) && !s.workers[i].Idle?
    ensures JobInv(WorkerStep(s, i))
  {
    var s' := WorkerStep(s, i);
    WorkerKeepsQueue(s, i);
    assert JobsTaken(s') == JobsTaken(s);
    forall j: nat | j < JobsTaken(s') ensures j in s'.log || Held(s', j) {
      SettledOrHeld(s, i, j);
    }
  }

  lemma SettledOrHeld<V>(s: State<V>, i: nat, j: nat)
    requires Inv(s) && Enabled(s, Pool(i)) && !s.workers[i].Idle? && j < JobsTaken(s)
    ensures j in WorkerStep(s, i).log || Held(WorkerStep(s, i), j)
  {
    if j !in s.log && s.workers[i] != Holding(Work(j)) {
      WorkerKeepsHeld(s, i, j);
    }
  }

  lemma NextKeepsInv<V>(s: State<V>, t: Thread)
    requires Inv(s) && Enabled(s, t)
    ensures Inv(Next(s, t))
  {
    match t
    case Caller =>
      CallerKeepsQueue(s); CallerKeepsJobs(s); CallerKeepsMail(s); CallerKeepsCount(s);
    case Pool(i) =>
      WorkerKeepsQueue(s, i); WorkerKeepsMain(s, i); WorkerKeepsCount(s, i); WorkerKeepsMail(s, i); 
      if s.workers[i].Idle? { TakeKeepsJobs(s, i); } else { SettleKeepsJobs(s, i); }
  }

  // ----- termination and progress -----

  function CallerOwes<V>(s: State<V>): int {
    match s.main
    case Spawning(k) => 2 * |s.workers| - k + 3 + |s.work|
    case Stopping(k) => |s.workers| - k + 2 + |s.work|
    case Joining => 1 + |s.work|
    case Collecting(k) => |s.work| - k
  }

  /** Steps still to be taken by all threads together. */
  function StepsLeft<V>(s: State<V>): int {
    CallerOwes(s) + 3 * (|s.work| - JobsTaken(s)) + 2 * (|s.workers| - SentinelsTaken(s)) + Sum(s.workers, Owed)
  }

  function TotalSteps(jobs: nat, count: nat): nat { 4 * jobs + 4 * count + 3 }

  lemma InitStepsLeft<V>(work: seq<Outcome<V>>, count: nat)
    ensures StepsLeft(Init(work, count)) == TotalSteps(|work|, count)
  {
    SumConstant(Init(work, count).workers, Owed, 0);
  }

  lemma StepsLeftNonNegative<V>(s: State<V>)
    requires Inv(s)
    ensures StepsLeft(s) >= 0
  {
    SumBounds(s.workers, Owed);
  }

  lemma CallerCostsOne<V>(s: State<V>)
    requires Inv(s) && Enabled(s, Caller)
    ensures StepsLeft(CallerStep(s)) == StepsLeft(s) - 1
  {
    CallerKeepsQueue(s);
    if s.main.Spawning? && s.main.started < |s.workers| {
      SumUpdate(s.workers, Owed, s.main.started, Idle);
    }
  }

  lemma WorkerCostsOne<V>(s: State<V>, i: nat)
    requires Inv(s) && Enabled(s, Pool(i))
    ensures StepsLeft(WorkerStep(s, i)) == StepsLeft(s) - 1
  {
    var s' := WorkerStep(s, i);
    WorkerKeepsQueue(s, i);
    SumUpdate(s.workers, Owed, i, s'.workers[i]);
    assert CallerOwes(s') == CallerOwes(s);
    if s.workers[i].Idle? {
      assert s'.workers[i] == Holding(ItemAt(|s.work|, Taken(s)));
    } else {
      assert JobsTaken(s') == JobsTaken(s) && SentinelsTaken(s') == SentinelsTaken(s);
    }
  }

  /** Everything one step does to the invariant and to the work still owed. */
  lemma StepLemma<V>(s: State<V>, t: Thread)
    requires Inv(s) && Enabled(s, t)
    ensures Inv(Next(s, t))
    ensures 0 <= StepsLeft(Next(s, t)) == StepsLeft(s) - 1
    ensures Next(s, t).work == s.work && |Next(s, t).workers| == |s.workers|
  {
    NextKeepsInv(s, t);
    StepsLeftNonNegative(Next(s, t));
    match t
    case Caller => CallerCostsOne(s);
    case Pool(i) => WorkerCostsOne(s, i);
  }

  /** A worker that is neither idle nor gone can always move. */
  lemma BusyWorkerEnabled<V>(s: State<V>, i: nat)
    requires Inv(s) && i < |s.workers| && InFlight(s.workers[i]) == 1
    ensures Enabled(s, Pool(i))
  {
  }

  lemma {:induction false} FindNonZero(ws: seq<Worker>, f: Worker -> int) returns (i: nat)
    requires Sum(ws, f) != 0
    ensures i < |ws| && f(ws[i]) != 0
  {
    if f(ws[0]) != 0 { i := 0; } else { i := FindNonZero(ws[1..], f); i := i + 1; }
  }

  lemma {:induction false} FindZero(ws: seq<Worker>, f: Worker -> int) returns (i: nat)
    requires Sum(ws, f) < |ws|
    requires forall w: Worker :: 0 <= f(w)
    ensures i < |ws| && f(ws[i]) == 0
  {
    if f(ws[0]) == 0 { i := 0; } else { i := FindZero(ws[1..], f); i := i + 1; }
  }

  lemma Progress<V>(s: State<V>) returns (t: Thread)
    requires Inv(s) && !Finished(s)
    requires |s.workers| > 0 || s.work == []
    ensures Enabled(s, t)
  {
    t := Caller;
    if s.main.Joining? && s.unfinished != 0 {
      if Sum(s.workers, InFlight) != 0 {
        var i := FindNonZero(s.workers, InFlight);
        BusyWorkerEnabled(s, i);
        t := Pool(i);
      } else {
        SumBounds(s.workers, InFlight);
        var i := FindZero(s.workers, Retired);
        t := Pool(i);
      }
    } else if s.main.Collecting? {
      MailboxReady(s);
    }
  }

  lemma AllTakenOnceJoined<V>(s: State<V>)
    requires Inv(s) && s.unfinished == 0 && (s.main.Joining? || s.main.Collecting?)
    requires |s.workers| > 0 || s.work == []
    ensures JobsTaken(s) == |s.work|
    ensures forall j :: 0 <= j < |s.work| ==> j in s.log
    ensures forall i :: 0 <= i < |s.workers| ==> s.workers[i].Exited?
  {
    SumBounds(s.workers, InFlight);
    forall i | 0 <= i < |s.workers| ensures s.workers[i].Exited? {
      if !s.workers[i].Exited? {
        NotAllRetired(s.workers, i);
      }
    }
  }

  lemma {:induction false} NotAllRetired(ws: seq<Worker>, i: nat)
    requires i < |ws| && Retired(ws[i]) == 0
    ensures Sum(ws, Retired) < |ws|
  {
    AtMostAll(ws[1..]);
    if i > 0 { NotAllRetired(ws[1..], i - 1); }
  }

  lemma {:induction false} AtMostAll(ws: seq<Worker>)
    ensures Sum(ws, Retired) <= |ws|
  {
    if ws != [] { AtMostAll(ws[1..]); }
  }

  lemma MailboxReady<V>(s: State<V>)
    requires Inv(s) && s.main.Collecting? && s.main.read < |s.work|
    requires |s.workers| > 0 || s.work == []
    ensures s.mail[s.main.read] != []
  {
    AllTakenOnceJoined(s);
  }

  // ----- main theorems -----

  ghost predicate IsPermutation(log: seq<nat>, n: nat) {
    && |log| == n
    && (forall j: nat :: j in log <==> j < n)
    && (forall a, b :: 0 <= a < b < |log| ==> log[a] != log[b])
  }

  function Below(n: nat): (r: set<nat>)
    ensures |r| == n && forall j: nat :: j in r <==> j < n
  {
    if n == 0 then {} else Below(n - 1) + {n - 1}
  }

  function Elements(log: seq<nat>): (r: set<nat>)
    ensures forall j: nat :: j in r <==> j in log
    ensures (forall a, b :: 0 <= a < b < |log| ==> log[a] != log[b]) ==> |r| == |log|
  {
    if log == [] then {} else Elements(log[1..]) + {log[0]}
  }

  lemma DistinctLength(log: seq<nat>, n: nat)
    requires forall j: nat :: j in log <==> j < n
    requires forall a, b :: 0 <= a < b < |log| ==> log[a] != log[b]
    ensures |log| == n
  {
    assert Elements(log) == Below(n);
  }

  /** Safety over whole runs: the invariant and the exact step count hold after every schedule. */
  lemma {:induction false} ScheduleKeepsInv<V>(s: State<V>, schedule: seq<Thread>)
    requires Inv(s) && Schedulable(s, schedule)
    ensures Inv(Execute(s, schedule))
    ensures StepsLeft(Execute(s, schedule)) == StepsLeft(s) - |schedule|
    ensures Execute(s, schedule).work == s.work && |Execute(s, schedule).workers| == |s.workers|
    decreases |schedule|
  {
    if schedule != [] {
      StepLemma(s, schedule[0]);
      ScheduleKeepsInv(Next(s, schedule[0]), schedule[1..]);
    }
  }

  /** What the caller holds in its hands when it has read the last mailbox. */
  lemma FinishedMeans<V>(s: State<V>)
    requires Inv(s) && Finished(s)
    requires |s.workers| > 0 || s.work == []
    ensures s.results == SequentialMap(s.work)
    ensures IsPermutation(s.log, |s.work|)
    ensures forall i :: 0 <= i < |s.workers| ==> s.workers[i].Exited?
    ensures s.queue == [] && StepsLeft(s) == 0
  {
    AllTakenOnceJoined(s);
    assert forall j: nat :: j in s.log <==> j < |s.work|;
    DistinctLength(s.log, |s.work|);
    SumBounds(s.workers, InFlight);
    SumConstant(s.workers, Owed, 0);
  }

  lemma StuckIffFinished<V>(s: State<V>)
    requires Inv(s) && (|s.workers| > 0 || s.work == [])
    ensures Stuck(s) <==> Finished(s)
    ensures Stuck(s) <==> StepsLeft(s) == 0
    ensures StepsLeft(s) >= 0
  {
    StepsLeftNonNegative(s);
    if Finished(s) {
      FinishedMeans(s);
      forall t: Thread ensures !Enabled(s, t) {
        if Enabled(s, t) {
          StepLemma(s, t);
        }
      }
    } else {
      var t := Progress(s);
      StepLemma(s, t);
    }
  }

  /** With at least one worker no run is longer than TotalSteps, a run stops exactly when it has
      that length, and then the results are those of the sequential map, each job having run once. */
  lemma ParallelWorkIsSequentialMap<V>(work: seq<Outcome<V>>, requested: Option<int>, schedule: seq<Thread>)
    requires work == [] || EffectiveCount(requested, |work|) > 0
    requires Schedulable(Init(work, EffectiveCount(requested, |work|)), schedule)
    ensures var count := EffectiveCount(requested, |work|);
            var s := Execute(Init(work, count), schedule);
            && |schedule| <= 4 * |work| + 4 * count + 3
            && (Stuck(s) <==> |schedule| == 4 * |work| + 4 * count + 3)
            && (Stuck(s) <==> Finished(s))
            && (Finished(s) ==>
                  && s.results == SequentialMap(work) && IsPermutation(s.log, |work|)
                  && |s.results| == |work|
                  && forall i :: 0 <= i < |work| ==>
                       s.results[i] == match work[i] case Returns(v) => Value(v) case Raises(e) => FuncException(e))
  {
    var count := EffectiveCount(requested, |work|);
    InitInv(work, count);
    InitStepsLeft(work, count);
    ScheduleKeepsInv(Init(work, count), schedule);
    var s := Execute(Init(work, count), schedule);
    StuckIffFinished(s);
    if Finished(s) {
      FinishedMeans(s);
    }
  }

  /** Any reachable state can be driven to completion. */
  lemma {:induction false} CanComplete<V>(s: State<V>) returns (schedule: seq<Thread>)
    requires Inv(s) && (|s.workers| > 0 || s.work == [])
    ensures Schedulable(s, schedule) && Finished(Execute(s, schedule))
    decreases StepsLeft(s)
  {
    if Finished(s) {
      schedule := [];
    } else {
      var t := Progress(s);
      StepLemma(s, t);
      var rest := CanComplete(Next(s, t));
      schedule := [t] + rest;
    }
  }

  /** Without workers the join waits for ever on the queued jobs. */
  lemma {:induction false} NoWorkersNoJoin<V>(s: State<V>, schedule: seq<Thread>)
    requires s.workers == [] && s.unfinished > 0 && !s.main.Collecting?
    requires Schedulable(s, schedule)
    ensures !Execute(s, schedule).main.Collecting?
    decreases |schedule|
  {
    if schedule != [] {
      NoWorkersNoJoin(Next(s, schedule[0]), schedule[1..]);
    }
  }

  ghost predicate CanFinish<V>(s: State<V>) {
    exists schedule :: Schedulable(s, schedule) && Finished(Execute(s, schedule))
  }

  /** Do can return exactly when there is nothing to do or the requested count allows a worker. */
  lemma DoReturnsIff<V>(work: seq<Outcome<V>>, requested: Option<int>)
    ensures CanFinish(Init(work, EffectiveCount(requested, |work|)))
            <==> (work == [] || requested.None? || requested.value > 0)
  {
    var count := EffectiveCount(requested, |work|);
    var s := Init(work, count);
    InitInv(work, count);
    if work == [] || count > 0 {
      var schedule := CanComplete(s);
      assert Schedulable(s, schedule) && Finished(Execute(s, schedule));
    } else {
      assert s.workers == [] && s.unfinished > 0;
      forall schedule | Schedulable(s, schedule) ensures !Finished(Execute(s, schedule)) {
        NoWorkersNoJoin(s, schedule);
      }
    }
  }
}
