/**
 The pushes of a controller call run by the parallel work protocol: what the calling thread is told and
 what the fleet holds, whatever the worker threads do and whichever pushes are lost.
 */
module ParallelPushes {
  import opened TrafficElements
  import opened ConnectedState
  import opened RuleCompiler
  import opened Deployment
  import W = WorkProtocol

  /** The endpoints in the order in which the workers executed their pushes. */
  function Reordered(eps: seq<Endpoint>, log: seq<nat>): seq<Endpoint>
    requires forall i :: 0 <= i < |log| ==> log[i] < |eps|
  {
    seq(|log|, i requires 0 <= i < |log| => eps[log[i]])
  }

  /** The pushes that take effect, in the order given. */
  function Arriving(eps: seq<Endpoint>, reached: set<Endpoint>): seq<Endpoint> {
    if eps == [] then []
    else if eps[0] in reached then [eps[0]] + Arriving(eps[1..], reached)
    else Arriving(eps[1..], reached)
  }

  lemma {:induction false} ArrivingElements(eps: seq<Endpoint>, reached: set<Endpoint>)
    ensures forall e :: e in Arriving(eps, reached) <==> e in eps && e in reached
    ensures Distinct(eps) ==> Distinct(Arriving(eps, reached))
  {
    if eps != [] {
      ArrivingElements(eps[1..], reached);
      assert forall e :: e in eps <==> e == eps[0] || e in eps[1..];
      assert Distinct(eps) ==> Distinct(eps[1..]) && eps[0] !in eps[1..];
    }
  }

  lemma ReorderedCovers(eps: seq<Endpoint>, log: seq<nat>)
    requires Distinct(eps) && W.IsPermutation(log, |eps|)
    ensures forall i :: 0 <= i < |log| ==> log[i] < |eps|
    ensures Distinct(Reordered(eps, log))
    ensures forall e :: e in Reordered(eps, log) <==> e in eps
  {
    forall i | 0 <= i < |log| ensures log[i] < |eps| { assert log[i] in log; }
    var order := Reordered(eps, log);
    forall e | e in eps ensures e in order {
      var j :| 0 <= j < |eps| && eps[j] == e;
      assert j in log;
      var i :| 0 <= i < |log| && log[i] == j;
      assert order[i] == e;
    }
    forall i, j | 0 <= i < j < |order| ensures order[i] != order[j] {
      assert log[i] in log && log[j] in log;
    }
  }

  /** Pushing in the workers' order leaves what pushing in list order leaves. */
  ghost predicate SamePushes(f: Fleet, kind: Kind, recs: Records, eps: seq<Endpoint>, reached: set<Endpoint>,
                             log: seq<nat>) {
    && (forall i :: 0 <= i < |log| ==> log[i] < |eps|)
    && var a, b := Arriving(Reordered(eps, log), reached), Arriving(eps, reached);
       && (forall e :: e in a || e in b ==> e in recs)
       && PushAll(f, kind, recs, a) == PushAll(f, kind, recs, b)
  }

  lemma AnyOrderSamePushes(f: Fleet, kind: Kind, recs: Records, eps: seq<Endpoint>, reached: set<Endpoint>,
                           log: seq<nat>)
    requires Distinct(eps) && (forall e :: e in eps ==> e in recs)
    requires W.IsPermutation(log, |eps|)
    ensures SamePushes(f, kind, recs, eps, reached, log)
  {
    ReorderedCovers(eps, log);
    ArrivingElements(Reordered(eps, log), reached);
    ArrivingElements(eps, reached);
    PushOrderIrrelevant(f, kind, recs, Arriving(Reordered(eps, log), reached), Arriving(eps, reached));
  }

  /** What each push returns to its worker: an exception is turned into False, and True is returned only
      if the request took effect. */
  ghost predicate Honest(eps: seq<Endpoint>, reached: set<Endpoint>, answers: seq<W.Outcome<bool>>) {
    && |answers| == |eps|
    && forall i :: 0 <= i < |eps| ==> answers[i].Returns? && (answers[i].value ==> eps[i] in reached)
  }

  /** Python's truth of a result: an exception object counts as true. */
  predicate Truthy(r: W.Result<bool>) { r.FuncException? || r.value }

  /** __execute_work: all(resp) */
  ghost predicate Succeeded(results: seq<W.Result<bool>>) {
    forall i :: 0 <= i < |results| ==> Truthy(results[i])
  }

  function Workers(n: nat): nat { W.EffectiveCount(W.Some(if n < 200 then n else 200), n) }

  /** The state in which the protocol ends up under a schedule. */
  ghost function Outcome(answers: seq<W.Outcome<bool>>, schedule: seq<W.Thread>): W.State<bool>
    requires W.Schedulable(W.Init(answers, Workers(|answers|)), schedule)
  {
    W.Execute(W.Init(answers, Workers(|answers|)), schedule)
  }

  /** The call that the protocol makes of a controller call: the pushes in execution order, without the
      lost ones. */
  function Performing(kind: Kind, rules: seq<Rule>, eps: seq<Endpoint>, reached: set<Endpoint>, log: seq<nat>): Call
    requires forall i :: 0 <= i < |log| ==> log[i] < |eps|
  {
    Call(kind, rules, Arriving(Reordered(eps, log), reached))
  }

  /** Hence a push that raised would pass for a success. */
  lemma ExceptionPasses(e: string)
    ensures Succeeded([W.FuncException(e)]) && !Succeeded([W.Value(false)])
  {
    assert !Truthy([W.Value(false)][0]);
  }

  lemma SucceededIff(eps: seq<Endpoint>, reached: set<Endpoint>, answers: seq<W.Outcome<bool>>)
    requires Honest(eps, reached, answers)
    ensures Succeeded(W.SequentialMap(answers)) <==> forall i :: 0 <= i < |answers| ==> answers[i] == W.Returns(true)
  {
    if Succeeded(W.SequentialMap(answers)) {
      forall i | 0 <= i < |answers| ensures answers[i] == W.Returns(true) {
        assert Truthy(W.SequentialMap(answers)[i]);
      }
    }
  }

  lemma SuccessMeansDelivery(eps: seq<Endpoint>, reached: set<Endpoint>, answers: seq<W.Outcome<bool>>)
    requires Honest(eps, reached, answers) && Succeeded(W.SequentialMap(answers))
    ensures forall e :: e in eps ==> e in reached
  {
    forall e | e in eps ensures e in reached {
      var i :| 0 <= i < |eps| && eps[i] == e;
      assert Truthy(W.SequentialMap(answers)[i]);
    }
  }

  /** However the worker threads interleave and whichever pushes are lost: when no thread can move any
      more the caller holds the answers in list order, and the pushes made are one call of the deployment
      runs that leaves the fleet of a sequential loop. If the caller counts it a success, the call is
      complete. */
  lemma PushesUnderAnySchedule(calls: seq<Call>, kind: Kind, rules: seq<Rule>, eps: seq<Endpoint>,
                               reached: set<Endpoint>, answers: seq<W.Outcome<bool>>, schedule: seq<W.Thread>)
    requires ValidRun(calls)
    requires Distinct(eps) && forall e :: e in eps <==> e in Compile(Run(calls).recs, rules)
    requires Honest(eps, reached, answers)
    requires W.Schedulable(W.Init(answers, Workers(|answers|)), schedule) && W.Stuck(Outcome(answers, schedule))
    ensures var t := Outcome(answers, schedule);
            && t.results == W.SequentialMap(answers)
            && (forall i :: 0 <= i < |t.log| ==> t.log[i] < |eps|)
            && var s, c := Run(calls), Performing(kind, rules, eps, reached, t.log);
               && ValidCall(s, c)
               && (forall e :: e in Arriving(eps, reached) ==> e in Compile(s.recs, rules))
               && Step(s, c).fleet == PushAll(s.fleet, kind, Compile(s.recs, rules), Arriving(eps, reached))
               && (forall e :: e in c.delivered <==> e in eps && e in reached)
               && (Succeeded(t.results) <==> forall i :: 0 <= i < |answers| ==> answers[i] == W.Returns(true))
               && (Succeeded(t.results) ==> Complete(s, c))
    ensures Workers(|answers|) == if |answers| < 200 then |answers| else 200
  {
    var recs := Compile(Run(calls).recs, rules);
    W.ParallelWorkIsSequentialMap(answers, W.Some(if |answers| < 200 then |answers| else 200), schedule);
    var t := Outcome(answers, schedule);
    AnyOrderSamePushes(Run(calls).fleet, kind, recs, eps, reached, t.log);
    ReorderedCovers(eps, t.log);
    ArrivingElements(Reordered(eps, t.log), reached);
    SucceededIff(eps, reached, answers);
    if Succeeded(t.results) {
      SuccessMeansDelivery(eps, reached, answers);
    }
  }

  /** A register call the caller counts as a success leaves the deployment of all rules of all calls at
      every endpoint, and the fleet closed. */
  lemma SuccessConverges(calls: seq<Call>, rules: seq<Rule>, eps: seq<Endpoint>, reached: set<Endpoint>,
                         answers: seq<W.Outcome<bool>>, schedule: seq<W.Thread>, e: Endpoint)
    requires ValidRun(calls)
    requires Distinct(eps) && forall d :: d in eps <==> d in Compile(Run(calls).recs, rules)
    requires Honest(eps, reached, answers)
    requires W.Schedulable(W.Init(answers, Workers(|answers|)), schedule) && W.Stuck(Outcome(answers, schedule))
    requires Succeeded(Outcome(answers, schedule).results)
    ensures forall i :: 0 <= i < |Outcome(answers, schedule).log| ==> Outcome(answers, schedule).log[i] < |eps|
    ensures var c := Performing(RegisterCall, rules, eps, reached, Outcome(answers, schedule).log);
            && ValidCall(Run(calls), c)
            && StoreAt(Step(Run(calls), c).fleet, e) == OwnRow(Deploy(map[], AllRules(calls) + rules), e)
            && Closed(Step(Run(calls), c).fleet)
  {
    PushesUnderAnySchedule(calls, RegisterCall, rules, eps, reached, answers, schedule);
    var c := Performing(RegisterCall, rules, eps, reached, Outcome(answers, schedule).log);
    RegisterConverges(calls, c, e);
    CompleteCallCloses(calls, c);
  }
}
