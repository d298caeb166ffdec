/** What the error group does, in terms of the schedule alone: which bodies began, which errors
    they returned, and what `Wait` answers. */
module ErrGroupResults {
  import opened Sums
  import opened Wrappers
  import opened ErrGroup

  // ---------- reading a schedule ----------

  predicate ReturnsError(p: Step) {
    p.Return? && p.result.Some?
  }

  /** The errors that bodies return. */
  function ErrorsOf(ps: seq<Step>): multiset<int> {
    if ps == [] then multiset{}
    else
      var p := ps[|ps| - 1];
      ErrorsOf(ps[..|ps| - 1]) + if ReturnsError(p) then multiset{p.result.value} else multiset{}
  }

  /** The tasks that call `errOnce.Do`, in order. */
  function Offers(ps: seq<Step>): seq<nat> {
    if ps == [] then []
    else
      var p := ps[|ps| - 1];
      Offers(ps[..|ps| - 1]) + if p.EnterOnce? then [p.i] else []
  }

  /** Bodies that have begun and not returned. */
  function InBodies(ps: seq<Step>): int {
    if ps == [] then 0
    else
      var p := ps[|ps| - 1];
      InBodies(ps[..|ps| - 1]) + if p.Begin? then 1 else if p.Return? then -1 else 0
  }

  lemma {:induction false} ReadOneMore(ps: seq<Step>, p: Step)
    ensures ErrorsOf(ps + [p]) == ErrorsOf(ps) + if ReturnsError(p) then multiset{p.result.value} else multiset{}
    ensures Offers(ps + [p]) == Offers(ps) + if p.EnterOnce? then [p.i] else []
    ensures InBodies(ps + [p]) == InBodies(ps) + if p.Begin? then 1 else if p.Return? then -1 else 0
    ensures multiset(ps + [p]) == multiset(ps)[p := multiset(ps)[p] + 1]
  {
    assert (ps + [p])[..|ps + [p]| - 1] == ps;
  }

  lemma {:induction false} NoErrors(ps: seq<Step>)
    ensures ErrorsOf(ps) == multiset{} <==> forall i :: 0 <= i < |ps| ==> !ReturnsError(ps[i])
  {
    if ps != [] {
      var front := ps[..|ps| - 1];
      NoErrors(front);
      assert forall i :: 0 <= i < |front| ==> front[i] == ps[i];
    }
  }

  // ---------- the state tells the schedule ----------

  ghost function ErrorIn(t: Task): Option<int> {
    match t
    case Failing(e) => Some(e)
    case Writing(e) => Some(e)
    case Cancelling(e) => Some(e)
    case Blocked(e) => Some(e)
    case _ => None
  }

  /** The error a task carries is the one its own body returned. */
  ghost predicate CarriesOwn(s: State, done: seq<Step>) {
    forall i :: 0 <= i < |s.tasks| && ErrorIn(s.tasks[i]).Some? ==> Return(i, ErrorIn(s.tasks[i])) in done
  }

  /** What is logged is what the offering tasks returned. */
  ghost predicate LogsOwn(s: State, done: seq<Step>) {
    && |s.log| == |Offers(done)|
    && forall k :: 0 <= k < |s.log| ==> Return(Offers(done)[k], Some(s.log[k])) in done
  }

  ghost predicate CountsTold(s: State, done: seq<Step>) {
    && s.raised == ErrorsOf(done)
    && Sum(s.tasks, IsRunning) == InBodies(done)
    && (s.cause == ByParent <==> ParentCancels in done)
  }

  ghost predicate StartsTold(s: State, done: seq<Step>) {
    |s.starts| == |s.tasks| && forall i :: 0 <= i < |s.starts| ==> s.starts[i] == multiset(done)[Begin(i)]
  }

  ghost predicate Told(s: State, done: seq<Step>) {
    CarriesOwn(s, done) && LogsOwn(s, done) && CountsTold(s, done) && StartsTold(s, done)
  }

  lemma {:induction false} StepCarriesOwn(s: State, done: seq<Step>, p: Step)
    requires CarriesOwn(s, done) && Enabled(s, p)
    ensures CarriesOwn(Do(s, p), done + [p])
  {
    StepShape(s, p);
    var t := Do(s, p);
    forall i | 0 <= i < |t.tasks| && ErrorIn(t.tasks[i]).Some?
      ensures Return(i, ErrorIn(t.tasks[i])) in done + [p]
    {
      if !p.Return? || p.i != i {
        assert ErrorIn(s.tasks[i]) == ErrorIn(t.tasks[i]);
      }
    }
  }

  lemma {:induction false} StepLogsOwn(s: State, done: seq<Step>, p: Step)
    requires CarriesOwn(s, done) && LogsOwn(s, done) && Enabled(s, p)
    ensures LogsOwn(Do(s, p), done + [p])
  {
    ReadOneMore(done, p);
    LogShape(s, p);
    if p.EnterOnce? { assert Return(p.i, ErrorIn(s.tasks[p.i])) in done; }
  }

  lemma {:induction false} LogShape(s: State, p: Step)
    requires Enabled(s, p)
    ensures Do(s, p).log == s.log + if p.EnterOnce? then [s.tasks[p.i].e] else []
    ensures Do(s, p).raised == s.raised + if ReturnsError(p) then multiset{p.result.value} else multiset{}
    ensures Do(s, p).cause == ByParent <==> s.cause == ByParent || p.ParentCancels?
  {
  }

  lemma {:induction false} StepCountsTold(s: State, done: seq<Step>, p: Step)
    requires CountsTold(s, done) && Enabled(s, p)
    ensures CountsTold(Do(s, p), done + [p])
  {
    ReadOneMore(done, p);
    LogShape(s, p);
    StepRunning(s, p);
    assert ParentCancels in done + [p] <==> ParentCancels in done || p == ParentCancels;
  }

  lemma {:induction false} StepRunning(s: State, p: Step)
    requires Enabled(s, p)
    ensures Sum(Do(s, p).tasks, IsRunning) ==
      Sum(s.tasks, IsRunning) + if p.Begin? then 1 else if p.Return? then -1 else 0
  {
    StepShape(s, p);
    if IsTaskStep(p) { SumUpdate(s.tasks, p.i, Becomes(s, p), IsRunning); }
  }

  lemma {:induction false} StepStartsTold(s: State, done: seq<Step>, p: Step)
    requires StartsTold(s, done) && Enabled(s, p)
    ensures StartsTold(Do(s, p), done + [p])
  {
    ReadOneMore(done, p);
    StartsShape(s, p);
    forall i | 0 <= i < |s.starts| ensures Do(s, p).starts[i] == multiset(done + [p])[Begin(i)] {
      assert s.starts[i] == multiset(done)[Begin(i)];
    }
  }

  lemma {:induction false} StartsShape(s: State, p: Step)
    requires Enabled(s, p)
    ensures Do(s, p).starts == if p.Begin? then s.starts[p.i := s.starts[p.i] + 1] else s.starts
    ensures |Do(s, p).tasks| == |s.tasks|
  {
  }

  lemma {:induction false} StepTold(s: State, done: seq<Step>, p: Step)
    requires Told(s, done) && Enabled(s, p)
    ensures Told(Do(s, p), done + [p])
  {
    StepCarriesOwn(s, done, p);
    StepLogsOwn(s, done, p);
    StepCountsTold(s, done, p);
    StepStartsTold(s, done, p);
  }

  lemma {:induction false} Split<T>(done: seq<T>, ps: seq<T>)
    ensures done + [] == done
    ensures ps != [] ==> done + [ps[0]] + ps[1..] == done + ps
  {
  }

  lemma {:induction false} RunIsTold(s: State, done: seq<Step>, ps: seq<Step>, t: State)
    requires Told(s, done) && Runs(s, ps, t)
    ensures Told(t, done + ps)
    decreases |ps|
  {
    Split(done, ps);
    if ps != [] {
      StepTold(s, done, ps[0]);
      RunIsTold(Do(s, ps[0]), done + [ps[0]], ps[1..], t);
    }
  }

  lemma {:induction false} ScheduleIsTold(limit: nat, n: nat, ps: seq<Step>, t: State)
    requires Runs(Start(limit, n), ps, t)
    ensures Told(t, ps) && Reachable(limit, n, t)
  {
    SumConstant(Start(limit, n).tasks, IsRunning, 0);
    RunIsTold(Start(limit, n), [], ps, t);
    assert [] + ps == ps;
  }

  // ---------- results ----------

  /** With a limit, the bodies that have begun and not returned never outnumber the limit. */
  lemma {:induction false} RunningWithinLimit(limit: nat, n: nat, ps: seq<Step>, t: State)
    requires Runs(Start(limit, n), ps, t) && limit > 0
    ensures 0 <= InBodies(ps) <= t.tokens <= limit
  {
    ScheduleIsTold(limit, n, ps, t);
    RunningHoldTokens(limit, n, t);
    forall i | 0 <= i < |t.tasks| ensures IsRunning(t.tasks[i]) >= 0 {}
    SumNonNegative(t.tasks, IsRunning);
  }

  /** No body begins twice on any schedule; that of a finished task has begun, that of a dropped
      one has not, and a task is dropped only in a limited group whose context is done. */
  lemma {:induction false} StartsAtMostOnce(limit: nat, n: nat, ps: seq<Step>, t: State, i: nat)
    requires Runs(Start(limit, n), ps, t) && i < n
    ensures |t.tasks| == n && multiset(ps)[Begin(i)] <= 1
    ensures t.tasks[i] == Finished ==> multiset(ps)[Begin(i)] == 1
    ensures t.tasks[i] == Dropped ==> limit > 0 && t.cause != NotDone && multiset(ps)[Begin(i)] == 0
  {
    ScheduleIsTold(limit, n, ps, t);
    StartsCountedOnce(limit, n, t, i);
  }

  /** When `Wait` has returned, everything submitted is over, every token is back and every error
      a body returned has been offered to `errOnce`. It answers nil if and only if no body
      returned an error, and otherwise the error returned by the body of the task that was first
      to offer. The context is done by the parent if the parent cancelled on the schedule, and
      else with the answer as its cause. */
  lemma {:induction false} WaitReturnsFirstError(limit: nat, n: nat, ps: seq<Step>, t: State)
    requires Runs(Start(limit, n), ps, t) && t.waiter.Returned?
    ensures (forall i :: 0 <= i < |t.tasks| ==> Over(t.tasks[i])) && t.tokens == 0 && t.group == 0
    ensures |Offers(ps)| == |ErrorsOf(ps)|
    ensures t.waiter.result == None <==> forall k :: 0 <= k < |ps| ==> !ReturnsError(ps[k])
    ensures t.waiter.result.Some? ==> Offers(ps) != [] && Return(Offers(ps)[0], t.waiter.result) in ps
    ensures t.cause == if ParentCancels in ps then ByParent
                       else if t.waiter.result.Some? then ByError(t.waiter.result.value) else Plain
  {
    ScheduleIsTold(limit, n, ps, t);
    WaitLeavesNothing(limit, n, t);
    NoErrors(ps);
    assert |multiset(t.log)| == |t.log|;
  }
}
