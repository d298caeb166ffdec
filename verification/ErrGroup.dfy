/** The error group: a token channel, a WaitGroup, a `sync.Once` for the first error and a
    derived context, as a step machine over any number of tasks.

    `Go` may be called from several goroutines outside the group, before `Wait`, and at any time
    by the bodies themselves: while a body runs the WaitGroup's counter is above zero, and then
    an `Add` is allowed even during `Wait`. A body returns only when its own calls of `Go` have
    returned. Errors are numbered. */
module ErrGroup {
  import opened Sums
  import opened Wrappers

  /** A call of `Go` and the goroutine it starts.
      `Selecting` is in `Go`'s select; `Adding` holds a token and is about to call `wg.Add`;
      `Spawned` has not begun its body; `Failing(e)` is about to call `errOnce.Do`; `Writing`
      and `Cancelling` are inside it; `Blocked` waits for the winner to leave it; `Exiting`
      is about to run the deferred token release, `Leaving` the deferred `wg.Done`. */
  datatype Task =
    | NotSubmitted | Selecting | Adding | Dropped
    | Spawned | Running | Failing(e: int) | Writing(e: int) | Cancelling(e: int) | Blocked(e: int)
    | Exiting | Leaving | Finished

  datatype OnceState = Untouched | Busy | Completed

  /** Whether and why the derived context is done. */
  datatype Cause = NotDone | ByParent | ByError(e: int) | Plain

  datatype Waiter = NotWaiting | Waiting | Returned(result: Option<int>)

  datatype State = State(
    limit: nat,
    tokens: int, group: int,
    once: OnceState, err: Option<int>, cause: Cause,
    tasks: seq<Task>, from: seq<Option<nat>>, starts: seq<nat>,
    waiter: Waiter,
    log: seq<int>,
    raised: multiset<int>)

  datatype Step =
    | Submit(i: nat) | SubmitFrom(i: nat, caller: nat) | TakeToken(i: nat) | Drop(i: nat) | Add(i: nat)
    | Begin(i: nat) | Return(i: nat, result: Option<int>)
    | EnterOnce(i: nat) | Write(i: nat) | CancelGroup(i: nat) | Unblock(i: nat)
    | GiveToken(i: nat) | Leave(i: nat)
    | ParentCancels | CallWait | WaitReturns

  /** `limit == 0` is a group without `SetLimit`: it has no token channel. `from` names the task
      whose body submitted a task, or nobody for a goroutine outside the group. */
  function Start(limit: nat, n: nat): State {
    State(limit, 0, 0, Untouched, None, NotDone,
          seq(n, _ => NotSubmitted), seq(n, _ => None), seq(n, _ => 0), NotWaiting, [], multiset{})
  }

  predicate InGo(t: Task) {
    t == Selecting || t == Adding
  }

  predicate IsTaskStep(p: Step) {
    !p.ParentCancels? && !p.CallWait? && !p.WaitReturns?
  }

  /** A call of `Go` made by the body of task `i` is in progress. */
  ghost predicate Calling(s: State, i: nat)
    requires |s.from| == |s.tasks|
  {
    exists j :: 0 <= j < |s.tasks| && InGo(s.tasks[j]) && s.from[j] == Some(i)
  }

  ghost predicate Enabled(s: State, p: Step) {
    |s.starts| == |s.tasks| == |s.from| &&
    (IsTaskStep(p) ==> p.i < |s.tasks|) &&
    match p
    case Submit(i) => s.tasks[i] == NotSubmitted && s.waiter == NotWaiting
    case SubmitFrom(i, caller) => s.tasks[i] == NotSubmitted && caller < |s.tasks| && s.tasks[caller] == Running
    case TakeToken(i) => s.tasks[i] == Selecting && (s.limit == 0 || s.tokens < s.limit)
    case Drop(i) => s.tasks[i] == Selecting && s.limit > 0 && s.cause != NotDone
    case Add(i) => s.tasks[i] == Adding
    case Begin(i) => s.tasks[i] == Spawned
    case Return(i, _) => s.tasks[i] == Running && !Calling(s, i)
    case EnterOnce(i) => s.tasks[i].Failing?
    case Write(i) => s.tasks[i].Writing?
    case CancelGroup(i) => s.tasks[i].Cancelling?
    case Unblock(i) => s.tasks[i].Blocked? && s.once == Completed
    case GiveToken(i) => s.tasks[i] == Exiting
    case Leave(i) => s.tasks[i] == Leaving
    case ParentCancels => s.cause == NotDone
    case CallWait => s.waiter == NotWaiting && forall i :: 0 <= i < |s.tasks| && InGo(s.tasks[i]) ==> s.from[i].Some?
    case WaitReturns => s.waiter == Waiting && s.group == 0
  }

  /** What task `p.i` becomes. */
  function Becomes(s: State, p: Step): Task
    requires IsTaskStep(p) && p.i < |s.tasks|
    requires p.EnterOnce? ==> s.tasks[p.i].Failing?
    requires p.Write? ==> s.tasks[p.i].Writing?
  {
    match p
    case Submit(_) => Selecting
    case SubmitFrom(_, _) => Selecting
    case TakeToken(_) => Adding
    case Drop(_) => Dropped
    case Add(_) => Spawned
    case Begin(_) => Running
    case Return(_, result) => if result.Some? then Failing(result.value) else Exiting
    case EnterOnce(i) => if s.once == Untouched then Writing(s.tasks[i].e) else Blocked(s.tasks[i].e)
    case Write(i) => Cancelling(s.tasks[i].e)
    case CancelGroup(_) => Exiting
    case Unblock(_) => Exiting
    case GiveToken(_) => Leaving
    case Leave(_) => Finished
  }

  /** Only the first cancellation of a context sets its cause. */
  function Cancel(c: Cause, why: Cause): Cause {
    if c == NotDone then why else c
  }

  function Do(s: State, p: Step): State
    requires Enabled(s, p)
  {
    if p.ParentCancels? then s.(cause := ByParent)
    else if p.CallWait? then s.(waiter := Waiting)
    else if p.WaitReturns? then
      s.(waiter := Returned(s.err), cause := Cancel(s.cause, if s.err.Some? then ByError(s.err.value) else Plain))
    else
      var t := s.(tasks := s.tasks[p.i := Becomes(s, p)]);
      match p
      case SubmitFrom(i, caller) => t.(from := s.from[i := Some(caller)])
      case TakeToken(_) => t.(tokens := s.tokens + if s.limit > 0 then 1 else 0)
      case Add(_) => t.(group := s.group + 1)
      case Begin(i) => t.(starts := s.starts[i := s.starts[i] + 1])
      case Return(_, result) => if result.Some? then t.(raised := s.raised + multiset{result.value}) else t
      case EnterOnce(i) => t.(once := if s.once == Untouched then Busy else s.once, log := s.log + [s.tasks[i].e])
      case Write(i) => t.(err := Some(s.tasks[i].e))
      case CancelGroup(i) => t.(cause := Cancel(s.cause, ByError(s.tasks[i].e)), once := Completed)
      case GiveToken(_) => t.(tokens := s.tokens - if s.limit > 0 then 1 else 0)
      case Leave(_) => t.(group := s.group - 1)
      case _ => t
  }

  ghost predicate Runs(s: State, ps: seq<Step>, t: State)
    decreases |ps|
  {
    if ps == [] then t == s else Enabled(s, ps[0]) && Runs(Do(s, ps[0]), ps[1..], t)
  }

  // ---------- tokens and the WaitGroup ----------

  predicate InBody(t: Task) {
    t == Running
  }

  predicate PastBody(t: Task) {
    t.Failing? || t.Writing? || t.Cancelling? || t.Blocked? || t == Exiting
  }

  ghost function HasToken(t: Task): int {
    if t == Adding || t == Spawned || InBody(t) || PastBody(t) then 1 else 0
  }

  ghost function InGroup(t: Task): int {
    if t == Spawned || InBody(t) || PastBody(t) || t == Leaving then 1 else 0
  }

  ghost function IsRunning(t: Task): int {
    if InBody(t) then 1 else 0
  }

  predicate HasStarted(t: Task) {
    InBody(t) || PastBody(t) || t == Leaving || t == Finished
  }

  predicate Over(t: Task) {
    t == NotSubmitted || t == Dropped || t == Finished
  }

  ghost predicate Counters(s: State) {
    |s.starts| == |s.tasks| == |s.from| && TokensCounted(s) && s.group == Sum(s.tasks, InGroup)
  }

  ghost predicate TokensCounted(s: State) {
    && s.tokens == (if s.limit > 0 then Sum(s.tasks, HasToken) else 0)
    && (s.limit > 0 ==> s.tokens <= s.limit)
  }

  /** One task changes; the waiter changes only in its own steps. */
  lemma {:induction false} StepShape(s: State, p: Step)
    requires Enabled(s, p)
    ensures IsTaskStep(p) ==> Do(s, p).tasks == s.tasks[p.i := Becomes(s, p)] && Do(s, p).waiter == s.waiter
    ensures !IsTaskStep(p) ==> Do(s, p).tasks == s.tasks && Do(s, p).starts == s.starts
    ensures Do(s, p).from == if p.SubmitFrom? then s.from[p.i := Some(p.caller)] else s.from
    ensures Do(s, p).limit == s.limit && (s.cause != NotDone ==> Do(s, p).cause == s.cause)
  {
  }

  lemma {:induction false} StepTokens(s: State, p: Step)
    requires TokensCounted(s) && Enabled(s, p)
    ensures TokensCounted(Do(s, p))
  {
    StepShape(s, p);
    if IsTaskStep(p) { SumUpdate(s.tasks, p.i, Becomes(s, p), HasToken); }
  }

  lemma {:induction false} StepCounters(s: State, p: Step)
    requires Counters(s) && Enabled(s, p)
    ensures Counters(Do(s, p))
  {
    StepShape(s, p);
    StepTokens(s, p);
    if IsTaskStep(p) { SumUpdate(s.tasks, p.i, Becomes(s, p), InGroup); }
  }

  // ---------- each task starts once or is dropped for a reason ----------

  ghost predicate Lifecycle(s: State) {
    StartsCounted(s) && DropsJustified(s) && CallersRun(s) && WaitRespected(s)
  }

  /** A body with a call of `Go` in progress is still running. */
  ghost predicate CallersRun(s: State) {
    && |s.from| == |s.tasks|
    && (forall i :: 0 <= i < |s.tasks| && s.tasks[i] == NotSubmitted ==> s.from[i] == None)
    && (forall i :: 0 <= i < |s.tasks| && InGo(s.tasks[i]) && s.from[i].Some? ==>
          s.from[i].value < |s.tasks| && s.tasks[s.from[i].value] == Running)
  }

  ghost predicate StartsCounted(s: State) {
    && |s.starts| == |s.tasks|
    && forall i :: 0 <= i < |s.tasks| ==> s.starts[i] == if HasStarted(s.tasks[i]) then 1 else 0
  }

  ghost predicate DropsJustified(s: State) {
    forall i :: 0 <= i < |s.tasks| && s.tasks[i] == Dropped ==> s.limit > 0 && s.cause != NotDone
  }

  ghost predicate WaitRespected(s: State) {
    && |s.from| == |s.tasks|
    && (s.waiter != NotWaiting ==> forall i :: 0 <= i < |s.tasks| && InGo(s.tasks[i]) ==> s.from[i].Some?)
    && (s.waiter.Returned? ==> forall i :: 0 <= i < |s.tasks| ==> Over(s.tasks[i]))
  }

  lemma {:induction false} EmptyGroupIsOver(s: State)
    requires Counters(s) && CallersRun(s) && WaitRespected(s) && s.group == 0 && s.waiter != NotWaiting
    ensures forall i :: 0 <= i < |s.tasks| ==> Over(s.tasks[i])
  {
    forall i | 0 <= i < |s.tasks| ensures InGroup(s.tasks[i]) == 0 {
      SumAtLeast(s.tasks, i, InGroup);
    }
    forall i | 0 <= i < |s.tasks| ensures !InGo(s.tasks[i]) {
      var j := if s.from[i].Some? && s.from[i].value < |s.tasks| then s.from[i].value else i;
      assert InGroup(s.tasks[j]) == 0;
    }
  }

  lemma {:induction false} StepStartsCounted(s: State, p: Step)
    requires StartsCounted(s) && Enabled(s, p)
    ensures StartsCounted(Do(s, p))
  {
    StepShape(s, p);
  }

  lemma {:induction false} StepDropsJustified(s: State, p: Step)
    requires DropsJustified(s) && Enabled(s, p)
    ensures DropsJustified(Do(s, p))
  {
    StepShape(s, p);
  }

  /** A body stays in place while a call of `Go` it made is in progress. */
  lemma {:induction false} StepKeepsCaller(s: State, p: Step, i: nat)
    requires CallersRun(s) && Enabled(s, p) && i < |s.tasks|
    requires InGo(Do(s, p).tasks[i]) && Do(s, p).from[i].Some?
    ensures var c := Do(s, p).from[i].value; c < |s.tasks| && Do(s, p).tasks[c] == Running
  {
    StepShape(s, p);
    if p.SubmitFrom? && p.i == i {
      assert p.caller != i;
    } else {
      assert InGo(s.tasks[i]) && s.from[i] == Do(s, p).from[i];
      var c := s.from[i].value;
      assert Calling(s, c);
      assert p.Return? ==> p.i != c;
    }
  }

  lemma {:induction false} StepCallersRun(s: State, p: Step)
    requires CallersRun(s) && Enabled(s, p)
    ensures CallersRun(Do(s, p))
  {
    var t := Do(s, p);
    StepShape(s, p);
    forall i | 0 <= i < |t.tasks| && InGo(t.tasks[i]) && t.from[i].Some?
      ensures t.from[i].value < |t.tasks| && t.tasks[t.from[i].value] == Running
    {
      StepKeepsCaller(s, p, i);
    }
    assert forall i :: 0 <= i < |t.tasks| && t.tasks[i] == NotSubmitted ==> s.tasks[i] == NotSubmitted;
  }

  lemma {:induction false} StepWaitRespected(s: State, p: Step)
    requires Counters(s) && CallersRun(s) && WaitRespected(s) && Enabled(s, p)
    ensures WaitRespected(Do(s, p))
  {
    StepShape(s, p);
    if p.WaitReturns? {
      EmptyGroupIsOver(s);
    } else if p.CallWait? || s.waiter == NotWaiting {
    } else {
      StepDuringWait(s, p);
    }
  }

  lemma {:induction false} StepDuringWait(s: State, p: Step)
    requires WaitRespected(s) && Enabled(s, p) && s.waiter != NotWaiting && !p.WaitReturns?
    ensures WaitRespected(Do(s, p))
  {
    var t := Do(s, p);
    StepShape(s, p);
    forall i | 0 <= i < |t.tasks| && InGo(t.tasks[i]) ensures t.from[i].Some? {
      assert !p.SubmitFrom? ==> InGo(s.tasks[i]);
    }
  }

  lemma {:induction false} StepLifecycle(s: State, p: Step)
    requires Counters(s) && Lifecycle(s) && Enabled(s, p)
    ensures Lifecycle(Do(s, p))
  {
    StepStartsCounted(s, p);
    StepDropsJustified(s, p);
    StepCallersRun(s, p);
    StepWaitRespected(s, p);
  }

  // ---------- the first error ----------

  /** `errOnce`, the recorded error, the log of `errOnce.Do` calls and the context agree. */
  ghost predicate FirstError(s: State) {
    OnceRecord(s) && InsideOnce(s)
  }

  ghost predicate InsideOnce(s: State) {
    WritersInside(s) && CancellersInside(s)
  }

  ghost predicate WritersInside(s: State) {
    forall i :: 0 <= i < |s.tasks| && s.tasks[i].Writing? ==>
      s.once == Busy && s.err == None && s.log != [] && s.tasks[i].e == s.log[0]
  }

  ghost predicate CancellersInside(s: State) {
    forall i :: 0 <= i < |s.tasks| && s.tasks[i].Cancelling? ==>
      s.once == Busy && s.log != [] && s.err == Some(s.log[0]) && s.tasks[i].e == s.log[0]
  }

  ghost predicate OnceRecord(s: State) {
    && (s.once == Untouched <==> s.log == [])
    && (s.once == Untouched ==> s.err == None)
    && (s.once == Completed ==> s.err == Some(s.log[0]) && (s.cause == ByError(s.log[0]) || s.cause == ByParent))
    && (s.once != Completed && !s.waiter.Returned? ==> s.cause == NotDone || s.cause == ByParent)
  }

  /** Exactly one task is inside `errOnce.Do`'s function while it is busy. */
  ghost predicate OneWinner(s: State) {
    WinnerExists(s) && WinnersAgree(s)
  }

  ghost predicate WinnerExists(s: State) {
    s.once == Busy ==> exists i :: 0 <= i < |s.tasks| && Winning(s.tasks[i])
  }

  ghost predicate WinnersAgree(s: State) {
    AtMostOneWinner(s) && WinnersAreBusy(s)
  }

  ghost predicate AtMostOneWinner(s: State) {
    forall i, j :: 0 <= i < |s.tasks| && 0 <= j < |s.tasks| && Winning(s.tasks[i]) && Winning(s.tasks[j]) ==> i == j
  }

  ghost predicate WinnersAreBusy(s: State) {
    && (forall i :: 0 <= i < |s.tasks| && Winning(s.tasks[i]) ==> s.once == Busy)
    && (forall i :: 0 <= i < |s.tasks| && s.tasks[i].Blocked? ==> s.once != Untouched)
  }

  predicate Winning(t: Task) {
    t.Writing? || t.Cancelling?
  }

  /** After `Wait` the context is done, and it and the result tell the same story. */
  ghost predicate WaitOutcome(s: State) {
    s.waiter.Returned? ==>
      && s.waiter.result == s.err
      && s.once != Busy
      && s.err == (if s.log == [] then None else Some(s.log[0]))
      && (s.cause == ByParent || s.cause == if s.log == [] then Plain else ByError(s.log[0]))
  }

  lemma {:induction false} StepFirstError(s: State, p: Step)
    requires FirstError(s) && OneWinner(s) && Lifecycle(s) && Enabled(s, p)
    ensures FirstError(Do(s, p))
  {
    StepInsideOnce(s, p);
    StepOnceRecord(s, p);
  }

  lemma {:induction false} StepInsideOnce(s: State, p: Step)
    requires FirstError(s) && OneWinner(s) && Enabled(s, p)
    ensures InsideOnce(Do(s, p))
  {
    StepWritersInside(s, p);
    StepCancellersInside(s, p);
  }

  lemma {:induction false} StepWritersInside(s: State, p: Step)
    requires FirstError(s) && OneWinner(s) && Enabled(s, p)
    ensures WritersInside(Do(s, p))
  {
    StepShape(s, p);
    OnceShape(s, p);
  }

  lemma {:induction false} StepCancellersInside(s: State, p: Step)
    requires FirstError(s) && OneWinner(s) && Enabled(s, p)
    ensures CancellersInside(Do(s, p))
  {
    StepShape(s, p);
    OnceShape(s, p);
  }

  lemma {:induction false} StepOnceRecord(s: State, p: Step)
    requires FirstError(s) && OneWinner(s) && Lifecycle(s) && Enabled(s, p)
    ensures OnceRecord(Do(s, p))
  {
  }

  lemma {:induction false} OnceShape(s: State, p: Step)
    requires Enabled(s, p)
    ensures var t := Do(s, p);
      t.once == if p.EnterOnce? && s.once == Untouched then Busy
                else if p.CancelGroup? then Completed else s.once
  {
  }

  lemma {:induction false} StepWinnerExists(s: State, p: Step)
    requires OneWinner(s) && Enabled(s, p)
    ensures WinnerExists(Do(s, p))
  {
    var t := Do(s, p);
    StepShape(s, p);
    OnceShape(s, p);
    if IsTaskStep(p) && t.once == Busy {
      if p.EnterOnce? && s.once == Untouched {
        assert Winning(t.tasks[p.i]);
      } else {
        var i :| 0 <= i < |s.tasks| && Winning(s.tasks[i]);
        assert Winning(t.tasks[i]);
      }
    }
  }

  lemma {:induction false} StepWinnersAgree(s: State, p: Step)
    requires OneWinner(s) && Enabled(s, p)
    ensures WinnersAgree(Do(s, p))
  {
    StepAtMostOneWinner(s, p);
    StepWinnersAreBusy(s, p);
  }

  lemma {:induction false} StepAtMostOneWinner(s: State, p: Step)
    requires WinnersAgree(s) && Enabled(s, p)
    ensures AtMostOneWinner(Do(s, p))
  {
    StepShape(s, p);
  }

  lemma {:induction false} StepWinnersAreBusy(s: State, p: Step)
    requires WinnersAgree(s) && Enabled(s, p)
    ensures WinnersAreBusy(Do(s, p))
  {
    StepShape(s, p);
    OnceShape(s, p);
  }

  lemma {:induction false} StepOneWinner(s: State, p: Step)
    requires OneWinner(s) && Enabled(s, p)
    ensures OneWinner(Do(s, p))
  {
    StepWinnerExists(s, p);
    StepWinnersAgree(s, p);
  }

  lemma {:induction false} StepWaitOutcome(s: State, p: Step)
    requires Counters(s) && Lifecycle(s) && FirstError(s) && OneWinner(s) && WaitOutcome(s) && Enabled(s, p)
    ensures WaitOutcome(Do(s, p))
  {
    if p.WaitReturns? { EmptyGroupIsOver(s); }
  }

  // ---------- every raised error is accounted for ----------

  function FailingBag(t: Task): multiset<int> {
    if t.Failing? then multiset{t.e} else multiset{}
  }

  ghost predicate Accounted(s: State) {
    s.raised == multiset(s.log) + Bag(s.tasks, FailingBag)
  }

  /** A value that leaves one bag and enters another stays in their sum. */
  lemma {:induction false} Move(log: multiset<int>, bag: multiset<int>, bag': multiset<int>, h: multiset<int>)
    requires bag' + h == bag
    ensures log + bag == (log + h) + bag'
  {
  }

  lemma {:induction false} EnterAccounted(s: State, i: nat)
    requires Accounted(s) && Enabled(s, EnterOnce(i))
    ensures Accounted(Do(s, EnterOnce(i)))
  {
    var t := Do(s, EnterOnce(i));
    var h := multiset{s.tasks[i].e};
    BagUpdate(s.tasks, i, t.tasks[i], FailingBag);
    assert FailingBag(t.tasks[i]) == multiset{};
    assert Bag(t.tasks, FailingBag) + h == Bag(s.tasks, FailingBag);
    Move(multiset(s.log), Bag(s.tasks, FailingBag), Bag(t.tasks, FailingBag), h);
    assert multiset(t.log) == multiset(s.log) + h;
  }

  lemma {:induction false} ReturnAccounted(s: State, i: nat, result: Option<int>)
    requires Accounted(s) && Enabled(s, Return(i, result))
    ensures Accounted(Do(s, Return(i, result)))
  {
    var t := Do(s, Return(i, result));
    BagUpdate(s.tasks, i, t.tasks[i], FailingBag);
    assert FailingBag(s.tasks[i]) == multiset{};
    assert Bag(t.tasks, FailingBag) == Bag(s.tasks, FailingBag) + FailingBag(t.tasks[i]);
  }

  lemma {:induction false} OtherStepsRaiseNothing(s: State, p: Step)
    requires Enabled(s, p) && !p.EnterOnce? && !p.Return?
    ensures Do(s, p).log == s.log && Do(s, p).raised == s.raised
    ensures IsTaskStep(p) ==> FailingBag(s.tasks[p.i]) == multiset{} && FailingBag(Becomes(s, p)) == multiset{}
  {
  }

  lemma {:induction false} OtherStepsKeepBag(s: State, p: Step)
    requires Enabled(s, p) && !p.EnterOnce? && !p.Return?
    ensures Bag(Do(s, p).tasks, FailingBag) == Bag(s.tasks, FailingBag)
  {
    StepShape(s, p);
    if IsTaskStep(p) {
      OtherStepsRaiseNothing(s, p);
      BagSame(s.tasks, p.i, Becomes(s, p), FailingBag);
    }
  }

  lemma {:induction false} StepAccounted(s: State, p: Step)
    requires Accounted(s) && Enabled(s, p)
    ensures Accounted(Do(s, p))
  {
    if p.EnterOnce? {
      EnterAccounted(s, p.i);
    } else if p.Return? {
      ReturnAccounted(s, p.i, p.result);
    } else {
      OtherStepsRaiseNothing(s, p);
      OtherStepsKeepBag(s, p);
    }
  }

  // ---------- runs ----------

  ghost predicate Invariant(s: State) {
    Counters(s) && Lifecycle(s) && FirstError(s) && OneWinner(s) && WaitOutcome(s) && Accounted(s)
  }

  lemma {:induction false} StartInvariant(limit: nat, n: nat)
    ensures Invariant(Start(limit, n))
  {
    var s := Start(limit, n);
    SumConstant(s.tasks, HasToken, 0);
    SumConstant(s.tasks, InGroup, 0);
    BagEmpty(s.tasks, FailingBag);
  }

  lemma {:induction false} StepInvariant(s: State, p: Step)
    requires Invariant(s) && Enabled(s, p)
    ensures Invariant(Do(s, p))
  {
    StepCounters(s, p);
    StepLifecycle(s, p);
    StepFirstError(s, p);
    StepOneWinner(s, p);
    StepWaitOutcome(s, p);
    StepAccounted(s, p);
  }

  lemma {:induction false} RunInvariant(s: State, ps: seq<Step>, t: State)
    requires Invariant(s) && Runs(s, ps, t)
    ensures Invariant(t) && t.limit == s.limit && |t.tasks| == |s.tasks|
    decreases |ps|
  {
    if ps != [] {
      StepInvariant(s, ps[0]);
      RunInvariant(Do(s, ps[0]), ps[1..], t);
    }
  }

  ghost predicate Reachable(limit: nat, n: nat, t: State) {
    exists ps :: Runs(Start(limit, n), ps, t)
  }

  lemma {:induction false} ReachableInvariant(limit: nat, n: nat, t: State)
    requires Reachable(limit, n, t)
    ensures Invariant(t) && t.limit == limit && |t.tasks| == n
  {
    var ps :| Runs(Start(limit, n), ps, t);
    StartInvariant(limit, n);
    RunInvariant(Start(limit, n), ps, t);
  }

  // ---------- results ----------

  /** With a limit, the bodies running never outnumber the tokens held, nor those the limit. */
  lemma {:induction false} RunningHoldTokens(limit: nat, n: nat, t: State)
    requires Reachable(limit, n, t) && limit > 0
    ensures Sum(t.tasks, IsRunning) <= t.tokens <= limit
  {
    ReachableInvariant(limit, n, t);
    SumMonotone(t.tasks, IsRunning, HasToken);
  }

  /** No body starts twice; a task is dropped only in a limited group whose context is done,
      and then its body never starts. */
  lemma {:induction false} StartsCountedOnce(limit: nat, n: nat, t: State, i: nat)
    requires Reachable(limit, n, t) && i < n
    ensures |t.tasks| == n && |t.starts| == n && t.starts[i] <= 1
    ensures t.tasks[i] == Dropped ==> limit > 0 && t.cause != NotDone && t.starts[i] == 0
    ensures t.tasks[i] == Finished ==> t.starts[i] == 1
  {
    ReachableInvariant(limit, n, t);
  }

  /** When `Wait` has returned, every submitted task has finished or was dropped, every token
      is back, and the result is exactly the first error given to `errOnce`: an error that a
      body returned, or none if no body returned one. The context is done with that error as
      its cause, unless the parent was cancelled first. */
  lemma {:induction false} WaitLeavesNothing(limit: nat, n: nat, t: State)
    requires Reachable(limit, n, t) && t.waiter.Returned?
    ensures forall i :: 0 <= i < |t.tasks| ==> Over(t.tasks[i])
    ensures t.tokens == 0 && t.group == 0
    ensures multiset(t.log) == t.raised
    ensures t.waiter.result == if t.log == [] then None else Some(t.log[0])
    ensures t.cause == ByParent || t.cause == if t.log == [] then Plain else ByError(t.log[0])
  {
    ReachableInvariant(limit, n, t);
    OverLeavesNothing(t);
  }

  lemma {:induction false} OverLeavesNothing(s: State)
    requires Counters(s) && Accounted(s) && forall i :: 0 <= i < |s.tasks| ==> Over(s.tasks[i])
    ensures s.tokens == 0 && s.group == 0 && multiset(s.log) == s.raised
  {
    SumConstant(s.tasks, HasToken, 0);
    SumConstant(s.tasks, InGroup, 0);
    BagEmpty(s.tasks, FailingBag);
  }

  /** The WaitGroup is used as `sync` demands: an `Add` during `Wait` finds the counter above
      zero, because it is the call of a body that is still running. */
  lemma {:induction false} AddDuringWaitIsLegal(limit: nat, n: nat, t: State, i: nat)
    requires Reachable(limit, n, t) && Enabled(t, Add(i)) && t.waiter != NotWaiting
    ensures t.waiter == Waiting && t.group > 0
  {
    ReachableInvariant(limit, n, t);
    assert InGo(t.tasks[i]);
    forall j | 0 <= j < |t.tasks| ensures InGroup(t.tasks[j]) >= 0 {}
    SumAtLeast(t.tasks, t.from[i].value, InGroup);
  }

  // ---------- progress ----------

  predicate IsSubmission(p: Step) {
    p.Submit? || p.SubmitFrom?
  }

  /** Every token is held by a body that is itself waiting in `Go` for a token, and the context
      is not done. */
  ghost predicate SelfBlocked(s: State)
    requires |s.from| == |s.tasks|
  {
    && s.limit > 0 && s.tokens == s.limit && s.cause == NotDone
    && forall i :: 0 <= i < |s.tasks| ==>
         Over(s.tasks[i]) || s.tasks[i] == Selecting || (s.tasks[i] == Running && Calling(s, i))
  }

  ghost predicate CanStep(s: State) {
    exists p :: IsTaskStep(p) && !IsSubmission(p) && Enabled(s, p)
  }

  /** Progress: while a task is not over the group can move by itself, exactly unless it has
      blocked itself. */
  lemma {:induction false} SomeTaskCanStep(s: State, i: nat)
    requires Counters(s) && OneWinner(s) && i < |s.tasks| && !Over(s.tasks[i])
    ensures CanStep(s) <==> !SelfBlocked(s)
  {
    if SelfBlocked(s) {
      forall p | IsTaskStep(p) && !IsSubmission(p) ensures !Enabled(s, p) {}
    } else if k :| 0 <= k < |s.tasks| && Moving(s, k) {
      MovingCanStep(s, k);
    } else {
      RestingCanStep(s, i);
    }
  }

  /** Neither over nor waiting in `Go`, in the select or for a nested call. */
  ghost predicate Moving(s: State, k: nat)
    requires |s.from| == |s.tasks|
  {
    k < |s.tasks| && !Over(s.tasks[k]) && s.tasks[k] != Selecting && !(s.tasks[k] == Running && Calling(s, k))
  }

  function StepOf(s: State, k: nat): Step
    requires k < |s.tasks|
  {
    match s.tasks[k]
    case Adding => Add(k)
    case Spawned => Begin(k)
    case Running => Return(k, None)
    case Failing(_) => EnterOnce(k)
    case Writing(_) => Write(k)
    case Cancelling(_) => CancelGroup(k)
    case Blocked(_) => Unblock(k)
    case Exiting => GiveToken(k)
    case _ => Leave(k)
  }

  lemma {:induction false} MovingCanStep(s: State, k: nat)
    requires Counters(s) && OneWinner(s) && Moving(s, k)
    ensures CanStep(s)
  {
    var w := k;
    if s.tasks[k].Blocked? && s.once != Completed { w :| 0 <= w < |s.tasks| && Winning(s.tasks[w]); }
    assert Enabled(s, StepOf(s, w));
  }

  lemma {:induction false} RestingCanStep(s: State, i: nat)
    requires Counters(s) && i < |s.tasks| && !Over(s.tasks[i]) && !SelfBlocked(s)
    requires forall k :: 0 <= k < |s.tasks| ==> !Moving(s, k)
    ensures CanStep(s)
  {
    assert !Moving(s, i);
    var k := i;
    if s.tasks[i] == Running { k :| 0 <= k < |s.tasks| && InGo(s.tasks[k]) && s.from[k] == Some(i); }
    assert !Moving(s, k) && s.tasks[k] == Selecting;
    if s.limit > 0 && s.cause == NotDone && s.tokens >= s.limit {
      forall j | 0 <= j < |s.tasks|
        ensures Over(s.tasks[j]) || s.tasks[j] == Selecting || (s.tasks[j] == Running && Calling(s, j))
      {
        assert !Moving(s, j);
      }
      assert SelfBlocked(s);
    } else {
      assert Enabled(s, if s.cause != NotDone && s.limit > 0 then Drop(k) else TakeToken(k));
    }
  }

  /** A group that has blocked itself stays so, and `Wait` does not return, until the parent
      cancels. */
  lemma {:induction false} SelfBlockedForGood(s: State, ps: seq<Step>, t: State)
    requires Invariant(s) && SelfBlocked(s) && Runs(s, ps, t) && forall i :: 0 <= i < |ps| ==> !ps[i].ParentCancels?
    ensures Invariant(t) && SelfBlocked(t) && !t.waiter.Returned?
    decreases |ps|
  {
    if ps == [] {
      var i := SumPositive(s.tasks, HasToken);
    } else {
      assert !ps[0].ParentCancels?;
      StepInvariant(s, ps[0]);
      StepStaysBlocked(s, ps[0]);
      SelfBlockedForGood(Do(s, ps[0]), ps[1..], t);
    }
  }

  lemma {:induction false} StepsWhenBlocked(s: State, p: Step)
    requires Counters(s) && SelfBlocked(s) && Enabled(s, p) && !p.ParentCancels?
    ensures IsSubmission(p) || p.CallWait?
  {
    var i := SumPositive(s.tasks, HasToken);
    forall j | 0 <= j < |s.tasks| ensures InGroup(s.tasks[j]) >= 0 {}
    SumAtLeast(s.tasks, i, InGroup);
  }

  lemma {:induction false} StepStaysBlocked(s: State, p: Step)
    requires Counters(s) && SelfBlocked(s) && Enabled(s, p) && !p.ParentCancels?
    ensures SelfBlocked(Do(s, p))
  {
    var t := Do(s, p);
    StepsWhenBlocked(s, p);
    StepShape(s, p);
    assert t.tokens == s.tokens && t.cause == s.cause;
    forall k | 0 <= k < |t.tasks|
      ensures Over(t.tasks[k]) || t.tasks[k] == Selecting || (t.tasks[k] == Running && Calling(t, k))
    {
      if s.tasks[k] == Running { StaysCalling(s, p, k); }
    }
  }

  lemma {:induction false} StaysCalling(s: State, p: Step, k: nat)
    requires Enabled(s, p) && (IsSubmission(p) || p.CallWait?) && Calling(s, k)
    ensures Calling(Do(s, p), k)
  {
    StepShape(s, p);
    var j :| 0 <= j < |s.tasks| && InGo(s.tasks[j]) && s.from[j] == Some(k);
    assert InGo(Do(s, p).tasks[j]) && Do(s, p).from[j] == Some(k);
  }

  // ---------- when a group can block itself ----------

  /** Only the bodies of the tasks below `c` call `Go`. */
  ghost predicate CallersBelow(ps: seq<Step>, c: nat) {
    forall i :: 0 <= i < |ps| && ps[i].SubmitFrom? ==> ps[i].caller < c
  }

  ghost predicate FromBelow(s: State, c: nat) {
    forall i :: 0 <= i < |s.from| && s.from[i].Some? ==> s.from[i].value < c
  }

  lemma {:induction false} RunFromBelow(s: State, ps: seq<Step>, t: State, c: nat)
    requires FromBelow(s, c) && Runs(s, ps, t) && CallersBelow(ps, c)
    ensures FromBelow(t, c)
    decreases |ps|
  {
    if ps != [] {
      StepShape(s, ps[0]);
      assert CallersBelow(ps[1..], c);
      RunFromBelow(Do(s, ps[0]), ps[1..], t, c);
    }
  }

  /** A blocked group has as many calling bodies as tokens, and another task for each call. */
  lemma {:induction false} BlockedNeedsCallers(s: State, c: nat)
    requires Counters(s) && SelfBlocked(s) && FromBelow(s, c)
    ensures s.limit <= c && 2 * s.limit <= |s.tasks|
  {
    var running := Places(s.tasks, HasToken, 0);
    var waiting := set j: nat | j < |s.tasks| && s.tasks[j] == Selecting;
    TokensCount(s);
    CallersWait(s, running, waiting, c);
    BelowIsSmall(running, c);
    Disjoint(running, waiting, |s.tasks|);
  }

  lemma {:induction false} CallersWait(s: State, running: set<nat>, waiting: set<nat>, c: nat)
    requires Counters(s) && SelfBlocked(s) && FromBelow(s, c)
    requires forall i :: i in running ==> i < |s.tasks| && s.tasks[i] == Running
    requires forall j: nat :: j < |s.tasks| && s.tasks[j] == Selecting ==> j in waiting
    ensures |running| <= |waiting| && forall i :: i in running ==> i < c
  {
    var from := s.from;
    var caller := (j: nat) => if j < |from| && from[j].Some? then from[j].value else 0;
    forall i | i in running ensures i < c && exists j :: j in waiting && caller(j) == i {
      var j := WaitsFor(s, i);
      assert j in waiting && caller(j) == i;
    }
    CoverIsLarger(running, waiting, caller);
  }

  lemma {:induction false} WaitsFor(s: State, i: nat) returns (j: nat)
    requires Counters(s) && SelfBlocked(s) && i < |s.tasks| && s.tasks[i] == Running
    ensures j < |s.tasks| && s.tasks[j] == Selecting && s.from[j] == Some(i)
  {
    assert Calling(s, i);
    j :| 0 <= j < |s.tasks| && InGo(s.tasks[j]) && s.from[j] == Some(i);
  }

  lemma {:induction false} Disjoint(a: set<nat>, b: set<nat>, n: nat)
    requires a !! b && forall x :: x in a + b ==> x < n
    ensures |a| + |b| <= n
  {
    assert |a + b| == |a| + |b|;
    BelowIsSmall(a + b, n);
  }

  lemma {:induction false} TokensCount(s: State)
    requires Counters(s) && SelfBlocked(s)
    ensures var running := Places(s.tasks, HasToken, 0);
      |running| == s.limit && forall i :: i in running ==> i < |s.tasks| && s.tasks[i] == Running
  {
    forall i | 0 <= i < |s.tasks| ensures 0 <= HasToken(s.tasks[i]) <= 1 {}
    forall i | 0 <= i < |s.tasks| ensures HasToken(s.tasks[i]) == 1 ==> s.tasks[i] == Running {}
    PlacesOf(s.tasks, s.limit);
  }

  lemma {:induction false} PlacesOf(tasks: seq<Task>, limit: nat)
    requires Sum(tasks, HasToken) == limit
    ensures |Places(tasks, HasToken, 0)| == limit
    ensures forall i: nat :: i in Places(tasks, HasToken, 0) <==> i < |tasks| && HasToken(tasks[i]) == 1
  {
    SumCounts(tasks, HasToken, 0);
    assert tasks[0..] == tasks;
  }

  ghost predicate NeverBlocks(limit: nat, n: nat, c: nat) {
    forall ps, t :: Runs(Start(limit, n), ps, t) && CallersBelow(ps, c) ==> |t.from| == |t.tasks| && !SelfBlocked(t)
  }

  /** With n tasks of which c have bodies that call `Go`, the group can block itself if and only
      if it has a limit, at least that many such bodies, and a task for each of them to wait
      for. */
  lemma {:induction false} NeverBlocksIff(limit: nat, n: nat, c: nat)
    requires c <= n
    ensures NeverBlocks(limit, n, c) <==> limit == 0 || c < limit || n < 2 * limit
  {
    if limit == 0 || c < limit || n < 2 * limit {
      forall ps, t | Runs(Start(limit, n), ps, t) && CallersBelow(ps, c)
        ensures |t.from| == |t.tasks| && !SelfBlocked(t)
      {
        StartInvariant(limit, n);
        RunInvariant(Start(limit, n), ps, t);
        RunFromBelow(Start(limit, n), ps, t, c);
        if SelfBlocked(t) { BlockedNeedsCallers(t, c); }
      }
    } else {
      LeadsToBlock(limit, n);
      NestedBlocks(limit, n);
      var ps :| Runs(Start(limit, n), ps, Nested(limit, n, limit)) && CallersBelow(ps, limit);
      assert CallersBelow(ps, c);
    }
  }

  /** The first `j` tasks run. */
  function Full(limit: nat, n: nat, j: nat): State {
    Start(limit, n).(tokens := j, group := j,
                     tasks := seq(n, i => if i < j then Running else NotSubmitted),
                     starts := seq(n, i => if i < j then 1 else 0))
  }

  /** As many tasks run as there are tokens, and the first `j` of them are inside `Go`. */
  function Nested(limit: nat, n: nat, j: nat): State {
    Full(limit, n, limit).(
      tasks := seq(n, i => if i < limit then Running else if i < limit + j then Selecting else NotSubmitted),
      from := seq(n, i => if limit <= i < limit + j then Some(i - limit) else None))
  }

  lemma {:induction false} Full0(limit: nat, n: nat)
    ensures Full(limit, n, 0) == Start(limit, n)
  {
    assert Full(limit, n, 0).tasks == Start(limit, n).tasks;
    assert Full(limit, n, 0).starts == Start(limit, n).starts;
  }

  lemma {:induction false} Prepend(s: State, p: Step, ps: seq<Step>, t: State)
    requires Enabled(s, p) && Runs(Do(s, p), ps, t)
    ensures Runs(s, [p] + ps, t)
  {
    assert ([p] + ps)[1..] == ps;
  }

  /** A run from `s` to `t` in which only the bodies below `c` call `Go`. */
  ghost predicate Leads(s: State, t: State, c: nat) {
    exists ps :: Runs(s, ps, t) && CallersBelow(ps, c)
  }

  lemma {:induction false} LeadsOn(s: State, m: State, t: State, c: nat)
    requires Leads(s, m, c) && Leads(m, t, c)
    ensures Leads(s, t, c)
  {
    var ps :| Runs(s, ps, m) && CallersBelow(ps, c);
    var qs :| Runs(m, qs, t) && CallersBelow(qs, c);
    RunsConcatenate(s, ps, m, qs, t);
    assert CallersBelow(ps + qs, c);
  }

  /** The next task has its token. */
  function Admitted(limit: nat, n: nat, j: nat): State
    requires j < n
  {
    Full(limit, n, j).(tokens := j + 1, tasks := Full(limit, n, j).tasks[j := Adding])
  }

  lemma {:induction false} TwoSteps(s: State, a: Step, m: State, b: Step, t: State)
    requires Enabled(s, a) && Do(s, a) == m && Enabled(m, b) && Do(m, b) == t
    requires !a.SubmitFrom? && !b.SubmitFrom?
    ensures Leads(s, t, 0)
  {
    Prepend(m, b, [], t);
    Prepend(s, a, [b] + [], t);
    assert CallersBelow([a] + ([b] + []), 0);
  }

  lemma {:induction false} TakesToken(limit: nat, n: nat, j: nat)
    requires j < limit && j < n
    ensures Leads(Full(limit, n, j), Admitted(limit, n, j), 0)
  {
    var s := Full(limit, n, j);
    var m := Do(s, Submit(j));
    assert m.tasks[j := Adding] == s.tasks[j := Adding];
    TwoSteps(s, Submit(j), m, TakeToken(j), Admitted(limit, n, j));
  }

  lemma {:induction false} EntersBody(limit: nat, n: nat, j: nat)
    requires j < limit && j < n
    ensures Leads(Admitted(limit, n, j), Full(limit, n, j + 1), 0)
  {
    var s := Admitted(limit, n, j);
    var m := Do(s, Add(j));
    assert m.tasks[j := Running] == Full(limit, n, j + 1).tasks;
    assert m.starts[j := 1] == Full(limit, n, j + 1).starts;
    TwoSteps(s, Add(j), m, Begin(j), Full(limit, n, j + 1));
  }

  lemma {:induction false} RunsConcatenate(s: State, ps: seq<Step>, m: State, qs: seq<Step>, t: State)
    requires Runs(s, ps, m) && Runs(m, qs, t)
    ensures Runs(s, ps + qs, t)
    decreases |ps|
  {
    if ps == [] {
      assert ps + qs == qs;
    } else {
      assert (ps + qs)[0] == ps[0] && (ps + qs)[1..] == ps[1..] + qs;
      RunsConcatenate(Do(s, ps[0]), ps[1..], m, qs, t);
    }
  }

  lemma {:induction false} OneMoreRuns(limit: nat, n: nat, j: nat)
    requires j < limit && j < n
    ensures Leads(Full(limit, n, j), Full(limit, n, j + 1), 0)
  {
    TakesToken(limit, n, j);
    EntersBody(limit, n, j);
    LeadsOn(Full(limit, n, j), Admitted(limit, n, j), Full(limit, n, j + 1), 0);
  }

  lemma {:induction false} LeadsThrough(stage: nat -> State, j: nat, k: nat, c: nat)
    requires j <= k && forall i :: j <= i < k ==> Leads(stage(i), stage(i + 1), c)
    ensures Leads(stage(j), stage(k), c)
    decreases k - j
  {
    if j < k {
      LeadsThrough(stage, j + 1, k, c);
      LeadsOn(stage(j), stage(j + 1), stage(k), c);
    } else {
      LeadsNowhere(stage(j), c);
    }
  }

  lemma {:induction false} LeadsNowhere(s: State, c: nat)
    ensures Leads(s, s, c)
  {
    assert Runs(s, [], s) && CallersBelow([], c);
  }

  lemma {:induction false} Nested0(limit: nat, n: nat)
    ensures Nested(limit, n, 0) == Full(limit, n, limit)
  {
    assert Nested(limit, n, 0).tasks == Full(limit, n, limit).tasks;
    assert Nested(limit, n, 0).from == Full(limit, n, limit).from;
  }

  lemma {:induction false} CallsGo(limit: nat, n: nat, j: nat)
    requires j < limit && 2 * limit <= n
    ensures Leads(Nested(limit, n, j), Nested(limit, n, j + 1), limit)
  {
    var s := Nested(limit, n, j);
    var p := SubmitFrom(limit + j, j);
    assert Do(s, p).tasks == Nested(limit, n, j + 1).tasks;
    assert Do(s, p).from == Nested(limit, n, j + 1).from;
    Prepend(s, p, [], Nested(limit, n, j + 1));
    assert CallersBelow([p] + [], limit);
  }

  lemma {:induction false} LeadsToFull(limit: nat, n: nat)
    requires limit <= n
    ensures Leads(Start(limit, n), Full(limit, n, limit), limit)
  {
    var stage := (j: nat) => Full(limit, n, j);
    forall i | 0 <= i < limit ensures Leads(stage(i), stage(i + 1), limit) {
      OneMoreRuns(limit, n, i);
      LeadsMore(Full(limit, n, i), Full(limit, n, i + 1), 0, limit);
    }
    LeadsThrough(stage, 0, limit, limit);
    Full0(limit, n);
  }

  lemma {:induction false} LeadsMore(s: State, t: State, c: nat, d: nat)
    requires c <= d && Leads(s, t, c)
    ensures Leads(s, t, d)
  {
    var ps :| Runs(s, ps, t) && CallersBelow(ps, c);
    assert CallersBelow(ps, d);
  }

  lemma {:induction false} LeadsToBlock(limit: nat, n: nat)
    requires 2 * limit <= n
    ensures Leads(Start(limit, n), Nested(limit, n, limit), limit)
  {
    LeadsToFull(limit, n);
    var stage := (j: nat) => Nested(limit, n, j);
    forall i | 0 <= i < limit ensures Leads(stage(i), stage(i + 1), limit) {
      CallsGo(limit, n, i);
    }
    LeadsThrough(stage, 0, limit, limit);
    Nested0(limit, n);
    LeadsOn(Start(limit, n), Full(limit, n, limit), Nested(limit, n, limit), limit);
  }

  lemma {:induction false} NestedBlocks(limit: nat, n: nat)
    requires 0 < limit && 2 * limit <= n
    ensures SelfBlocked(Nested(limit, n, limit))
  {
    var s := Nested(limit, n, limit);
    forall i | 0 <= i < limit ensures Calling(s, i) {
      assert InGo(s.tasks[limit + i]) && s.from[limit + i] == Some(i);
    }
  }

  // ---------- every run ends ----------

  ghost function StagesLeft(t: Task): int {
    match t
    case NotSubmitted => 10 case Selecting => 9 case Adding => 8 case Spawned => 7 case Running => 6
    case Failing(_) => 5 case Writing(_) => 4 case Cancelling(_) => 3 case Blocked(_) => 3
    case Exiting => 2 case Leaving => 1 case Finished => 0 case Dropped => 0
  }

  ghost function WorkLeft(s: State): int {
    Sum(s.tasks, StagesLeft) + (if s.cause == NotDone then 1 else 0)
    + match s.waiter case NotWaiting => 2 case Waiting => 1 case Returned(_) => 0
  }

  lemma {:induction false} StepDoesWork(s: State, p: Step)
    requires Enabled(s, p)
    ensures WorkLeft(Do(s, p)) < WorkLeft(s)
  {
    StepShape(s, p);
    if IsTaskStep(p) {
      TaskAdvances(s, p);
      SumUpdate(s.tasks, p.i, Becomes(s, p), StagesLeft);
    }
  }

  lemma {:induction false} TaskAdvances(s: State, p: Step)
    requires Enabled(s, p) && IsTaskStep(p)
    ensures StagesLeft(Becomes(s, p)) < StagesLeft(s.tasks[p.i])
    ensures s.cause != NotDone ==> Do(s, p).cause != NotDone
  {
  }

  /** If every body returns, `Wait` does: no run is longer than this bound, and a run that can
      go no further has returned from `Wait`. */
  lemma {:induction false} RunsAreBounded(s: State, ps: seq<Step>, t: State)
    requires Runs(s, ps, t)
    ensures |ps| <= WorkLeft(s) - WorkLeft(t)
    decreases |ps|
  {
    if ps != [] {
      StepDoesWork(s, ps[0]);
      RunsAreBounded(Do(s, ps[0]), ps[1..], t);
    }
  }

  /** Nothing can happen any more, unless the parent cancels. */
  ghost predicate Quiet(s: State) {
    forall p: Step :: !p.ParentCancels? ==> !Enabled(s, p)
  }

  /** A group at rest has returned from `Wait`, exactly unless it has blocked itself. */
  lemma {:induction false} QuietGroupHasReturned(limit: nat, n: nat, t: State)
    requires Reachable(limit, n, t) && Quiet(t)
    ensures |t.from| == |t.tasks| && (t.waiter.Returned? <==> !SelfBlocked(t))
  {
    ReachableInvariant(limit, n, t);
    if SelfBlocked(t) {
      var i := SumPositive(t.tasks, HasToken);
    } else {
      QuietWaiterReturned(t);
    }
  }

  lemma {:induction false} QuietWaiterReturned(s: State)
    requires Counters(s) && OneWinner(s) && Quiet(s) && !SelfBlocked(s)
    ensures s.waiter.Returned?
  {
    forall i | 0 <= i < |s.tasks| ensures Over(s.tasks[i]) {
      if !Over(s.tasks[i]) { SomeTaskCanStep(s, i); }
    }
    SumConstant(s.tasks, InGroup, 0);
    assert !Enabled(s, CallWait) && !Enabled(s, WaitReturns);
  }
}
