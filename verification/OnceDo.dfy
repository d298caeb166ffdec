/** Double-checked locking: n threads call `countingDoubleOnce.Do`.

    Every atomic load, add and store, every lock operation, and the call of `f` is a step. */
module OnceDo {
  import opened Sums

  /** Where a caller is. `Checked` has seen `done == 0` on the fast path; `Wanting` is about to
      lock; `Holding` has the lock and is about to load `done` again; `Running` is inside `f`;
      `Storing` is about to run the deferred `done.Store(1)`; `Unlocking` the deferred unlock. */
  datatype Thread =
    | Calling | FastReturning | Checked | Wanting | Holding | Running | Storing | Unlocking | Returned

  datatype State = State(
    done: bool, locked: bool, fast: int, slow: int,
    threads: seq<Thread>,
    begun: nat, completed: nat)

  datatype Step =
    | Load(i: nat) | CountFast(i: nat) | CountSlow(i: nat) | Lock(i: nat) | Recheck(i: nat)
    | Finish(i: nat) | Store(i: nat) | Unlock(i: nat)

  function Start(n: nat): State {
    State(false, false, 0, 0, seq(n, _ => Calling), 0, 0)
  }

  predicate Enabled(s: State, p: Step) {
    p.i < |s.threads| &&
    match p
    case Load(i) => s.threads[i] == Calling
    case CountFast(i) => s.threads[i] == FastReturning
    case CountSlow(i) => s.threads[i] == Checked
    case Lock(i) => s.threads[i] == Wanting && !s.locked
    case Recheck(i) => s.threads[i] == Holding
    case Finish(i) => s.threads[i] == Running
    case Store(i) => s.threads[i] == Storing
    case Unlock(i) => s.threads[i] == Unlocking
  }

  function Becomes(s: State, p: Step): Thread {
    match p
    case Load(_) => if s.done then FastReturning else Checked
    case CountFast(_) => Returned
    case CountSlow(_) => Wanting
    case Lock(_) => Holding
    case Recheck(_) => if s.done then Unlocking else Running
    case Finish(_) => Storing
    case Store(_) => Unlocking
    case Unlock(_) => Returned
  }

  function Do(s: State, p: Step): State
    requires Enabled(s, p)
  {
    var t := s.(threads := s.threads[p.i := Becomes(s, p)]);
    match p
    case Load(_) => t
    case CountFast(_) => t.(fast := s.fast + 1)
    case CountSlow(_) => t.(slow := s.slow + 1)
    case Lock(_) => t.(locked := true)
    case Recheck(_) => if s.done then t else t.(begun := s.begun + 1)
    case Finish(_) => t.(completed := s.completed + 1)
    case Store(_) => t.(done := true)
    case Unlock(_) => t.(locked := false)
  }

  ghost predicate Runs(s: State, ps: seq<Step>, t: State)
    decreases |ps|
  {
    if ps == [] then t == s else Enabled(s, ps[0]) && Runs(Do(s, ps[0]), ps[1..], t)
  }

  // ---------- invariants ----------

  predicate InLock(t: Thread) {
    t == Holding || t == Running || t == Storing || t == Unlocking
  }

  predicate InFlight(t: Thread) {
    t == Running || t == Storing
  }

  ghost function LockCount(t: Thread): int {
    if InLock(t) then 1 else 0
  }

  /** Callers that are still on their way to a counter. */
  ghost function Uncounted(t: Thread): int {
    if t == Calling || t == FastReturning || t == Checked then 1 else 0
  }

  ghost predicate Mutex(s: State) {
    Sum(s.threads, LockCount) == if s.locked then 1 else 0
  }

  /** `f` has begun exactly if it is in flight or has completed, and `done` says which. */
  ghost predicate OnceOnly(s: State) {
    && s.completed <= s.begun <= 1
    && (s.done ==> s.completed == 1)
    && (s.begun == 1 && !s.done ==> s.locked)
    && (forall i :: 0 <= i < |s.threads| && InFlight(s.threads[i]) ==>
          !s.done && s.begun == 1 && s.completed == if s.threads[i] == Storing then 1 else 0)
    && (forall i :: 0 <= i < |s.threads| && s.threads[i] == Holding ==> s.begun == 1 ==> s.done)
  }

  ghost predicate KnowersAreRight(s: State) {
    forall i :: 0 <= i < |s.threads| && Knows(s.threads[i]) ==> s.done
  }

  /** The thread has established that `done` is set. */
  predicate Knows(t: Thread) {
    t == FastReturning || t == Unlocking || t == Returned
  }

  ghost predicate Counted(s: State) {
    s.fast + s.slow + Sum(s.threads, Uncounted) == |s.threads|
  }

  ghost predicate Invariant(s: State) {
    Mutex(s) && OnceOnly(s) && KnowersAreRight(s) && Counted(s)
  }

  lemma {:induction false} OnlyOneInLock(ts: seq<Thread>, i: nat, j: nat)
    requires i < j < |ts| && InLock(ts[i]) && InLock(ts[j])
    ensures Sum(ts, LockCount) >= 2
  {
    if i == 0 {
      SumAtLeast(ts[1..], j - 1, LockCount);
    } else {
      OnlyOneInLock(ts[1..], i - 1, j - 1);
    }
  }

  lemma {:induction false} Exclusive(s: State, i: nat, j: nat)
    requires Mutex(s) && i < |s.threads| && j < |s.threads| && InLock(s.threads[i]) && InLock(s.threads[j])
    ensures i == j && s.locked
  {
    if i < j { OnlyOneInLock(s.threads, i, j); }
    if j < i { OnlyOneInLock(s.threads, j, i); }
    SumAtLeast(s.threads, i, LockCount);
  }

  lemma {:induction false} StepMutex(s: State, p: Step)
    requires Mutex(s) && Enabled(s, p)
    ensures Mutex(Do(s, p))
  {
    SumUpdate(s.threads, p.i, Becomes(s, p), LockCount);
    if InLock(s.threads[p.i]) { Exclusive(s, p.i, p.i); }
  }

  lemma {:induction false} StepOnceOnly(s: State, p: Step)
    requires Mutex(s) && OnceOnly(s) && KnowersAreRight(s) && Enabled(s, p)
    ensures OnceOnly(Do(s, p))
  {
    forall j | 0 <= j < |s.threads| && InLock(s.threads[j]) && InLock(s.threads[p.i]) ensures j == p.i {
      Exclusive(s, j, p.i);
    }
    forall j | 0 <= j < |s.threads| && InLock(s.threads[j]) ensures s.locked { Exclusive(s, j, j); }
  }

  lemma {:induction false} StepKnowers(s: State, p: Step)
    requires KnowersAreRight(s) && Enabled(s, p)
    ensures KnowersAreRight(Do(s, p))
  {
  }

  lemma {:induction false} StepCounted(s: State, p: Step)
    requires Counted(s) && Enabled(s, p)
    ensures Counted(Do(s, p))
  {
    SumUpdate(s.threads, p.i, Becomes(s, p), Uncounted);
  }

  lemma {:induction false} RunInvariant(s: State, ps: seq<Step>, t: State)
    requires Invariant(s) && Runs(s, ps, t)
    ensures Invariant(t) && |t.threads| == |s.threads|
    decreases |ps|
  {
    if ps != [] {
      StepMutex(s, ps[0]);
      StepOnceOnly(s, ps[0]);
      StepKnowers(s, ps[0]);
      StepCounted(s, ps[0]);
      RunInvariant(Do(s, ps[0]), ps[1..], t);
    }
  }

  lemma {:induction false} StartInvariant(n: nat)
    ensures Invariant(Start(n))
  {
    SumConstant(Start(n).threads, LockCount, 0);
    SumConstant(Start(n).threads, Uncounted, 1);
  }

  // ---------- results ----------

  ghost predicate AllReturned(s: State) {
    forall i :: 0 <= i < |s.threads| ==> s.threads[i] == Returned
  }

  // ---------- reading a schedule ----------

  /** How often a thread enters `f`. */
  ghost function Entries(s: State, ps: seq<Step>, t: State): int
    requires Runs(s, ps, t)
    decreases |ps|
  {
    if ps == [] then 0
    else
      var u := Do(s, ps[0]);
      (if u.threads[ps[0].i] == Running then 1 else 0) + Entries(u, ps[1..], t)
  }

  ghost function LeavesF(p: Step): int {
    if p.Finish? then 1 else 0
  }

  ghost function TakesFast(p: Step): int {
    if p.CountFast? then 1 else 0
  }

  ghost function TakesSlow(p: Step): int {
    if p.CountSlow? then 1 else 0
  }

  lemma {:induction false} RunIsRecorded(s: State, ps: seq<Step>, t: State)
    requires Runs(s, ps, t)
    ensures t.begun == s.begun + Entries(s, ps, t) && t.completed == s.completed + Sum(ps, LeavesF)
    ensures t.fast == s.fast + Sum(ps, TakesFast) && t.slow == s.slow + Sum(ps, TakesSlow)
    decreases |ps|
  {
    if ps != [] { RunIsRecorded(Do(s, ps[0]), ps[1..], t); }
  }

  /** In every interleaving `f` is entered at most once; no call of `Do`, fast or slow, returns
      before `f` has been left; and when all have returned, `f` has run exactly once and the two
      counters, which count the fast and the slow calls, add up to the number of calls. */
  lemma {:induction false} RunsExactlyOnce(n: nat, ps: seq<Step>, t: State)
    requires Runs(Start(n), ps, t)
    ensures Sum(ps, LeavesF) <= Entries(Start(n), ps, t) <= 1
    ensures forall i :: 0 <= i < |t.threads| && t.threads[i] == Returned ==> Sum(ps, LeavesF) == 1
    ensures t.fast == Sum(ps, TakesFast) && t.slow == Sum(ps, TakesSlow)
    ensures AllReturned(t) ==> t.fast + t.slow == n
    ensures AllReturned(t) && n > 0 ==> Entries(Start(n), ps, t) == 1 == Sum(ps, LeavesF)
  {
    StartInvariant(n);
    RunInvariant(Start(n), ps, t);
    RunIsRecorded(Start(n), ps, t);
    if AllReturned(t) {
      SumConstant(t.threads, Uncounted, 0);
      if n > 0 { assert Knows(t.threads[0]); }
    }
  }

  /** `runCountingOnceAfterFirst`: after a completed warm-up call, all n further calls take the
      fast path, none enters `f`, and the result is `(n, 1)`. */
  lemma {:induction false} WarmCallsAreFast(n: nat, ps: seq<Step>, t: State)
    requires Runs(Warm(n), ps, t)
    ensures t.slow == 1 && Sum(ps, TakesSlow) == 0 && Entries(Warm(n), ps, t) == 0
    ensures AllReturned(t) ==> t.fast == Sum(ps, TakesFast) == n
  {
    SumConstant(Warm(n).threads, Uncounted, 1);
    WarmRun(Warm(n), ps, t);
    RunIsRecorded(Warm(n), ps, t);
    if AllReturned(t) { SumConstant(t.threads, Uncounted, 0); }
  }

  function Warm(n: nat): State {
    State(true, false, 0, 1, seq(n, _ => Calling), 1, 1)
  }

  /** The states of a single call, from its start to its return. */
  function SlowCall(i: nat): State {
    match i
    case 0 => State(false, false, 0, 0, [Calling], 0, 0)
    case 1 => State(false, false, 0, 0, [Checked], 0, 0)
    case 2 => State(false, false, 0, 1, [Wanting], 0, 0)
    case 3 => State(false, true, 0, 1, [Holding], 0, 0)
    case 4 => State(false, true, 0, 1, [Running], 1, 0)
    case 5 => State(false, true, 0, 1, [Storing], 1, 1)
    case 6 => State(true, true, 0, 1, [Unlocking], 1, 1)
    case _ => State(true, false, 0, 1, [Returned], 1, 1)
  }

  function SlowCallStep(i: nat): Step {
    match i
    case 0 => Load(0)
    case 1 => CountSlow(0)
    case 2 => Lock(0)
    case 3 => Recheck(0)
    case 4 => Finish(0)
    case 5 => Store(0)
    case _ => Unlock(0)
  }

  lemma {:induction false} SlowCallSteps(i: nat)
    requires i < 7
    ensures Enabled(SlowCall(i), SlowCallStep(i)) && Do(SlowCall(i), SlowCallStep(i)) == SlowCall(i + 1)
  {
    var s := SlowCall(i);
    assert s.threads[0 := Becomes(s, SlowCallStep(i))] == SlowCall(i + 1).threads;
  }

  lemma {:induction false} SlowCallLeads(i: nat)
    requires i <= 7
    ensures Leads(SlowCall(i), SlowCall(7))
    decreases 7 - i
  {
    if i < 7 {
      SlowCallSteps(i);
      SlowCallLeads(i + 1);
      StepFirst(SlowCall(i), SlowCallStep(i), SlowCall(i + 1), SlowCall(7));
    } else {
      assert Runs(SlowCall(7), [], SlowCall(7));
    }
  }

  /** The warm state is the one a single call leaves behind. */
  lemma {:induction false} WarmIsAfterOneCall()
    ensures Leads(Start(1), Warm(0).(threads := [Returned]))
  {
    SlowCallLeads(0);
    assert Start(1) == SlowCall(0);
  }

  ghost predicate Leads(s: State, t: State) {
    exists ps :: Runs(s, ps, t)
  }

  lemma {:induction false} StepFirst(s: State, p: Step, u: State, t: State)
    requires Enabled(s, p) && Do(s, p) == u && Leads(u, t)
    ensures Leads(s, t)
  {
    var ps :| Runs(u, ps, t);
    var qs := [p] + ps;
    assert qs[1..] == ps;
    assert Runs(s, qs, t);
  }

  lemma {:induction false} WarmRun(s: State, ps: seq<Step>, t: State)
    requires Runs(s, ps, t) && s.done && s.slow == 1 && s.begun == 1
    requires forall i :: 0 <= i < |s.threads| ==> s.threads[i] in {Calling, FastReturning, Returned}
    requires s.fast + Sum(s.threads, Uncounted) == |s.threads|
    ensures t.slow == 1 && t.begun == 1 && |t.threads| == |s.threads|
    ensures t.fast + Sum(t.threads, Uncounted) == |t.threads|
    decreases |ps|
  {
    if ps != [] {
      SumUpdate(s.threads, ps[0].i, Becomes(s, ps[0]), Uncounted);
      WarmRun(Do(s, ps[0]), ps[1..], t);
    }
  }

  /** Nobody deadlocks: until all calls have returned some step is enabled (`f` itself is
      assumed to return, and not to call `Do` again). */
  lemma {:induction false} SomeThreadCanStep(s: State, i: nat) returns (p: Step)
    requires Invariant(s) && i < |s.threads| && s.threads[i] != Returned
    ensures Enabled(s, p)
  {
    var k := i;
    if s.threads[k] == Wanting && s.locked { k := SumPositive(s.threads, LockCount); }
    match s.threads[k] {
      case Calling => p := Load(k);
      case FastReturning => p := CountFast(k);
      case Checked => p := CountSlow(k);
      case Wanting => p := Lock(k);
      case Holding => p := Recheck(k);
      case Running => p := Finish(k);
      case Storing => p := Store(k);
      case Unlocking => p := Unlock(k);
    }
  }
}
