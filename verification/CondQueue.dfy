/** The unbounded queue guarded by a mutex and a condition variable.

    One step is one critical section. A consumer inside `Pop` is asleep in `Wait`, or has
    been woken and is waiting for the lock again, or is outside. */
module CondQueue {

  datatype State = State(
    buf: seq<int>, closed: bool,
    asleep: set<nat>, woken: set<nat>)

  datatype Step =
    | Push(v: int, wake: nat)
    | Pop(c: nat)
    | Resume(c: nat)
    | Close

  datatype Outcome = Sleeps | Gets(v: int) | GetsNothing

  const Empty := State([], false, {}, {})

  /** `Signal` wakes one sleeper of the runtime's choosing, if there is one. */
  predicate Enabled(s: State, p: Step) {
    match p
    case Push(_, wake) => s.asleep != {} ==> wake in s.asleep
    case Pop(c) => c !in s.asleep && c !in s.woken
    case Resume(c) => c in s.woken
    case Close => true
  }

  function PushStep(s: State, v: int, wake: nat): State {
    s.(buf := s.buf + [v],
       asleep := s.asleep - {wake},
       woken := if s.asleep == {} then s.woken else s.woken + {wake})
  }

  /** One pass of consumer `c` through the loop test of `Pop`, holding the lock. */
  function PopStep(s: State, c: nat): (State, Outcome) {
    var t := s.(woken := s.woken - {c});
    if s.buf == [] && !s.closed then (t.(asleep := t.asleep + {c}), Sleeps)
    else if s.buf == [] then (t, GetsNothing)
    else (t.(buf := s.buf[1..]), Gets(s.buf[0]))
  }

  function CloseStep(s: State): State {
    s.(closed := true, asleep := {}, woken := s.woken + s.asleep)
  }

  function Do(s: State, p: Step): State
    requires Enabled(s, p)
  {
    match p
    case Push(v, wake) => PushStep(s, v, wake)
    case Pop(c) => PopStep(s, c).0
    case Resume(c) => PopStep(s, c).0
    case Close => CloseStep(s)
  }

  ghost predicate Runs(s: State, ps: seq<Step>, t: State)
    decreases |ps|
  {
    if ps == [] then t == s else Enabled(s, ps[0]) && Runs(Do(s, ps[0]), ps[1..], t)
  }

  // ---------- invariants ----------

  ghost predicate Invariant(s: State) {
    && s.asleep !! s.woken
    && (s.asleep != {} ==> |s.buf| <= |s.woken|)
    && (s.closed ==> s.asleep == {})
  }

  lemma {:induction false} StepInvariant(s: State, p: Step)
    requires Invariant(s) && Enabled(s, p)
    ensures Invariant(Do(s, p))
  {
    match p {
      case Push(v, wake) =>
      case Pop(c) => PopInvariant(s, c);
      case Resume(c) => PopInvariant(s, c);
      case Close =>
    }
  }

  lemma {:induction false} PopInvariant(s: State, c: nat)
    requires Invariant(s) && c !in s.asleep
    ensures Invariant(PopStep(s, c).0)
  {
    assert |s.woken - {c}| >= |s.woken| - 1 && (c !in s.woken ==> s.woken - {c} == s.woken);
  }

  lemma {:induction false} RunInvariant(s: State, ps: seq<Step>, t: State)
    requires Invariant(s) && Runs(s, ps, t)
    ensures Invariant(t)
    decreases |ps|
  {
    if ps != [] {
      StepInvariant(s, ps[0]);
      RunInvariant(Do(s, ps[0]), ps[1..], t);
    }
  }

  ghost predicate Reachable(t: State) {
    exists ps :: Runs(Empty, ps, t)
  }

  // ---------- what callers may rely on ----------

  /** No lost wakeup: while anybody sleeps, every buffered value has a woken consumer of its
      own on the way back to the lock. */
  lemma {:induction false} NoLostWakeup(t: State)
    requires Reachable(t)
    ensures t.asleep != {} ==> |t.buf| <= |t.woken|
    ensures t.closed ==> t.asleep == {}
  {
    var ps :| Runs(Empty, ps, t);
    RunInvariant(Empty, ps, t);
  }

  /** So a consumer inside `Pop` never waits beside a value or after a close: some woken
      consumer can take the lock, and what it gets is not sleep. */
  lemma {:induction false} WaitersMakeProgress(t: State) returns (c: nat)
    requires Reachable(t) && t.asleep + t.woken != {} && (t.buf != [] || t.closed)
    ensures Enabled(t, Resume(c)) && PopStep(t, c).1 != Sleeps
  {
    NoLostWakeup(t);
    assert t.woken == {} ==> |t.woken| == 0;
    c :| c in t.woken;
  }

  // ---------- what goes in comes out ----------

  /** The values a schedule pushes, in lock order. */
  function Pushed(ps: seq<Step>): seq<int> {
    if ps == [] then []
    else (if ps[0].Push? then [ps[0].v] else []) + Pushed(ps[1..])
  }

  /** What one step answers to its caller. */
  function AnswerOf(s: State, p: Step): seq<int> {
    if (p.Pop? || p.Resume?) && PopStep(s, p.c).1.Gets? then [PopStep(s, p.c).1.v] else []
  }

  /** The values the calls of `Pop` answer on a schedule, in lock order. */
  ghost function Answers(s: State, ps: seq<Step>, t: State): seq<int>
    requires Runs(s, ps, t)
    decreases |ps|
  {
    if ps == [] then [] else AnswerOf(s, ps[0]) + Answers(Do(s, ps[0]), ps[1..], t)
  }

  lemma {:induction false} Regroup<T>(
    first: seq<T>, rest: seq<T>, end: seq<T>, mid: seq<T>, start: seq<T>, one: seq<T>, more: seq<T>)
    requires rest + end == mid + more && first + mid == start + one
    ensures first + rest + end == start + (one + more)
  {
    assert first + rest + end == first + (rest + end) == first + mid + more;
    assert start + (one + more) == start + one + more;
  }

  lemma {:induction false} AnswersThenBuffer(s: State, ps: seq<Step>, t: State)
    requires Runs(s, ps, t)
    ensures Answers(s, ps, t) + t.buf == s.buf + Pushed(ps)
    decreases |ps|
  {
    if ps != [] {
      var u := Do(s, ps[0]);
      var pushed := if ps[0].Push? then [ps[0].v] else [];
      AnswersThenBuffer(u, ps[1..], t);
      assert AnswerOf(s, ps[0]) + u.buf == s.buf + pushed;
      Regroup(AnswerOf(s, ps[0]), Answers(u, ps[1..], t), t.buf, u.buf, s.buf, pushed, Pushed(ps[1..]));
    }
  }

  /** Values come out in the order they went in, none lost and none twice: what the calls of
      `Pop` have answered, followed by the buffer, is what was pushed. */
  lemma {:induction false} FirstInFirstOut(ps: seq<Step>, t: State)
    requires Runs(Empty, ps, t)
    ensures Answers(Empty, ps, t) + t.buf == Pushed(ps)
  {
    AnswersThenBuffer(Empty, ps, t);
  }

  /** `Pop` answers "nothing" exactly when the queue is closed and everything pushed so far
      has been answered. */
  lemma {:induction false} NothingOnlyAtTheEnd(ps: seq<Step>, t: State, c: nat)
    requires Runs(Empty, ps, t)
    ensures PopStep(t, c).1 == GetsNothing <==> t.closed && Answers(Empty, ps, t) == Pushed(ps)
  {
    FirstInFirstOut(ps, t);
    assert Answers(Empty, ps, t) == Pushed(ps) ==> |t.buf| == 0;
  }

  // ---------- nobody is forgotten ----------

  /** The consumers inside `Pop` that have not been answered. */
  ghost function Waiting(s: State): set<nat> {
    s.asleep + s.woken
  }

  /** A consumer begins to wait only by its own call, and stops only when it is answered. */
  lemma {:induction false} StepWaiters(s: State, p: Step)
    requires Enabled(s, p)
    ensures var t := Do(s, p);
      && (p.Push? || p.Close? ==> Waiting(t) == Waiting(s))
      && (p.Pop? ==> Waiting(t) == Waiting(s) + if PopStep(s, p.c).1 == Sleeps then {p.c} else {})
      && (p.Resume? && s.asleep !! s.woken ==>
            Waiting(t) == Waiting(s) - if PopStep(s, p.c).1 == Sleeps then {} else {p.c})
  {
    var t := Do(s, p);
    match p {
      case Push(v, wake) => assert Waiting(t) == Waiting(s);
      case Close => assert Waiting(t) == Waiting(s);
      case Pop(c) => assert Waiting(t) == Waiting(s) + if PopStep(s, c).1 == Sleeps then {c} else {};
      case Resume(c) =>
        assert s.asleep !! s.woken ==>
          Waiting(t) == Waiting(s) - if PopStep(s, c).1 == Sleeps then {} else {c};
    }
  }

  /** A push wakes exactly one sleeper, if there is any, and a close every one. */
  lemma {:induction false} WakesOneOrAll(s: State, p: Step)
    requires Invariant(s) && Enabled(s, p)
    ensures p.Push? && s.asleep != {} ==>
      |Do(s, p).asleep| == |s.asleep| - 1 && |Do(s, p).woken| == |s.woken| + 1
    ensures p.Push? && s.asleep == {} ==> Do(s, p).asleep == {} && Do(s, p).woken == s.woken
    ensures p.Close? ==> Do(s, p).asleep == {} && Do(s, p).woken == s.woken + s.asleep
  {
  }

  /** Somewhere on the schedule `c` gets the lock back and is answered. */
  ghost predicate IsAnswered(s: State, ps: seq<Step>, t: State, c: nat)
    requires Runs(s, ps, t)
    decreases |ps|
  {
    ps != [] &&
    ((ps[0] == Resume(c) && PopStep(s, c).1 != Sleeps) || IsAnswered(Do(s, ps[0]), ps[1..], t, c))
  }

  /** A waiting consumer waits on until it is answered. */
  lemma {:induction false} WaitsUntilAnswered(s: State, ps: seq<Step>, t: State, c: nat)
    requires Invariant(s) && Runs(s, ps, t) && c in Waiting(s)
    ensures c in Waiting(t) || IsAnswered(s, ps, t, c)
    decreases |ps|
  {
    if ps != [] {
      StepInvariant(s, ps[0]);
      StepWaiters(s, ps[0]);
      if c in Waiting(Do(s, ps[0])) { WaitsUntilAnswered(Do(s, ps[0]), ps[1..], t, c); }
    }
  }

  /** When no consumer can take the lock back, a closed queue has answered every waiter, and an
      open one holds nothing. */
  lemma {:induction false} QuietQueueHasAnswered(s: State, ps: seq<Step>, t: State, c: nat)
    requires Invariant(s) && Runs(s, ps, t) && c in Waiting(s) && forall d :: !Enabled(t, Resume(d))
    ensures IsAnswered(s, ps, t, c) || (c in t.asleep && !t.closed && t.buf == [])
  {
    WaitsUntilAnswered(s, ps, t, c);
    RunInvariant(s, ps, t);
    assert forall d :: d in t.woken ==> Enabled(t, Resume(d));
    assert t.woken == {};
  }

  // ---------- after the close ----------

  /** After `Close` each waiting consumer returns the next time it gets the lock: with values
      left in order, then with nothing, and it is never put back to sleep. */
  lemma {:induction false} ClosedStaysAwake(s: State, ps: seq<Step>, t: State)
    requires Invariant(s) && s.closed && Runs(s, ps, t)
    ensures t.closed && t.asleep == {} && t.woken <= s.woken
    decreases |ps|
  {
    if ps != [] {
      StepInvariant(s, ps[0]);
      ClosedStaysAwake(Do(s, ps[0]), ps[1..], t);
    }
  }

  // ---------- the queue object ----------

  class UnboundedQueue {
    var buf: seq<int>
    var closed: bool
    ghost var asleep: set<nat>
    ghost var woken: set<nat>

    ghost function Abs(): State
      reads this
    {
      State(buf, closed, asleep, woken)
    }

    constructor ()
      ensures Abs() == Empty
    {
      buf, closed := [], false;
      asleep, woken := {}, {};
    }

    method PushLocked(v: int, ghost wake: nat)
      requires Enabled(Abs(), Push(v, wake))
      modifies this
      ensures Abs() == PushStep(old(Abs()), v, wake)
    {
      buf := buf + [v];
      woken := if asleep == {} then woken else woken + {wake};
      asleep := asleep - {wake};
    }

    /** One pass through `Pop`'s loop test; `sleeps` means the caller is now in `Wait`. */
    method PopLocked(ghost c: nat) returns (v: int, ok: bool, sleeps: bool)
      requires Enabled(Abs(), Pop(c)) || Enabled(Abs(), Resume(c))
      modifies this
      ensures Abs() == PopStep(old(Abs()), c).0
      ensures PopStep(old(Abs()), c).1 == if sleeps then Sleeps else if ok then Gets(v) else GetsNothing
      ensures !ok ==> v == 0
    {
      v, ok, sleeps := 0, false, false;
      woken := woken - {c};
      if |buf| == 0 && !closed {
        asleep := asleep + {c};
        sleeps := true;
        return;
      }
      if |buf| == 0 { return; }
      v, ok := buf[0], true;
      buf := buf[0 := 0];
      buf := buf[1..];
    }

    method CloseLocked()
      modifies this
      ensures Abs() == CloseStep(old(Abs()))
    {
      closed := true;
      woken := woken + asleep;
      asleep := {};
    }
  }
}
