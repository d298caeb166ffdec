/** The weighted semaphore: a counter under a mutex, with a condition variable whose
    `Broadcast` wakes every waiter. One step is one critical section. Weights and the
    counter are 64-bit integers that wrap around. */
module Semaphore {
  import opened Sums
  import opened Int64

  datatype Thread = Outside | Asleep(n: int) | Woken(n: int) | Holds(n: int)

  datatype State = State(max: int, cur: int, threads: seq<Thread>)

  datatype Step = Acquire(i: nat, n: int) | Resume(i: nat) | Release(i: nat)

  /** The loop test of `acquire`. */
  predicate MustWait(s: State, n: int) {
    Wrap(s.cur + n) > s.max
  }

  function TryAcquire(s: State, i: nat, n: int): State
    requires i < |s.threads|
  {
    if MustWait(s, n) then s.(threads := s.threads[i := Asleep(n)])
    else s.(cur := Wrap(s.cur + n), threads := s.threads[i := Holds(n)])
  }

  function Wake(t: Thread): Thread {
    if t.Asleep? then Woken(t.n) else t
  }

  function ReleaseStep(s: State, i: nat, n: int): State
    requires i < |s.threads|
  {
    s.(cur := Wrap(s.cur - n), threads := Map(s.threads[i := Outside], Wake))
  }

  /** Balanced use: a thread releases exactly what it holds. */
  predicate Enabled(s: State, p: Step) {
    p.i < |s.threads| &&
    match p
    case Acquire(i, _) => s.threads[i] == Outside
    case Resume(i) => s.threads[i].Woken?
    case Release(i) => s.threads[i].Holds?
  }

  function Do(s: State, p: Step): State
    requires Enabled(s, p)
  {
    match p
    case Acquire(i, n) => TryAcquire(s, i, n)
    case Resume(i) => TryAcquire(s, i, s.threads[i].n)
    case Release(i) => ReleaseStep(s, i, s.threads[i].n)
  }

  function Start(max: int, k: nat): State {
    State(max, 0, seq(k, _ => Outside))
  }

  /** A weight that cannot make the counter wrap. */
  predicate Fits(max: int, n: int) {
    0 <= n && max + n <= MAX_INT64
  }

  ghost predicate Runs(s: State, ps: seq<Step>, t: State)
    decreases |ps|
  {
    if ps == [] then t == s else Enabled(s, ps[0]) && Runs(Do(s, ps[0]), ps[1..], t)
  }

  /** Every weight asked for on the way lies between `lo` and `hi`. */
  ghost predicate Weights(ps: seq<Step>, lo: int, hi: int) {
    forall i :: 0 <= i < |ps| && ps[i].Acquire? ==> lo <= ps[i].n <= hi
  }

  // ---------- invariants ----------

  ghost function HeldWeight(t: Thread): int {
    if t.Holds? then t.n else 0
  }

  /** The counter is exactly the weight held and within its bounds, and every sleeper really
      does not fit. */
  ghost predicate Sound(s: State) {
    && 0 <= s.cur <= s.max
    && s.cur == Sum(s.threads, HeldWeight)
    && forall i :: 0 <= i < |s.threads| && s.threads[i].Asleep? ==> s.cur + s.threads[i].n > s.max
  }

  ghost predicate Invariant(s: State) {
    && s.max <= MAX_INT64
    && Sound(s)
    && forall i :: 0 <= i < |s.threads| && s.threads[i] != Outside ==> Fits(s.max, s.threads[i].n)
  }

  lemma {:induction false} StepInvariant(s: State, p: Step)
    requires Invariant(s) && Enabled(s, p) && (p.Acquire? ==> Fits(s.max, p.n))
    ensures Invariant(Do(s, p))
  {
    match p {
      case Acquire(i, n) => TryInvariant(s, i, n);
      case Resume(i) => TryInvariant(s, i, s.threads[i].n);
      case Release(i) =>
        SumUpdate(s.threads, i, Outside, HeldWeight);
        SumMap(s.threads[i := Outside], Wake, HeldWeight);
        forall k | 0 <= k < |s.threads| ensures HeldWeight(s.threads[k]) >= 0 {}
        SumAtLeast(s.threads, i, HeldWeight);
    }
  }

  lemma {:induction false} TryInvariant(s: State, i: nat, n: int)
    requires Invariant(s) && i < |s.threads| && Fits(s.max, n)
    requires !s.threads[i].Holds?
    ensures Invariant(TryAcquire(s, i, n))
  {
    SumUpdate(s.threads, i, Asleep(n), HeldWeight);
    SumUpdate(s.threads, i, Holds(n), HeldWeight);
  }

  lemma {:induction false} RunInvariant(s: State, ps: seq<Step>, t: State, hi: int)
    requires Invariant(s) && Runs(s, ps, t) && Weights(ps, 0, hi) && s.max + hi <= MAX_INT64
    ensures Invariant(t) && t.max == s.max
    decreases |ps|
  {
    if ps != [] {
      StepInvariant(s, ps[0]);
      assert Weights(ps[1..], 0, hi);
      RunInvariant(Do(s, ps[0]), ps[1..], t, hi);
    }
  }

  lemma {:induction false} StartInvariant(max: int, k: nat)
    requires 0 <= max <= MAX_INT64
    ensures Invariant(Start(max, k))
  {
    SumConstant(Start(max, k).threads, HeldWeight, 0);
  }

  /** Every balanced run, of any number of threads asking for weights from `lo` to `hi`, keeps
      the counter right ... */
  ghost predicate AlwaysSound(max: int, lo: int, hi: int) {
    forall k, ps, t :: Runs(Start(max, k), ps, t) && Weights(ps, lo, hi) ==> Sound(t)
  }

  /** ... if and only if no weight is negative and the largest, on top of a full semaphore,
      still fits in 64 bits. */
  lemma {:induction false} CounterIsHeldWeight(max: int, lo: int, hi: int)
    requires 0 <= max <= MAX_INT64 && MIN_INT64 <= lo <= 1 <= hi <= MAX_INT64
    ensures AlwaysSound(max, lo, hi) <==> 0 <= lo && max + hi <= MAX_INT64
  {
    if 0 <= lo && max + hi <= MAX_INT64 {
      forall k, ps, t | Runs(Start(max, k), ps, t) && Weights(ps, lo, hi) ensures Sound(t) {
        StartInvariant(max, k);
        RunInvariant(Start(max, k), ps, t, hi);
      }
    } else if lo < 0 {
      NegativeWeightBreaks(max, lo, hi);
    } else {
      FullSemaphoreOverflows(max, hi, lo);
    }
  }

  lemma {:induction false} NegativeWeightBreaks(max: int, lo: int, hi: int)
    requires 0 <= max <= MAX_INT64 && MIN_INT64 <= lo < 0 < hi
    ensures !AlwaysSound(max, lo, hi)
  {
    var s := Start(max, 1);
    var t := Do(s, Acquire(0, lo));
    var ps := [Acquire(0, lo)];
    assert Runs(t, ps[1..], t);
    assert Runs(s, ps, t) && Weights(ps, lo, hi) && !Sound(t);
  }

  /** Threads 0 to j - 1 of one more than `max` hold one unit each. */
  function Filled(max: nat, j: nat): State {
    State(max, j, seq(max + 1, i => if i < j then Holds(1) else Outside))
  }

  /** From there the rest of the units are taken, and then the last thread asks for `hi`. */
  lemma {:induction false} FillUp(max: nat, hi: int, j: nat) returns (ps: seq<Step>, t: State)
    requires j <= max <= MAX_INT64 && 1 <= hi <= MAX_INT64 < max + hi
    ensures Runs(Filled(max, j), ps, t) && Weights(ps, 1, hi) && t.cur < 0
    decreases max - j
  {
    var s := Filled(max, j);
    var p := if j < max then Acquire(j, 1) else Acquire(max, hi);
    var rest: seq<Step>;
    if j < max {
      assert Do(s, p).threads == Filled(max, j + 1).threads;
      rest, t := FillUp(max, hi, j + 1);
    } else {
      rest, t := [], Do(s, p);
    }
    ps := [p] + rest;
    assert ps[1..] == rest;
  }

  lemma {:induction false} FullSemaphoreOverflows(max: int, hi: int, lo: int)
    requires 0 <= max <= MAX_INT64 && lo <= 1 <= hi <= MAX_INT64 < max + hi
    ensures !AlwaysSound(max, lo, hi)
  {
    var ps, t := FillUp(max, hi, 0);
    assert Filled(max, 0).threads == Start(max, max + 1).threads;
    assert Weights(ps, lo, hi);
    assert !Sound(t);
  }

  /** Nobody whose request can be met at all sleeps while nothing is held: there is always a
      holder whose release will broadcast. */
  lemma {:induction false} SleeperAwaitsHolder(s: State, i: nat) returns (j: nat)
    requires Invariant(s) && i < |s.threads| && s.threads[i].Asleep? && s.threads[i].n <= s.max
    ensures j < |s.threads| && s.threads[j].Holds? && s.threads[j].n > 0
  {
    j := SumPositive(s.threads, HeldWeight);
  }

  // ---------- every request that fits is met ----------

  /** The thread waits for `n`. */
  predicate Requests(t: Thread, n: int) {
    t == Asleep(n) || t == Woken(n)
  }

  /** A release wakes every sleeper, each with its own request; nobody else changes. */
  lemma {:induction false} ReleaseWakesAll(s: State, i: nat, j: nat)
    requires Enabled(s, Release(i)) && j < |s.threads|
    ensures var t := Do(s, Release(i)).threads;
      |t| == |s.threads| && t[j] == if j == i then Outside
                                    else if s.threads[j].Asleep? then Woken(s.threads[j].n) else s.threads[j]
  {
    var u := s.threads[i := Outside];
    assert Map(u, Wake)[j] == Wake(u[j]);
  }

  /** A request stands, step after step, until it is admitted. */
  lemma {:induction false} RequestStands(s: State, p: Step, i: nat, n: int)
    requires Enabled(s, p) && i < |s.threads| && Requests(s.threads[i], n)
    ensures i < |Do(s, p).threads| && (Requests(Do(s, p).threads[i], n) || Do(s, p).threads[i] == Holds(n))
  {
    if p.Release? { ReleaseWakesAll(s, p.i, i); }
  }

  /** Somewhere on the schedule thread `i` holds `n`. */
  ghost predicate IsMet(s: State, ps: seq<Step>, t: State, i: nat, n: int)
    requires Runs(s, ps, t)
    decreases |ps|
  {
    || (i < |s.threads| && s.threads[i] == Holds(n))
    || (ps != [] && IsMet(Do(s, ps[0]), ps[1..], t, i, n))
  }

  lemma {:induction false} StandsUntilMet(s: State, ps: seq<Step>, t: State, i: nat, n: int)
    requires Runs(s, ps, t) && i < |s.threads| && Requests(s.threads[i], n)
    ensures IsMet(s, ps, t, i, n) || (i < |t.threads| && Requests(t.threads[i], n))
    decreases |ps|
  {
    if ps != [] {
      var u := Do(s, ps[0]);
      RequestStands(s, ps[0], i, n);
      if Requests(u.threads[i], n) { StandsUntilMet(u, ps[1..], t, i, n); }
    }
  }

  /** Nobody can go on: no permit can be given back and no sleeper has been woken. */
  ghost predicate AtRest(s: State) {
    forall p: Step :: !p.Acquire? ==> !Enabled(s, p)
  }

  /** If every holder gives back and every woken thread tries again, every request that fits
      at all has been met; only one for more than the whole semaphore sleeps on. */
  lemma {:induction false} EveryRequestIsMet(s: State, ps: seq<Step>, t: State, hi: int, i: nat, n: int)
    requires Invariant(s) && Runs(s, ps, t) && Weights(ps, 0, hi) && s.max + hi <= MAX_INT64 && AtRest(t)
    requires i < |s.threads| && Requests(s.threads[i], n)
    ensures n <= s.max ==> IsMet(s, ps, t, i, n)
  {
    RunInvariant(s, ps, t, hi);
    StandsUntilMet(s, ps, t, i, n);
    if i < |t.threads| && t.threads[i] == Woken(n) {
      assert Enabled(t, Resume(i));
    } else if i < |t.threads| && t.threads[i] == Asleep(n) && n <= t.max {
      var j := SleeperAwaitsHolder(t, i);
      assert Enabled(t, Release(j));
    }
  }

  ghost function IsPending(t: Thread): int {
    if t.Asleep? || t.Woken? then 1 else 0
  }

  ghost function IsHolding(t: Thread): int {
    if t.Holds? then 1 else 0
  }

  ghost function IsWoken(t: Thread): int {
    if t.Woken? then 1 else 0
  }

  ghost function Turns(s: State): int {
    2 * Sum(s.threads, IsPending) + Sum(s.threads, IsHolding)
  }

  ghost function WorkLeft(s: State): int {
    (|s.threads| + 1) * Turns(s) + Sum(s.threads, IsWoken)
  }

  lemma {:induction false} WokenAreFew(ts: seq<Thread>)
    ensures 0 <= Sum(ts, IsWoken) <= |ts|
  {
    if ts != [] { WokenAreFew(ts[1..]); }
  }

  /** Giving back and being admitted use up turns; a vain attempt uses up a waking. */
  lemma {:induction false} StepMakesProgress(s: State, p: Step)
    requires Enabled(s, p) && !p.Acquire?
    ensures |Do(s, p).threads| == |s.threads|
    ensures Turns(Do(s, p)) < Turns(s)
      || (Turns(Do(s, p)) == Turns(s) && Sum(Do(s, p).threads, IsWoken) < Sum(s.threads, IsWoken))
  {
    var g := if p.Release? then Outside
             else if MustWait(s, s.threads[p.i].n) then Asleep(s.threads[p.i].n) else Holds(s.threads[p.i].n);
    SumUpdate(s.threads, p.i, g, IsPending);
    SumUpdate(s.threads, p.i, g, IsHolding);
    SumUpdate(s.threads, p.i, g, IsWoken);
    if p.Release? {
      SumMap(s.threads[p.i := g], Wake, IsPending);
      SumMap(s.threads[p.i := g], Wake, IsHolding);
    }
  }


  /** And that takes boundedly many steps, unless new requests come in. */
  lemma {:induction false} RunsAreBounded(s: State, ps: seq<Step>, t: State)
    requires Runs(s, ps, t) && forall i :: 0 <= i < |ps| ==> !ps[i].Acquire?
    ensures |ps| <= WorkLeft(s) - WorkLeft(t)
    decreases |ps|
  {
    if ps != [] {
      var u := Do(s, ps[0]);
      assert !ps[0].Acquire?;
      StepMakesProgress(s, ps[0]);
      WokenAreFew(s.threads);
      WokenAreFew(u.threads);
      if Turns(u) < Turns(s) { Smaller(|s.threads|, Turns(s), Turns(u)); }
      assert forall i :: 0 <= i < |ps[1..]| ==> !ps[1..][i].Acquire?;
      RunsAreBounded(u, ps[1..], t);
    }
  }

  // ---------- where 64 bits are not enough ----------

  /** The loop test is right exactly when the sum does not wrap; when it does wrap, the
      request is admitted although it does not fit. */
  lemma {:induction false} TestIsExactWithoutWrap(s: State, n: int)
    requires 0 <= s.cur <= s.max <= MAX_INT64 && 0 <= n <= MAX_INT64
    ensures (MustWait(s, n) <==> s.cur + n > s.max) <==> s.cur + n <= MAX_INT64
    ensures s.cur + n > MAX_INT64 ==> !MustWait(s, n)
  {
  }

  /** Any request that does not fit in 64 bits on top of a full semaphore is admitted there:
      both threads hold their weight and the counter is negative. */
  lemma {:induction false} HugeRequestIsAdmitted(max: int, n: int)
    requires 0 <= max <= MAX_INT64 && 0 <= n <= MAX_INT64 && !Fits(max, n)
    ensures var full := Do(Start(max, 2), Acquire(0, max));
      var t := Do(full, Acquire(1, n));
      Runs(Start(max, 2), [Acquire(0, max), Acquire(1, n)], t) && t.threads == [Holds(max), Holds(n)] && t.cur < 0
  {
    var s := Start(max, 2);
    var full := Do(s, Acquire(0, max));
    var t := Do(full, Acquire(1, n));
    assert Runs(t, [], t);
    var ps := [Acquire(0, max), Acquire(1, n)];
    assert ps[1..] == [Acquire(1, n)] && ps[1..][1..] == [];
    assert Runs(full, ps[1..], t);
  }

  // ---------- the semaphore object ----------

  class WeightedSemaphore {
    const max: int
    var cur: int
    ghost var threads: seq<Thread>

    ghost function Abs(): State
      reads this
    {
      State(max, cur, threads)
    }

    constructor (max: int, ghost k: nat)
      ensures Abs() == Start(max, k)
    {
      this.max := max;
      cur := 0;
      threads := seq(k, _ => Outside);
    }

    /** One pass of thread `i` through the loop of `acquire`, holding the lock. */
    method AcquireLocked(n: int, ghost i: nat) returns (sleeps: bool)
      requires Enabled(Abs(), Acquire(i, n)) || (Enabled(Abs(), Resume(i)) && threads[i].n == n)
      modifies this
      ensures Abs() == TryAcquire(old(Abs()), i, n) && (sleeps <==> MustWait(old(Abs()), n))
    {
      if Wrap(cur + n) > max {
        threads := threads[i := Asleep(n)];
        return true;
      }
      cur := Wrap(cur + n);
      threads := threads[i := Holds(n)];
      return false;
    }

    method ReleaseLocked(n: int, ghost i: nat)
      requires Enabled(Abs(), Release(i)) && threads[i].n == n
      modifies this
      ensures Abs() == ReleaseStep(old(Abs()), i, n)
    {
      cur := Wrap(cur - n);
      threads := Map(threads[i := Outside], Wake);
    }
  }
}
