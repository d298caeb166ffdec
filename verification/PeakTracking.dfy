/** `runWithWeightedSemaphore`: n jobs under a weight-1 semaphore, each counting itself in
    `active` and folding the count into `max` with a compare-and-swap loop.

    Each atomic operation and each critical section is one step. `peak` records the largest
    value `active` ever had. */
module PeakTracking {
  import opened Sums

  /** `Counted(c)` is about to load `max`; `Loaded(c, seen)` is about to swap `seen` for `c`. */
  datatype Job =
    | NotStarted | Asleep | Woken
    | Admitted | Counted(c: int) | Loaded(c: int, seen: int) | Working | Uncounted
    | Released | Finished

  datatype State = State(limit: int, cur: int, active: int, max: int, jobs: seq<Job>, peak: int)

  datatype Step =
    | Acquire(i: nat) | Count(i: nat) | Load(i: nat) | Swap(i: nat) | Uncount(i: nat) | Release(i: nat) | Finish(i: nat)

  function Start(limit: int, n: nat): State {
    State(limit, 0, 0, 0, seq(n, _ => NotStarted), 0)
  }

  predicate Enabled(s: State, p: Step) {
    p.i < |s.jobs| &&
    match p
    case Acquire(i) => s.jobs[i] == NotStarted || s.jobs[i] == Woken
    case Count(i) => s.jobs[i] == Admitted
    case Load(i) => s.jobs[i].Counted?
    case Swap(i) => s.jobs[i].Loaded?
    case Uncount(i) => s.jobs[i] == Working
    case Release(i) => s.jobs[i] == Uncounted
    case Finish(i) => s.jobs[i] == Released
  }

  function Wake(j: Job): Job {
    if j == Asleep then Woken else j
  }

  function Max(a: int, b: int): int {
    if a < b then b else a
  }

  function Do(s: State, p: Step): State
    requires Enabled(s, p)
  {
    match p
    case Acquire(i) =>
      if s.cur + 1 > s.limit then s.(jobs := s.jobs[i := Asleep])
      else s.(cur := s.cur + 1, jobs := s.jobs[i := Admitted])
    case Count(i) =>
      s.(active := s.active + 1, peak := Max(s.peak, s.active + 1), jobs := s.jobs[i := Counted(s.active + 1)])
    case Load(i) =>
      var c := s.jobs[i].c;
      s.(jobs := s.jobs[i := if c <= s.max then Working else Loaded(c, s.max)])
    case Swap(i) =>
      var j := s.jobs[i];
      if s.max == j.seen then s.(max := j.c, jobs := s.jobs[i := Working])
      else s.(jobs := s.jobs[i := Counted(j.c)])
    case Uncount(i) => s.(active := s.active - 1, jobs := s.jobs[i := Uncounted])
    case Release(i) => s.(cur := s.cur - 1, jobs := Map(s.jobs[i := Released], Wake))
    case Finish(i) => s.(jobs := s.jobs[i := Finished])
  }

  ghost predicate Runs(s: State, ps: seq<Step>, t: State)
    decreases |ps|
  {
    if ps == [] then t == s else Enabled(s, ps[0]) && Runs(Do(s, ps[0]), ps[1..], t)
  }

  // ---------- invariants ----------

  ghost function HasPermit(j: Job): int {
    if j == Admitted || j.Counted? || j.Loaded? || j == Working || j == Uncounted then 1 else 0
  }

  ghost function IsActive(j: Job): int {
    if j.Counted? || j.Loaded? || j == Working then 1 else 0
  }

  /** The job still has to fold its count `c` into `max`. */
  predicate Pending(j: Job) {
    j.Counted? || j.Loaded?
  }

  /** The job has been active at some time. */
  predicate HasCounted(j: Job) {
    Pending(j) || j == Working || j == Uncounted || j == Released || j == Finished
  }

  ghost predicate Counters(s: State) {
    && s.cur == Sum(s.jobs, HasPermit) && s.active == Sum(s.jobs, IsActive)
    && s.cur <= s.limit
    && (forall i :: 0 <= i < |s.jobs| && s.jobs[i] == Asleep ==> s.cur + 1 > s.limit)
  }

  /** Neither `max` nor a count waiting to be folded in exceeds the peak. */
  ghost predicate Bounded(s: State) {
    && s.active <= s.peak <= s.limit
    && s.max <= s.peak
    && (forall i :: 0 <= i < |s.jobs| && Pending(s.jobs[i]) ==> s.jobs[i].c <= s.peak)
    && (forall i :: 0 <= i < |s.jobs| && s.jobs[i].Loaded? ==> s.jobs[i].seen < s.jobs[i].c && s.jobs[i].seen <= s.max)
  }

  ghost predicate PeakIsPositive(s: State) {
    forall i :: 0 <= i < |s.jobs| && HasCounted(s.jobs[i]) ==> s.peak >= 1
  }

  /** `max` falls short of the peak only while a job that saw the peak is still updating. */
  ghost predicate PeakIsKept(s: State) {
    s.peak <= s.max || exists i :: 0 <= i < |s.jobs| && Pending(s.jobs[i]) && s.jobs[i].c == s.peak
  }

  ghost predicate Invariant(s: State) {
    Counters(s) && Bounded(s) && PeakIsKept(s) && PeakIsPositive(s)
  }

  lemma {:induction false} StartInvariant(limit: int, n: nat)
    requires limit >= 0
    ensures Invariant(Start(limit, n))
  {
    SumConstant(Start(limit, n).jobs, HasPermit, 0);
    SumConstant(Start(limit, n).jobs, IsActive, 0);
  }

  lemma {:induction false} ActiveHavePermits(s: State)
    requires Counters(s)
    ensures s.active <= s.cur
  {
    SumMonotone(s.jobs, IsActive, HasPermit);
  }

  /** What one job becomes, before any waking. */
  function Becomes(s: State, p: Step): Job
    requires Enabled(s, p)
  {
    match p
    case Acquire(i) => if s.cur + 1 > s.limit then Asleep else Admitted
    case Count(i) => Counted(s.active + 1)
    case Load(i) => if s.jobs[i].c <= s.max then Working else Loaded(s.jobs[i].c, s.max)
    case Swap(i) => if s.max == s.jobs[i].seen then Working else Counted(s.jobs[i].c)
    case Uncount(i) => Uncounted
    case Release(i) => Released
    case Finish(i) => Finished
  }

  lemma {:induction false} DoBecomes(s: State, p: Step)
    requires Enabled(s, p)
    ensures var js := s.jobs[p.i := Becomes(s, p)];
      Do(s, p).jobs == if p.Release? then Map(js, Wake) else js
    ensures forall i :: 0 <= i < |s.jobs| ==>
      Do(s, p).jobs[i] == if i == p.i then Becomes(s, p) else if p.Release? then Wake(s.jobs[i]) else s.jobs[i]
  {
    if p.Release? {
      var js := s.jobs[p.i := Released];
      forall i | 0 <= i < |js| ensures Map(js, Wake)[i] == Wake(js[i]) {}
    }
  }

  lemma {:induction false} StepCounters(s: State, p: Step)
    requires Counters(s) && Enabled(s, p)
    ensures Counters(Do(s, p))
  {
    var g := Becomes(s, p);
    DoBecomes(s, p);
    SumUpdate(s.jobs, p.i, g, HasPermit);
    SumUpdate(s.jobs, p.i, g, IsActive);
    SumMap(s.jobs[p.i := g], Wake, HasPermit);
    SumMap(s.jobs[p.i := g], Wake, IsActive);
  }

  lemma {:induction false} StepBounded(s: State, p: Step)
    requires Counters(s) && Bounded(s) && Enabled(s, p)
    ensures Bounded(Do(s, p))
  {
    DoBecomes(s, p);
    StepCounters(s, p);
    ActiveHavePermits(Do(s, p));
  }

  lemma {:induction false} StepPeakPositive(s: State, p: Step)
    requires Counters(s) && PeakIsPositive(s) && Enabled(s, p)
    ensures PeakIsPositive(Do(s, p))
  {
    DoBecomes(s, p);
    SumNonNegative(s.jobs, IsActive);
  }

  lemma {:induction false} StepKeepsPeak(s: State, p: Step)
    requires Bounded(s) && PeakIsKept(s) && Enabled(s, p)
    ensures PeakIsKept(Do(s, p))
  {
    var t := Do(s, p);
    DoBecomes(s, p);
    if t.peak > t.max {
      if p.Count? && t.peak == t.active {
        assert Pending(t.jobs[p.i]) && t.jobs[p.i].c == t.peak;
      } else {
        var i :| 0 <= i < |s.jobs| && Pending(s.jobs[i]) && s.jobs[i].c == s.peak;
        assert Pending(t.jobs[i]) && t.jobs[i].c == t.peak;
      }
    }
  }

  lemma {:induction false} RunInvariant(s: State, ps: seq<Step>, t: State)
    requires Invariant(s) && Runs(s, ps, t)
    ensures Invariant(t) && t.limit == s.limit && |t.jobs| == |s.jobs|
    decreases |ps|
  {
    if ps != [] {
      StepCounters(s, ps[0]);
      StepBounded(s, ps[0]);
      StepKeepsPeak(s, ps[0]);
      StepPeakPositive(s, ps[0]);
      RunInvariant(Do(s, ps[0]), ps[1..], t);
    }
  }

  // ---------- results ----------

  ghost predicate AllFinished(s: State) {
    forall i :: 0 <= i < |s.jobs| ==> s.jobs[i] == Finished
  }

  // ---------- reading a schedule ----------

  /** Jobs that have counted themselves and not uncounted. */
  function ActiveAfter(ps: seq<Step>): int {
    if ps == [] then 0
    else (if ps[0].Count? then 1 else if ps[0].Uncount? then -1 else 0) + ActiveAfter(ps[1..])
  }

  /** The largest value `active` has in any state of the run. */
  ghost function PeakActive(s: State, ps: seq<Step>, t: State): int
    requires Runs(s, ps, t)
    decreases |ps|
  {
    if ps == [] then s.active else Max(s.active, PeakActive(Do(s, ps[0]), ps[1..], t))
  }

  lemma {:induction false} RunIsRecorded(s: State, ps: seq<Step>, t: State)
    requires Runs(s, ps, t) && s.active <= s.peak
    ensures t.active == s.active + ActiveAfter(ps) && t.peak == Max(s.peak, PeakActive(s, ps, t))
    decreases |ps|
  {
    if ps != [] { RunIsRecorded(Do(s, ps[0]), ps[1..], t); }
  }

  ghost function Counts(j: Job): int {
    if HasCounted(j) then 1 else 0
  }

  ghost function Uncounts(j: Job): int {
    if j == Uncounted || j == Released || j == Finished then 1 else 0
  }

  /** A job counts and uncounts itself once each, on its way to the end. */
  lemma {:induction false} CountsOnce(s: State, ps: seq<Step>, t: State, i: nat)
    requires Runs(s, ps, t) && i < |s.jobs|
    ensures |t.jobs| == |s.jobs|
    ensures multiset(ps)[Count(i)] == Counts(t.jobs[i]) - Counts(s.jobs[i])
    ensures multiset(ps)[Uncount(i)] == Uncounts(t.jobs[i]) - Uncounts(s.jobs[i])
    decreases |ps|
  {
    if ps != [] {
      DoBecomes(s, ps[0]);
      CountsOnce(Do(s, ps[0]), ps[1..], t, i);
      assert ps == [ps[0]] + ps[1..];
    }
  }

  /** At every moment at most `limit` jobs are active; and when all jobs have finished, each has
      been active once and `max` is exactly the largest number that was ever active. */
  lemma {:induction false} ResultIsThePeak(limit: int, n: nat, ps: seq<Step>, t: State)
    requires limit >= 0 && Runs(Start(limit, n), ps, t)
    ensures t.active == ActiveAfter(ps) <= limit && t.max <= PeakActive(Start(limit, n), ps, t) <= limit
    ensures AllFinished(t) ==> t.max == PeakActive(Start(limit, n), ps, t) && (n > 0 ==> t.max >= 1)
    ensures AllFinished(t) ==> forall i :: 0 <= i < n ==> multiset(ps)[Count(i)] == multiset(ps)[Uncount(i)] == 1
  {
    StartInvariant(limit, n);
    RunInvariant(Start(limit, n), ps, t);
    RunIsRecorded(Start(limit, n), ps, t);
    PeakIsNonNegative(Start(limit, n), ps, t);
    if n > 0 && AllFinished(t) { assert HasCounted(t.jobs[0]); }
    forall i | 0 <= i < n && AllFinished(t) ensures multiset(ps)[Count(i)] == multiset(ps)[Uncount(i)] == 1 {
      CountsOnce(Start(limit, n), ps, t, i);
    }
  }

  lemma {:induction false} PeakIsNonNegative(s: State, ps: seq<Step>, t: State)
    requires Runs(s, ps, t)
    ensures PeakActive(s, ps, t) >= s.active
  {
  }

  // ---------- progress ----------

  /** No job is left asleep for ever: until all have finished some step is enabled. */
  lemma {:induction false} SomeJobCanStep(s: State, i: nat) returns (p: Step)
    requires Invariant(s) && s.limit > 0 && i < |s.jobs| && s.jobs[i] != Finished
    ensures Enabled(s, p)
  {
    var k := i;
    if s.jobs[i] == Asleep { k := SumPositive(s.jobs, HasPermit); }
    match s.jobs[k] {
      case NotStarted => p := Acquire(k);
      case Woken => p := Acquire(k);
      case Admitted => p := Count(k);
      case Counted(_) => p := Load(k);
      case Loaded(_, _) => p := Swap(k);
      case Working => p := Uncount(k);
      case Uncounted => p := Release(k);
      case Released => p := Finish(k);
    }
  }

  /** How far a job still has to go ... */
  ghost function Stages(j: Job): int {
    match j
    case NotStarted => 6 case Asleep => 6 case Woken => 6
    case Admitted => 5 case Counted(_) => 4 case Loaded(_, _) => 4
    case Working => 3 case Uncounted => 2 case Released => 1 case Finished => 0
  }

  /** ... and what it can still do without getting further: a swap that must fail because
      `max` has moved since the load costs a retry. */
  ghost function Retries(max: int): Job -> int {
    (j: Job) =>
      match j
      case NotStarted => 1 case Woken => 1
      case Counted(_) => 2
      case Loaded(_, seen) => if seen == max then 1 else 3
      case _ => 0
  }

  ghost function StagesLeft(s: State): int {
    Sum(s.jobs, Stages)
  }

  ghost function RetriesLeft(s: State): int {
    Sum(s.jobs, Retries(s.max))
  }

  lemma {:induction false} RetriesBounded(js: seq<Job>, max: int)
    ensures 0 <= Sum(js, Retries(max)) <= 3 * |js|
  {
    if js != [] { RetriesBounded(js[1..], max); }
  }

  lemma {:induction false} StepMakesProgress(s: State, p: Step)
    requires Enabled(s, p)
    ensures StagesLeft(Do(s, p)) < StagesLeft(s)
      || (StagesLeft(Do(s, p)) == StagesLeft(s) && RetriesLeft(Do(s, p)) < RetriesLeft(s))
  {
    var g := Becomes(s, p);
    DoBecomes(s, p);
    SumUpdate(s.jobs, p.i, g, Stages);
    SumUpdate(s.jobs, p.i, g, Retries(s.max));
    SumMap(s.jobs[p.i := g], Wake, Stages);
  }

  ghost function WorkLeft(s: State): int {
    (3 * |s.jobs| + 1) * StagesLeft(s) + RetriesLeft(s)
  }


  /** The compare-and-swap loop terminates in every interleaving: no run is longer than this
      bound, so with `SomeJobCanStep` every run ends with all jobs finished. */
  lemma {:induction false} RunsAreBounded(s: State, ps: seq<Step>, t: State)
    requires Runs(s, ps, t)
    ensures |ps| <= WorkLeft(s) - WorkLeft(t)
    decreases |ps|
  {
    if ps != [] {
      var u := Do(s, ps[0]);
      StepMakesProgress(s, ps[0]);
      DoBecomes(s, ps[0]);
      RetriesBounded(s.jobs, s.max);
      RetriesBounded(u.jobs, u.max);
      if StagesLeft(u) < StagesLeft(s) { Smaller(3 * |s.jobs|, StagesLeft(s), StagesLeft(u)); }
      RunsAreBounded(u, ps[1..], t);
    }
  }

  /** End to end: with a positive limit, a run that can go no further has finished every job
      within the bound and returns the exact peak. */
  lemma {:induction false} CompletedRunReturnsPeak(limit: int, n: nat, ps: seq<Step>, t: State)
    requires limit > 0 && Runs(Start(limit, n), ps, t) && forall p :: !Enabled(t, p)
    ensures AllFinished(t) && |ps| <= WorkLeft(Start(limit, n))
    ensures t.max == PeakActive(Start(limit, n), ps, t) <= limit
    ensures forall i :: 0 <= i < n ==> multiset(ps)[Count(i)] == multiset(ps)[Uncount(i)] == 1
  {
    StartInvariant(limit, n);
    RunInvariant(Start(limit, n), ps, t);
    forall i | 0 <= i < |t.jobs| ensures t.jobs[i] == Finished {
      if t.jobs[i] != Finished { var p := SomeJobCanStep(t, i); }
    }
    RunsAreBounded(Start(limit, n), ps, t);
    SumConstant(t.jobs, Stages, 0);
    RetriesBounded(t.jobs, t.max);
    ResultIsThePeak(limit, n, ps, t);
    assert WorkLeft(t) >= 0;
  }
}
