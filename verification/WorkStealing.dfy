/** Local run queues with a `runnext` slot, and stealing half of a victim's queue. */
module WorkStealing {
  import opened Sums
  import opened Wrappers

  datatype QueueMode = FIFO | RunNext

  datatype Task = Task(id: int, producer: int)

  /** The abstract value of a processor. */
  datatype Queues = Queues(runq: seq<Task>, runnext: Option<Task>)

  function Enqueue(q: Queues, mode: QueueMode, t: Task): Queues {
    match mode
    case FIFO => q.(runq := q.runq + [t])
    case RunNext =>
      if q.runnext.None? then q.(runnext := Some(t))
      else Queues(q.runq + [q.runnext.value], Some(t))
  }

  function PopLocal(q: Queues): (Queues, Option<Task>) {
    if q.runnext.Some? then (q.(runnext := None), q.runnext)
    else if q.runq == [] then (q, None)
    else (q.(runq := q.runq[1..]), Some(q.runq[0]))
  }

  function Half(n: nat): nat {
    (n + 1) / 2
  }

  /** Takes the head half, rounded up; the slot is never stolen. */
  function StealHalf(victim: Queues): (Queues, seq<Task>) {
    var k := Half(|victim.runq|);
    (victim.(runq := victim.runq[k..]), victim.runq[..k])
  }

  // ---------- a system of processors ----------

  datatype System = System(procs: seq<Queues>, executed: seq<Task>, submitted: seq<Task>)

  datatype Step = Submit(i: nat, mode: QueueMode, t: Task) | Run(i: nat) | Steal(i: nat, victim: nat)

  /** A processor steals only when its own pop has found nothing. */
  predicate Enabled(s: System, p: Step) {
    p.i < |s.procs| &&
    match p
    case Submit(_, _, _) => true
    case Run(i) => PopLocal(s.procs[i]).1.Some?
    case Steal(i, v) => v < |s.procs| && v != i && PopLocal(s.procs[i]).1.None?
  }

  function Do(s: System, p: Step): System
    requires Enabled(s, p)
  {
    match p
    case Submit(i, mode, t) => s.(procs := s.procs[i := Enqueue(s.procs[i], mode, t)], submitted := s.submitted + [t])
    case Run(i) =>
      var (q, t) := PopLocal(s.procs[i]);
      s.(procs := s.procs[i := q], executed := s.executed + [t.value])
    case Steal(i, v) =>
      var (rest, stolen) := StealHalf(s.procs[v]);
      if stolen == [] then s
      else
        var thief := s.procs[i].(runq := s.procs[i].runq + stolen[1..]);
        s.(procs := s.procs[v := rest][i := thief], executed := s.executed + [stolen[0]])
  }

  ghost predicate Runs(s: System, ps: seq<Step>, t: System)
    decreases |ps|
  {
    if ps == [] then t == s else Enabled(s, ps[0]) && Runs(Do(s, ps[0]), ps[1..], t)
  }

  function Start(k: nat): System {
    System(seq(k, _ => Queues([], None)), [], [])
  }

  // ---------- the slot ----------

  /** In runnext mode the task just submitted is the next to run, and the one it displaced is
      the last in the queue. */
  lemma {:induction false} NewestRunsNext(q: Queues, t: Task)
    ensures var (r, u) := PopLocal(Enqueue(q, RunNext, t));
      && u == Some(t) && r.runnext == None && q.runq <= r.runq
      && |r.runq| == |q.runq| + (if q.runnext.Some? then 1 else 0)
      && (q.runnext.Some? ==> r.runq[|r.runq| - 1] == q.runnext.value)
  {
  }

  /** In FIFO mode it runs after everything that is in the queue. */
  lemma {:induction false} NewestRunsLast(q: Queues, t: Task)
    ensures var e := Enqueue(q, FIFO, t);
      && e.runnext == q.runnext && q.runq <= e.runq && |e.runq| == |q.runq| + 1 && e.runq[|q.runq|] == t
  {
  }

  // ---------- conservation ----------

  function Tasks(q: Queues): multiset<Task> {
    multiset(q.runq) + if q.runnext.Some? then multiset{q.runnext.value} else multiset{}
  }

  ghost predicate Conserved(s: System) {
    multiset(s.submitted) == Bag(s.procs, Tasks) + multiset(s.executed)
  }

  lemma {:induction false} EnqueueAdds(q: Queues, mode: QueueMode, t: Task)
    ensures Tasks(Enqueue(q, mode, t)) == Tasks(q) + multiset{t}
  {
  }

  lemma {:induction false} PopRemoves(q: Queues)
    ensures var (r, t) := PopLocal(q);
      Tasks(q) == Tasks(r) + if t.Some? then multiset{t.value} else multiset{}
  {
    if q.runnext.None? && q.runq != [] { assert q.runq == [q.runq[0]] + q.runq[1..]; }
  }

  /** Nothing is lost in a steal: what was stolen followed by what stays is the old queue,
      and the stolen part is the head half, rounded up. */
  lemma {:induction false} StealSplits(victim: Queues)
    ensures var (rest, stolen) := StealHalf(victim);
      && stolen + rest.runq == victim.runq && rest.runnext == victim.runnext
      && |stolen| == |rest.runq| + |victim.runq| % 2
      && (stolen == [] <==> victim.runq == [])
      && Tasks(victim) == Tasks(rest) + multiset(stolen)
  {
    var (rest, stolen) := StealHalf(victim);
    assert victim.runq == stolen + rest.runq;
  }

  /** A balance of four multisets. */
  lemma {:induction false} Balance<T(!new)>(
    bag: multiset<T>, bag': multiset<T>, q: multiset<T>, q': multiset<T>, more: multiset<T>, less: multiset<T>)
    requires bag' + q == bag + q' && q' + less == q + more
    ensures bag' + less == bag + more
  {
    forall x ensures (bag' + less)[x] == (bag + more)[x] {
      assert (bag' + q)[x] == (bag + q')[x] && (q' + less)[x] == (q + more)[x];
    }
  }

  lemma {:induction false} SubmitConserved(s: System, i: nat, mode: QueueMode, t: Task)
    requires Conserved(s) && Enabled(s, Submit(i, mode, t))
    ensures Conserved(Do(s, Submit(i, mode, t)))
  {
    var q := Enqueue(s.procs[i], mode, t);
    EnqueueAdds(s.procs[i], mode, t);
    BagUpdate(s.procs, i, q, Tasks);
    Balance(Bag(s.procs, Tasks), Bag(s.procs[i := q], Tasks), Tasks(s.procs[i]), Tasks(q), multiset{t}, multiset{});
    Shift(multiset(s.submitted), Bag(s.procs, Tasks), multiset(s.executed), Bag(s.procs[i := q], Tasks), multiset{t});
    assert multiset(s.submitted + [t]) == multiset(s.submitted) + multiset{t};
  }

  lemma {:induction false} Shift<T(!new)>(
    all: multiset<T>, bag: multiset<T>, done: multiset<T>, bag': multiset<T>, h: multiset<T>)
    requires all == bag + done && bag' + multiset{} == bag + h
    ensures all + h == bag' + done
  {
    forall x ensures (all + h)[x] == (bag' + done)[x] {
      assert all[x] == (bag + done)[x] && (bag' + multiset{})[x] == (bag + h)[x];
    }
  }

  lemma {:induction false} Execute<T(!new)>(
    all: multiset<T>, bag: multiset<T>, done: multiset<T>, bag': multiset<T>, h: multiset<T>)
    requires all == bag + done && bag' + h == bag + multiset{}
    ensures all == bag' + (done + h)
  {
    forall x ensures all[x] == (bag' + (done + h))[x] {
      assert all[x] == (bag + done)[x] && (bag' + h)[x] == (bag + multiset{})[x];
    }
  }

  lemma {:induction false} RunConserved(s: System, i: nat)
    requires Conserved(s) && Enabled(s, Run(i))
    ensures Conserved(Do(s, Run(i)))
  {
    var (q, t) := PopLocal(s.procs[i]);
    var h := multiset{t.value};
    PopRemoves(s.procs[i]);
    BagUpdate(s.procs, i, q, Tasks);
    Balance(Bag(s.procs, Tasks), Bag(s.procs[i := q], Tasks), Tasks(s.procs[i]), Tasks(q), multiset{}, h);
    Execute(multiset(s.submitted), Bag(s.procs, Tasks), multiset(s.executed), Bag(s.procs[i := q], Tasks), h);
    assert multiset(s.executed + [t.value]) == multiset(s.executed) + h;
  }

  lemma {:induction false} VictimGives(procs: seq<Queues>, v: nat)
    requires v < |procs|
    ensures var (rest, stolen) := StealHalf(procs[v]);
      Bag(procs[v := rest], Tasks) + multiset(stolen) == Bag(procs, Tasks) + multiset{}
  {
    var (rest, stolen) := StealHalf(procs[v]);
    StealSplits(procs[v]);
    BagUpdate(procs, v, rest, Tasks);
    Balance(Bag(procs, Tasks), Bag(procs[v := rest], Tasks), Tasks(procs[v]), Tasks(rest),
            multiset{}, multiset(stolen));
  }

  lemma {:induction false} ThiefTakes(procs: seq<Queues>, i: nat, more: seq<Task>)
    requires i < |procs|
    ensures var thief := procs[i].(runq := procs[i].runq + more);
      Bag(procs[i := thief], Tasks) + multiset{} == Bag(procs, Tasks) + multiset(more)
  {
    var thief := procs[i].(runq := procs[i].runq + more);
    assert Tasks(thief) == Tasks(procs[i]) + multiset(more);
    BagUpdate(procs, i, thief, Tasks);
    Balance(Bag(procs, Tasks), Bag(procs[i := thief], Tasks), Tasks(procs[i]), Tasks(thief),
            multiset(more), multiset{});
  }

  lemma {:induction false} HeadAndTail<T>(s: seq<T>)
    requires s != []
    ensures multiset(s) == multiset{s[0]} + multiset(s[1..])
  {
    assert s == [s[0]] + s[1..];
  }

  /** After a steal all the queues together lack exactly the stolen task that is run at once. */
  lemma {:induction false} StealTakesOne(procs: seq<Queues>, i: nat, v: nat)
    requires i < |procs| && v < |procs| && i != v && procs[v].runq != []
    ensures var (rest, stolen) := StealHalf(procs[v]);
      var thief := procs[i].(runq := procs[i].runq + stolen[1..]);
      Bag(procs[v := rest][i := thief], Tasks) + multiset{stolen[0]} == Bag(procs, Tasks) + multiset{}
  {
    var (rest, stolen) := StealHalf(procs[v]);
    var mid := procs[v := rest];
    VictimGives(procs, v);
    ThiefTakes(mid, i, stolen[1..]);
    HeadAndTail(stolen);
    var thief := procs[i].(runq := procs[i].runq + stolen[1..]);
    Chain(Bag(procs, Tasks), Bag(mid, Tasks), Bag(mid[i := thief], Tasks),
          multiset(stolen), multiset(stolen[1..]), multiset{stolen[0]});
  }

  lemma {:induction false} StealConserved(s: System, i: nat, v: nat)
    requires Conserved(s) && Enabled(s, Steal(i, v)) && s.procs[v].runq != []
    ensures Conserved(Do(s, Steal(i, v)))
  {
    StealTakesOne(s.procs, i, v);
    var t := Do(s, Steal(i, v));
    var h := StealHalf(s.procs[v]).1[0];
    Execute(multiset(s.submitted), Bag(s.procs, Tasks), multiset(s.executed), Bag(t.procs, Tasks), multiset{h});
    assert t.executed == s.executed + [h];
  }

  lemma {:induction false} Chain<T(!new)>(
    b0: multiset<T>, b1: multiset<T>, b2: multiset<T>, stolen: multiset<T>, tail: multiset<T>, h: multiset<T>)
    requires b1 + stolen == b0 + multiset{} && b2 + multiset{} == b1 + tail && stolen == h + tail
    ensures b2 + h == b0 + multiset{}
  {
    forall x ensures (b2 + h)[x] == (b0 + multiset{})[x] {
      assert (b1 + stolen)[x] == (b0 + multiset{})[x] && (b2 + multiset{})[x] == (b1 + tail)[x];
      assert stolen[x] == (h + tail)[x];
    }
  }

  lemma {:induction false} StepsConserve(s: System, ps: seq<Step>, t: System)
    requires Conserved(s) && Runs(s, ps, t)
    ensures Conserved(t)
    decreases |ps|
  {
    if ps != [] {
      match ps[0] {
        case Submit(i, mode, u) => SubmitConserved(s, i, mode, u);
        case Run(i) => RunConserved(s, i);
        case Steal(i, v) => if s.procs[v].runq != [] { StealConserved(s, i, v); }
      }
      StepsConserve(Do(s, ps[0]), ps[1..], t);
    }
  }

  /** The tasks a schedule submits, in order. */
  function Submissions(ps: seq<Step>): seq<Task> {
    if ps == [] then []
    else (if ps[0].Submit? then [ps[0].t] else []) + Submissions(ps[1..])
  }

  /** What one step executes: what a processor pops, or the first task it steals. */
  function ExecutedBy(s: System, p: Step): seq<Task>
    requires Enabled(s, p)
  {
    match p
    case Submit(_, _, _) => []
    case Run(i) => [PopLocal(s.procs[i]).1.value]
    case Steal(_, v) => if s.procs[v].runq == [] then [] else [s.procs[v].runq[0]]
  }

  ghost function Executions(s: System, ps: seq<Step>, t: System): seq<Task>
    requires Runs(s, ps, t)
    decreases |ps|
  {
    if ps == [] then [] else ExecutedBy(s, ps[0]) + Executions(Do(s, ps[0]), ps[1..], t)
  }

  lemma {:induction false} StepRecords(s: System, p: Step)
    requires Enabled(s, p)
    ensures Do(s, p).submitted == s.submitted + if p.Submit? then [p.t] else []
    ensures Do(s, p).executed == s.executed + ExecutedBy(s, p)
  {
  }

  lemma {:induction false} RunRecords(s: System, ps: seq<Step>, t: System)
    requires Runs(s, ps, t)
    ensures t.submitted == s.submitted + Submissions(ps) && t.executed == s.executed + Executions(s, ps, t)
    decreases |ps|
  {
    if ps != [] {
      var u := Do(s, ps[0]);
      StepRecords(s, ps[0]);
      RunRecords(u, ps[1..], t);
      Reassociate(s.submitted, if ps[0].Submit? then [ps[0].t] else [], Submissions(ps[1..]));
      Reassociate(s.executed, ExecutedBy(s, ps[0]), Executions(u, ps[1..], t));
    }
  }

  lemma {:induction false} Reassociate<T>(a: seq<T>, b: seq<T>, c: seq<T>)
    ensures a + b + c == a + (b + c)
  {
  }

  /** On every run of any number of processors, over any sequence of submissions, runs and
      steals in any mode, the tasks queued and the tasks executed are together exactly the
      tasks submitted. */
  lemma {:induction false} WorkIsConserved(k: nat, ps: seq<Step>, t: System)
    requires Runs(Start(k), ps, t)
    ensures multiset(Submissions(ps)) == Bag(t.procs, Tasks) + multiset(Executions(Start(k), ps, t))
  {
    BagEmpty(Start(k).procs, Tasks);
    StepsConserve(Start(k), ps, t);
    RunRecords(Start(k), ps, t);
    assert [] + Submissions(ps) == Submissions(ps);
    assert [] + Executions(Start(k), ps, t) == Executions(Start(k), ps, t);
  }

  // ---------- order ----------

  ghost predicate Ascending(ts: seq<Task>) {
    forall i, j :: 0 <= i < j < |ts| ==> ts[i].id < ts[j].id
  }

  /** Every queue holds tasks in submission order; ids are issued in that order. */
  ghost predicate InOrder(s: System) {
    forall i :: 0 <= i < |s.procs| ==> Ordered(s.procs[i], |s.submitted|)
  }

  /** FIFO submissions, numbered in order. */
  ghost predicate NumberedFIFO(s: System, p: Step) {
    p.Submit? ==> p.mode == FIFO && p.t.id == |s.submitted|
  }

  ghost predicate RunsFIFO(s: System, ps: seq<Step>, t: System)
    decreases |ps|
  {
    if ps == [] then t == s
    else Enabled(s, ps[0]) && NumberedFIFO(s, ps[0]) && RunsFIFO(Do(s, ps[0]), ps[1..], t)
  }

  /** Without `runnext`, every queue keeps submission order on every run, through any number
      of steals. */
  lemma {:induction false} QueuesKeepOrder(k: nat, ps: seq<Step>, t: System)
    requires RunsFIFO(Start(k), ps, t)
    ensures forall i :: 0 <= i < |t.procs| ==> Ascending(t.procs[i].runq)
  {
    StepsKeepOrder(Start(k), ps, t);
  }

  lemma {:induction false} StepsKeepOrder(s: System, ps: seq<Step>, t: System)
    requires InOrder(s) && RunsFIFO(s, ps, t)
    ensures InOrder(t)
    decreases |ps|
  {
    if ps != [] {
      StepKeepsOrder(s, ps[0]);
      StepsKeepOrder(Do(s, ps[0]), ps[1..], t);
    }
  }

  /** Tasks in submission order, all submitted before `bound`, and an empty slot. */
  ghost predicate Ordered(q: Queues, bound: nat) {
    Ascending(q.runq) && q.runnext == None && forall k :: 0 <= k < |q.runq| ==> q.runq[k].id < bound
  }

  lemma {:induction false} StealKeepsOrder(thief: Queues, victim: Queues, bound: nat)
    requires Ordered(thief, bound) && Ordered(victim, bound) && thief.runq == [] && victim.runq != []
    ensures var (rest, stolen) := StealHalf(victim);
      Ordered(rest, bound) && stolen != [] && Ordered(thief.(runq := thief.runq + stolen[1..]), bound)
  {
  }

  lemma {:induction false} StepKeepsOrder(s: System, p: Step)
    requires InOrder(s) && Enabled(s, p) && NumberedFIFO(s, p)
    ensures InOrder(Do(s, p))
  {
    match p {
      case Submit(i, mode, t) => assert Ordered(Enqueue(s.procs[i], FIFO, t), |s.submitted| + 1);
      case Run(i) => assert Ordered(PopLocal(s.procs[i]).0, |s.submitted|);
      case Steal(i, v) =>
        if s.procs[v].runq != [] { StealKeepsOrder(s.procs[i], s.procs[v], |s.submitted|); }
    }
  }

  // ---------- the processor object ----------

  const TRIGGER: int := 1

  /** The trigger task makes the hot task on the processor that runs it. */
  function React(q: Queues, mode: QueueMode, t: Task, hotId: int, id: int): Queues {
    if t.id == TRIGGER then Enqueue(q, mode, Task(hotId, id)) else q
  }

  class Proc {
    const id: int
    var runq: seq<Task>
    var runnext: Option<Task>

    ghost function Abs(): Queues
      reads this
    {
      Queues(runq, runnext)
    }

    constructor (id: int)
      ensures this.id == id && Abs() == Queues([], None)
    {
      this.id := id;
      runq := [];
      runnext := None;
    }

    method Put(mode: QueueMode, t: Task)
      modifies this
      ensures Abs() == Enqueue(old(Abs()), mode, t)
    {
      if mode == RunNext {
        if runnext.Some? { runq := runq + [runnext.value]; }
        runnext := Some(t);
        return;
      }
      runq := runq + [t];
    }

    method Pop() returns (t: Option<Task>)
      modifies this
      ensures (Abs(), t) == PopLocal(old(Abs()))
    {
      if runnext.Some? {
        t := runnext;
        runnext := None;
        return;
      }
      if |runq| == 0 { return None; }
      t := Some(runq[0]);
      runq := runq[1..];
    }

    method AfterRunning(mode: QueueMode, t: Task, hotId: int)
      modifies this
      ensures Abs() == React(old(Abs()), mode, t, hotId, id)
    {
      if t.id == TRIGGER { Put(mode, Task(hotId, id)); }
    }

    /** Called on the thief in the source; only the victim changes. */
    method GiveHalf() returns (stolen: seq<Task>)
      modifies this
      ensures (Abs(), stolen) == StealHalf(old(Abs()))
    {
      var n := |runq|;
      if n == 0 { return []; }
      var steal := (n + 1) / 2;
      stolen := runq[..steal];
      runq := runq[steal..];
    }
  }

  // ---------- hot-task latency ----------

  /** The seed tasks 1..n. */
  function Seeds(n: nat): seq<Task> {
    seq(n, i => Task(i + 1, 0))
  }

  /** The tick at which the hot task runs, and how many tasks are stolen on the way. */
  function HotTick(mode: QueueMode, n: nat, bound: nat): int {
    var tick := if mode == FIFO then n / 2 else 1;
    if n > 0 && tick < bound then tick else -1
  }

  function HotStolen(mode: QueueMode, n: nat, bound: nat): int {
    if bound == 0 then 0 else if mode == FIFO then Half(n) else n / 2
  }

  /** Tasks that are neither the trigger nor the hot task. */
  ghost predicate Plain(ts: seq<Task>, hotId: int) {
    forall i :: 0 <= i < |ts| ==> ts[i].id != hotId && ts[i].id != TRIGGER
  }

  /** The two processors from the second tick on. In FIFO mode P0 has `left` plain tasks before
      the hot one, and P1, with at least as many plain tasks, cannot go idle and steal it first.
      In runnext mode the hot task sits in P0's slot. */
  ghost predicate HotWaits(mode: QueueMode, hot: Task, left: int, q0: Queues, q1: Queues) {
    && Plain(q1.runq, hot.id) && q1.runnext == None
    && match mode
       case FIFO =>
         && q0.runnext == None && 0 <= left == |q0.runq| - 1 <= |q1.runq|
         && q0.runq[left] == hot && Plain(q0.runq[..left], hot.id)
       case RunNext => left == 0 && q0.runnext == Some(hot)
  }

  /** One turn of an idle-or-busy P1: its queues, its victim's, whether it ran the hot task, and
      how many tasks it stole. */
  datatype Turned = Turned(q: Queues, victim: Queues, hot: bool, stolen: nat)

  function Turn(mode: QueueMode, hotId: int, id: int, q: Queues, victim: Queues): Turned {
    var (r, t) := PopLocal(q);
    if t.Some? then
      if t.value.id == hotId then Turned(r, victim, true, 0)
      else Turned(React(r, mode, t.value, hotId, id), victim, false, 0)
    else
      var (rest, stolen) := StealHalf(victim);
      if stolen == [] then Turned(r, rest, false, 0)
      else if stolen[0].id == hotId then Turned(r, rest, true, |stolen|)
      else
        var made := React(r, mode, stolen[0], hotId, id);
        Turned(made.(runq := made.runq + stolen[1..]), rest, false, |stolen|)
  }

  /** Later, P0 runs the hot task exactly when nothing plain is before it; otherwise P1 has a
      plain task to run too, and one fewer is left. */
  lemma {:induction false} LaterTick(mode: QueueMode, hot: Task, left: int, q0: Queues, q1: Queues)
    requires HotWaits(mode, hot, left, q0, q1) && hot.id != TRIGGER
    ensures var (r0, t0) := PopLocal(q0);
      var u := Turn(mode, hot.id, 1, q1, r0);
      && t0.Some? && t0.value.id != TRIGGER && (t0.value.id == hot.id <==> left == 0)
      && (left > 0 ==> !u.hot && u.stolen == 0 && HotWaits(mode, hot, left - 1, u.victim, u.q))
  {
    if left > 0 {
      assert q0.runq[..left][0] == q0.runq[0];
      var r0 := PopLocal(q0).0;
      assert r0.runq[..left - 1] == q0.runq[..left][1..];
    }
  }

  /** The tasks behind the trigger, once it has run and made the hot task. */
  function Behind(mode: QueueMode, n: nat, hot: Task): Queues {
    Enqueue(PopLocal(Queues(Seeds(n), None)).0, mode, hot)
  }

  lemma {:induction false} TriggerRuns(mode: QueueMode, n: nat, hot: Task)
    requires n >= 1
    ensures PopLocal(Queues(Seeds(n), None)).1 == Some(Task(TRIGGER, 0))
    ensures var b := Behind(mode, n, hot);
      && b.runnext == (if mode == FIFO then None else Some(hot))
      && |b.runq| == (if mode == FIFO then n else n - 1)
      && (forall i :: 0 <= i < n - 1 ==> b.runq[i] == Task(i + 2, 0))
      && (mode == FIFO ==> b.runq[n - 1] == hot)
  {
  }

  /** The first steal finds the hot task alone in FIFO mode with one seed, and otherwise only
      plain tasks. */
  lemma {:induction false} FirstSteal(mode: QueueMode, n: nat, hot: Task)
    requires n >= 1 && hot.id != TRIGGER && !(1 <= hot.id <= n)
    ensures PopLocal(Queues(Seeds(n), None)).1 == Some(Task(TRIGGER, 0))
    ensures var u := Turn(mode, hot.id, 1, Queues([], None), Behind(mode, n, hot));
      && u.stolen == HotStolen(mode, n, 1)
      && (u.hot <==> mode == FIFO && n == 1)
      && (!u.hot ==> HotWaits(mode, hot, HotTick(mode, n, n + 2) - 1, u.victim, u.q))
  {
    TriggerRuns(mode, n, hot);
    var (q0, stolen) := StealHalf(Behind(mode, n, hot));
    assert n == 1 && mode == FIFO ==> stolen == [hot];
    assert mode != FIFO || n > 1 ==> Plain(stolen, hot.id);
    if mode == FIFO && n > 1 {
      assert |q0.runq| == n / 2;
      assert q0.runq[n / 2 - 1] == hot;
    }
  }

  method RunOrSteal(p: Proc, victim: Proc, mode: QueueMode, hotId: int) returns (hot: bool, stolen: nat)
    requires p != victim
    modifies p, victim
    ensures Turned(p.Abs(), victim.Abs(), hot, stolen) == Turn(mode, hotId, p.id, old(p.Abs()), old(victim.Abs()))
  {
    var t := p.Pop();
    if t.Some? {
      if t.value.id == hotId { return true, 0; }
      p.AfterRunning(mode, t.value, hotId);
      return false, 0;
    }
    var batch := victim.GiveHalf();
    if |batch| > 0 {
      if batch[0].id == hotId { return true, |batch|; }
      p.AfterRunning(mode, batch[0], hotId);
      p.runq := p.runq + batch[1..];
    }
    return false, |batch|;
  }

  /** One tick of the scenario: P0 runs a task, then P1 has its turn. */
  datatype Ticked = Ticked(q0: Queues, q1: Queues, hot: bool, stolen: nat)

  function Tick(mode: QueueMode, hotId: int, q0: Queues, q1: Queues): Ticked {
    var (r, t) := PopLocal(q0);
    if t.Some? && t.value.id == hotId then Ticked(r, q1, true, 0)
    else
      var u := Turn(mode, hotId, 1, q1, if t.Some? then React(r, mode, t.value, hotId, 0) else r);
      Ticked(u.victim, u.q, u.hot, u.stolen)
  }

  method RunTick(p0: Proc, p1: Proc, mode: QueueMode, hotId: int) returns (hot: bool, stolen: nat)
    requires p0 != p1 && p0.id == 0 && p1.id == 1
    modifies p0, p1
    ensures Ticked(p0.Abs(), p1.Abs(), hot, stolen) == Tick(mode, hotId, old(p0.Abs()), old(p1.Abs()))
  {
    var t := p0.Pop();
    if t.Some? {
      if t.value.id == hotId { return true, 0; }
      p0.AfterRunning(mode, t.value, hotId);
    }
    hot, stolen := RunOrSteal(p1, p0, mode, hotId);
  }

  /** The processors before a given tick, if the hot task has not run yet. */
  ghost predicate AtTick(mode: QueueMode, n: nat, hot: Task, tick: nat, q0: Queues, q1: Queues) {
    if tick == 0 || n == 0 then q0 == Queues(Seeds(n), None) && q1 == Queues([], None)
    else HotWaits(mode, hot, HotTick(mode, n, n + 2) - tick, q0, q1)
  }

  /** The hot task runs at its tick and not before; only the first tick steals. */
  lemma {:induction false} TickRuns(mode: QueueMode, n: nat, hot: Task, tick: nat, q0: Queues, q1: Queues)
    requires AtTick(mode, n, hot, tick, q0, q1) && hot.id != TRIGGER && !(1 <= hot.id <= n) && hot.producer == 0
    ensures var u := Tick(mode, hot.id, q0, q1);
      && u.stolen == (if tick == 0 then HotStolen(mode, n, 1) else 0)
      && (u.hot <==> n > 0 && tick == HotTick(mode, n, n + 2))
      && (!u.hot ==> AtTick(mode, n, hot, tick + 1, u.q0, u.q1))
  {
    if n > 0 && tick == 0 {
      FirstSteal(mode, n, hot);
    } else if n > 0 {
      LaterTick(mode, hot, HotTick(mode, n, n + 2) - tick, q0, q1);
    }
  }

  /** Two processors, `n` seed tasks on P0, a tick bound: the first task makes the hot task on
      the processor that runs it, and an idle P1 steals from P0. The source has 10 seeds, 100
      ticks and hot id 999. */
  method RunHotLatency(mode: QueueMode, n: nat, bound: nat, hotId: int) returns (hotTick: int, stolen: nat)
    requires hotId != TRIGGER && !(1 <= hotId <= n)
    ensures hotTick == HotTick(mode, n, bound)
    ensures stolen == HotStolen(mode, n, bound)
  {
    var p0 := new Proc(0);
    var p1 := new Proc(1);
    for i := 0 to n
      invariant p0.Abs() == Queues(Seeds(i), None) && p1.Abs() == Queues([], None)
    {
      p0.runq := p0.runq + [Task(i + 1, 0)];
    }
    hotTick := -1;
    stolen := 0;
    var tick := 0;
    ghost var hot := Task(hotId, 0);
    while tick < bound
      invariant 0 <= tick <= bound && hotTick == -1
      invariant stolen == HotStolen(mode, n, tick)
      invariant n > 0 ==> tick <= HotTick(mode, n, n + 2)
      invariant AtTick(mode, n, hot, tick, p0.Abs(), p1.Abs())
    {
      TickRuns(mode, n, hot, tick, p0.Abs(), p1.Abs());
      var found, batch := RunTick(p0, p1, mode, hotId);
      stolen := stolen + batch;
      if found {
        hotTick := tick;
        break;
      }
      tick := tick + 1;
    }
  }
}
