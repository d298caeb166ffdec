/** Exactly which barrier modes are safe: the two theorems of TriColourSafety cannot be
    extended to any other mode, nor to a hybrid cycle that starts with a stale scan flag. */
module TriColourModes {
  import opened Reachability
  import opened TriColour
  import opened TriColourDrain
  import opened TriColourSafety

  /** A schedule of one cycle: an idle machine and honest operations with a stack scan. */
  ghost predicate Schedule(s: State, ops: seq<Op>) {
    && Idle(s)
    && RunsHonestly(StartMark(s), |s.color|, ops)
    && ScanStackOp in ops
  }

  ghost function EndOfCycle(s: State, ops: seq<Op>): State
    requires Schedule(s, ops)
  {
    HonestRunsInRange(StartMark(s), |s.color|, ops);
    StartMarkEffect(s);
    RunCollects(StartMark(s), |s.color|, ops);
    FinishMark(Run(StartMark(s), ops))
  }

  lemma {:induction false} RunCollects(s: State, n0: nat, ops: seq<Op>)
    requires Collecting(s, n0) && RunsInRange(s, ops)
    ensures Collecting(Run(s, ops), n0)
    decreases |ops|
  {
    if ops != [] {
      ApplyCollecting(s, n0, ops[0]);
      RunCollects(Apply(s, ops[0]), n0, ops[1..]);
    }
  }

  /** No schedule in this mode, with the scan flag initially `stale`, loses an object. */
  ghost predicate AlwaysSafe(mode: BarrierMode, stale: bool) {
    forall s, ops :: Schedule(s, ops) && s.mode == mode && s.stackScanned == stale
      ==> Lost(EndOfCycle(s, ops)) == {}
  }

  lemma {:induction false} RootsAreHeld(s: State, n0: nat)
    ensures forall r :: (r in s.globals || r in s.stack) ==> Holds(s, n0, r)
  {
    ClosureClosed(s.slots, Objects(s.slots), Roots(s) + Fresh(s, n0));
    forall r | r in s.globals || r in s.stack ensures Holds(s, n0, r) {
      if r.To? {
        TargetsAt(s.globals, r.id);
        TargetsAt(s.stack, r.id);
      }
    }
  }

  lemma {:induction false} EdgesAreHeld(s: State, n0: nat, x: nat, y: nat)
    requires x in Held(s, n0) && Edge(s.slots, x, y) && y < |s.slots|
    ensures y in Held(s, n0)
  {
    ClosureClosed(s.slots, Objects(s.slots), Roots(s) + Fresh(s, n0));
  }

  /** A white object that a global reaches in one step is lost. */
  lemma {:induction false} WhiteChildIsLost(s: State, x: nat, y: nat)
    requires To(x) in s.globals && Edge(s.slots, x, y) && y < |s.color| == |s.slots| && s.color[y] == White
    ensures y in Lost(s)
  {
    TargetsAt(s.globals, x);
    ClosureClosed(s.slots, Objects(s.slots), Roots(s));
  }

  lemma {:induction false} WhiteRootIsLost(s: State, y: nat)
    requires To(y) in s.stack && y < |s.color| && s.color[y] == White
    ensures y in Lost(s)
  {
    TargetsAt(s.stack, y);
    ClosureClosed(s.slots, Objects(s.slots), Roots(s));
  }

  // ---------- running a concrete schedule ----------

  /** One step of a concrete schedule: `t` is what `op` makes of `s`. */
  ghost predicate Steps(s: State, n0: nat, op: Op, t: State) {
    WellFormed(s) && InRange(s, op) && Honest(s, n0, op) && Apply(s, op) == t && WellFormed(t)
  }

  lemma {:induction false} Prepend(s: State, n0: nat, op: Op, t: State, rest: seq<Op>)
    requires Steps(s, n0, op, t) && RunsHonestly(t, n0, rest)
    ensures RunsHonestly(s, n0, [op] + rest) && RunsInRange(s, [op] + rest)
    ensures RunsInRange(t, rest) && Run(s, [op] + rest) == Run(t, rest)
  {
    HonestRunsInRange(t, n0, rest);
    var ops := [op] + rest;
    assert ops[0] == op && ops[1..] == rest;
  }

  lemma {:induction false} FourSteps(
    s0: State, s1: State, s2: State, s3: State, s4: State, n0: nat, a: Op, b: Op, c: Op, d: Op)
    requires Steps(s0, n0, a, s1) && Steps(s1, n0, b, s2) && Steps(s2, n0, c, s3) && Steps(s3, n0, d, s4)
    ensures var ops := [a] + ([b] + ([c] + ([d] + [])));
      RunsHonestly(s0, n0, ops) && RunsInRange(s0, ops) && Run(s0, ops) == s4
  {
    Prepend(s3, n0, d, s4, []);
    Prepend(s2, n0, c, s3, [d] + []);
    Prepend(s1, n0, b, s2, [c] + ([d] + []));
    Prepend(s0, n0, a, s1, [b] + ([c] + ([d] + [])));
  }

  lemma {:induction false} CycleEndsIn(s: State, s0: State, ops: seq<Op>, r: State, x: nat)
    requires Idle(s) && StartMark(s) == s0 && ScanStackOp in ops
    requires RunsHonestly(s0, |s.color|, ops) && RunsInRange(s0, ops) && Run(s0, ops) == r
    requires Tidy(r) && x in Lost(FinishMark(r))
    ensures Schedule(s, ops) && x in Lost(EndOfCycle(s, ops))
  {
  }

  /** A store by a mutator that has both operands in its roots. */
  lemma {:induction false} RootStore(s: State, n0: nat, dst: nat, i: nat, src: Ref, t: State)
    requires WellFormed(s) && StoreInRange(s, dst, i, src)
    requires StoreHeap(s, dst, i, src) == t && WellFormed(t)
    requires To(dst) in s.globals && (src == Nil || src in s.stack)
    ensures Steps(s, n0, StoreHeapOp(dst, i, src), t)
  {
    RootsAreHeld(s, n0);
    assert Holds(s, n0, To(dst)) && Holds(s, n0, src);
  }

  lemma {:induction false} ShadeOne(s: State, r: Ref)
    requires InHeap(|s.color|, r)
    ensures ShadeAll(s, [r]) == Shade(s, r)
  {
    assert [r][..|[r]| - 1] == [];
  }

  // ---------- scenario S3: grey stack ----------

  /** Objects A (global) and B (on the stack). */
  function GreyStack(mode: BarrierMode, stale: bool): State {
    State(mode, [White, White], [[Nil], [Nil]], [To(0)], [To(1)], stale, false, [], 0, 0, Scans(stale))
  }

  /** A stale flag is left by an earlier scan. */
  function Scans(stale: bool): nat {
    if stale then 1 else 0
  }

  /** A is drained; B, still white, is stored into A; its stack slot is cleared, with no
      barrier; only then is the stack scanned. */
  function GreyStackOps(): seq<Op> {
    [MarkStepOp(0)] + ([StoreHeapOp(0, 0, To(1))] + ([StoreStackOp(0, Nil)] + ([ScanStackOp] + [])))
  }

  lemma {:induction false} GreyStackStart(mode: BarrierMode, stale: bool)
    ensures Idle(GreyStack(mode, stale))
    ensures StartMark(GreyStack(mode, stale)) == GreyStackAt(mode, stale, 0)
  {
    var s := GreyStack(mode, stale);
    var u := s.(collecting := true, color := [White, White]);
    assert u.color == seq(|s.color|, _ => White);
    ShadeOne(u, To(0));
  }

  /** The states S3 passes through after `startMark`. */
  function GreyStackAt(mode: BarrierMode, stale: bool, i: nat): State {
    match i
    case 0 => State(mode, [Grey, White], [[Nil], [Nil]], [To(0)], [To(1)], stale, true, [0], 1, 0, Scans(stale))
    case 1 => State(mode, [Black, White], [[Nil], [Nil]], [To(0)], [To(1)], stale, true, [], 1, 1, Scans(stale))
    case 2 => State(mode, [Black, White], [[To(1)], [Nil]], [To(0)], [To(1)], stale, true, [], 1, 1, Scans(stale))
    case 3 => State(mode, [Black, White], [[To(1)], [Nil]], [To(0)], [Nil], stale, true, [], 1, 1, Scans(stale))
    case _ => State(mode, [Black, White], [[To(1)], [Nil]], [To(0)], [Nil], true, true, [], 1, 1, Scans(stale) + 1)
  }

  lemma {:induction false} GreyStackStep0(mode: BarrierMode, stale: bool)
    ensures Steps(GreyStackAt(mode, stale, 0), 2, MarkStepOp(0), GreyStackAt(mode, stale, 1))
  {
    var s := GreyStackAt(mode, stale, 0);
    ShadeOne(s.(work := s.work[..0] + s.work[0 + 1..]), Nil);
  }

  lemma {:induction false} GreyStackStep1(mode: BarrierMode, stale: bool)
    requires mode == NoBarrier || mode == Delete || (mode == Hybrid && stale)
    ensures Steps(GreyStackAt(mode, stale, 1), 2, StoreHeapOp(0, 0, To(1)), GreyStackAt(mode, stale, 2))
  {
    var s := GreyStackAt(mode, stale, 1);
    assert s.globals[0] == To(0) && s.stack[0] == To(1);
    GreyStackStore(mode, stale);
    RootStore(s, 2, 0, 0, To(1), GreyStackAt(mode, stale, 2));
  }

  lemma {:induction false} GreyStackStore(mode: BarrierMode, stale: bool)
    requires mode == NoBarrier || mode == Delete || (mode == Hybrid && stale)
    ensures var s := GreyStackAt(mode, stale, 1);
      WellFormed(s) && StoreHeap(s, 0, 0, To(1)) == GreyStackAt(mode, stale, 2)
  {
    var s := GreyStackAt(mode, stale, 1);
    assert s.slots[0][0 := To(1)] == [To(1)];
    assert StoreHeap(s, 0, 0, To(1)).slots == [[To(1)], [Nil]];
  }

  lemma {:induction false} GreyStackStep2(mode: BarrierMode, stale: bool)
    ensures Steps(GreyStackAt(mode, stale, 2), 2, StoreStackOp(0, Nil), GreyStackAt(mode, stale, 3))
  {
  }

  lemma {:induction false} GreyStackStep3(mode: BarrierMode, stale: bool)
    ensures Steps(GreyStackAt(mode, stale, 3), 2, ScanStackOp, GreyStackAt(mode, stale, 4))
  {
    var s := GreyStackAt(mode, stale, 3);
    ShadeOne(s.(stackScans := s.stackScans + 1, stackScanned := true), Nil);
  }

  lemma {:induction false} GreyStackRun(mode: BarrierMode, stale: bool)
    requires mode == NoBarrier || mode == Delete || (mode == Hybrid && stale)
    ensures var s0 := GreyStackAt(mode, stale, 0);
      RunsHonestly(s0, 2, GreyStackOps()) && RunsInRange(s0, GreyStackOps())
      && Run(s0, GreyStackOps()) == GreyStackAt(mode, stale, 4)
  {
    GreyStackStep0(mode, stale);
    GreyStackStep1(mode, stale);
    GreyStackStep2(mode, stale);
    GreyStackStep3(mode, stale);
    FourSteps(GreyStackAt(mode, stale, 0), GreyStackAt(mode, stale, 1), GreyStackAt(mode, stale, 2),
              GreyStackAt(mode, stale, 3), GreyStackAt(mode, stale, 4), 2,
              MarkStepOp(0), StoreHeapOp(0, 0, To(1)), StoreStackOp(0, Nil), ScanStackOp);
  }

  /** Without a barrier on the stored value, the object moved off the grey stack is lost. */
  lemma {:induction false} GreyStackLoses(mode: BarrierMode, stale: bool)
    requires mode == NoBarrier || mode == Delete || (mode == Hybrid && stale)
    ensures var s := GreyStack(mode, stale);
      Schedule(s, GreyStackOps()) && 1 in Lost(EndOfCycle(s, GreyStackOps()))
  {
    GreyStackStart(mode, stale);
    GreyStackRun(mode, stale);
    GreyStackVerdict(mode, stale);
    var ops := GreyStackOps();
    assert ops[3] == ScanStackOp;
    CycleEndsIn(GreyStack(mode, stale), GreyStackAt(mode, stale, 0), ops, GreyStackAt(mode, stale, 4), 1);
  }

  lemma {:induction false} GreyStackDrain(mode: BarrierMode, stale: bool)
    requires mode != InsertRescan
    ensures var r := GreyStackAt(mode, stale, 4); Tidy(r) && FinishMark(r) == r
  {
  }

  lemma {:induction false} GreyStackVerdict(mode: BarrierMode, stale: bool)
    requires mode != InsertRescan
    ensures var r := GreyStackAt(mode, stale, 4); Tidy(r) && 1 in Lost(FinishMark(r))
  {
    var r := GreyStackAt(mode, stale, 4);
    GreyStackDrain(mode, stale);
    assert r.slots[0][0] == To(1) && r.globals[0] == To(0);
    WhiteChildIsLost(r, 0, 1);
  }

  // ---------- scenario S4: black stack ----------

  /** Objects keep (0) and X (1), both global, and B (2), referenced by X only. */
  function BlackStack(mode: BarrierMode, stale: bool): State {
    State(mode, [White, White, White], [[Nil], [To(2)], [Nil]], [To(0), To(1)], [Nil], stale, false, [], 0, 0,
          Scans(stale))
  }

  /** The stack is scanned and keep is drained; B is loaded from X onto the black stack,
      with no barrier, and deleted from X. */
  function BlackStackOps(): seq<Op> {
    [ScanStackOp] + ([MarkStepOp(0)] + ([StoreStackOp(0, To(2))] + ([StoreHeapOp(1, 0, Nil)] + [])))
  }

  lemma {:induction false} BlackStackStart(mode: BarrierMode, stale: bool)
    ensures Idle(BlackStack(mode, stale))
    ensures StartMark(BlackStack(mode, stale)) == BlackStackAt(mode, stale, 0)
  {
    var s := BlackStack(mode, stale);
    var u := s.(collecting := true, color := [White, White, White]);
    assert u.color == seq(|s.color|, _ => White);
    ShadeOne(u, To(0));
    assert s.globals[..1] == [To(0)];
  }

  /** The states S4 passes through after `startMark`; the last two are in `finishMark`. */
  function BlackStackAt(mode: BarrierMode, stale: bool, i: nat): State {
    match i
    case 0 => BlackStackStage(mode, stale, [Grey, Grey, White], To(2), Nil, [0, 1], 0)
    case 1 => BlackStackStage(mode, true, [Grey, Grey, White], To(2), Nil, [0, 1], 0).(stackScans := Scans(stale) + 1)
    case 2 => BlackStackStage(mode, true, [Black, Grey, White], To(2), Nil, [1], 1).(stackScans := Scans(stale) + 1)
    case 3 => BlackStackStage(mode, true, [Black, Grey, White], To(2), To(2), [1], 1).(stackScans := Scans(stale) + 1)
    case 4 => BlackStackStage(mode, true, [Black, Grey, White], Nil, To(2), [1], 1).(stackScans := Scans(stale) + 1)
    case _ => BlackStackStage(mode, true, [Black, Black, White], Nil, To(2), [], 2).(stackScans := Scans(stale) + 1)
  }

  /** What X and the stack slot hold, and how far marking has come. */
  function BlackStackStage(
    mode: BarrierMode, flag: bool, color: seq<Color>, x: Ref, slot: Ref, work: seq<nat>, scanned: nat): State
  {
    State(mode, color, [[Nil], [x], [Nil]], [To(0), To(1)], [slot], flag, true, work, 2, scanned, Scans(flag))
  }

  lemma {:induction false} BlackStackStep0(mode: BarrierMode, stale: bool)
    ensures Steps(BlackStackAt(mode, stale, 0), 3, ScanStackOp, BlackStackAt(mode, stale, 1))
  {
    var s := BlackStackAt(mode, stale, 0);
    ShadeOne(s.(stackScans := s.stackScans + 1, stackScanned := true), Nil);
  }

  lemma {:induction false} BlackStackStep1(mode: BarrierMode, stale: bool)
    ensures Steps(BlackStackAt(mode, stale, 1), 3, MarkStepOp(0), BlackStackAt(mode, stale, 2))
  {
    var s := BlackStackAt(mode, stale, 1);
    ShadeOne(s.(work := s.work[..0] + s.work[0 + 1..]), Nil);
  }

  lemma {:induction false} BlackStackHolds(mode: BarrierMode, stale: bool)
    ensures Holds(BlackStackAt(mode, stale, 2), 3, To(2))
  {
    var s := BlackStackAt(mode, stale, 2);
    RootsAreHeld(s, 3);
    assert s.globals[1] == To(1);
    assert Holds(s, 3, To(1));
    assert s.slots[1][0] == To(2);
    EdgesAreHeld(s, 3, 1, 2);
  }

  lemma {:induction false} BlackStackFits(mode: BarrierMode, stale: bool)
    ensures WellFormed(BlackStackAt(mode, stale, 2)) && WellFormed(BlackStackAt(mode, stale, 3))
  {
  }

  lemma {:induction false} BlackStackStep2(mode: BarrierMode, stale: bool)
    ensures Steps(BlackStackAt(mode, stale, 2), 3, StoreStackOp(0, To(2)), BlackStackAt(mode, stale, 3))
  {
    BlackStackHolds(mode, stale);
    BlackStackFits(mode, stale);
    assert BlackStackAt(mode, stale, 2).stack[0 := To(2)] == [To(2)];
  }

  lemma {:induction false} BlackStackStep3(mode: BarrierMode, stale: bool)
    requires mode == NoBarrier || mode == Insert
    ensures Steps(BlackStackAt(mode, stale, 3), 3, StoreHeapOp(1, 0, Nil), BlackStackAt(mode, stale, 4))
  {
    var s := BlackStackAt(mode, stale, 3);
    assert s.globals[1] == To(1);
    BlackStackStore(mode, stale);
    RootStore(s, 3, 1, 0, Nil, BlackStackAt(mode, stale, 4));
  }

  lemma {:induction false} BlackStackStore(mode: BarrierMode, stale: bool)
    requires mode == NoBarrier || mode == Insert
    ensures var s := BlackStackAt(mode, stale, 3);
      WellFormed(s) && StoreHeap(s, 1, 0, Nil) == BlackStackAt(mode, stale, 4)
  {
    var s := BlackStackAt(mode, stale, 3);
    assert s.slots[1][0 := Nil] == [Nil];
    assert StoreHeap(s, 1, 0, Nil).slots == [[Nil], [Nil], [Nil]];
  }

  lemma {:induction false} BlackStackRun(mode: BarrierMode, stale: bool)
    requires mode == NoBarrier || mode == Insert
    ensures var s0 := BlackStackAt(mode, stale, 0);
      RunsHonestly(s0, 3, BlackStackOps()) && RunsInRange(s0, BlackStackOps())
      && Run(s0, BlackStackOps()) == BlackStackAt(mode, stale, 4)
  {
    BlackStackStep0(mode, stale);
    BlackStackStep1(mode, stale);
    BlackStackStep2(mode, stale);
    BlackStackStep3(mode, stale);
    FourSteps(BlackStackAt(mode, stale, 0), BlackStackAt(mode, stale, 1), BlackStackAt(mode, stale, 2),
              BlackStackAt(mode, stale, 3), BlackStackAt(mode, stale, 4), 3,
              ScanStackOp, MarkStepOp(0), StoreStackOp(0, To(2)), StoreHeapOp(1, 0, Nil));
  }

  lemma {:induction false} BlackStackDrain(mode: BarrierMode, stale: bool)
    requires mode != InsertRescan
    ensures var r := BlackStackAt(mode, stale, 4); Tidy(r) && FinishMark(r) == BlackStackAt(mode, stale, 5)
  {
    var r := BlackStackAt(mode, stale, 4);
    ShadeOne(r.(work := r.work[..0] + r.work[0 + 1..]), Nil);
    assert StepAt(r, 0) == BlackStackAt(mode, stale, 5);
  }

  lemma {:induction false} BlackStackVerdict(mode: BarrierMode, stale: bool)
    ensures 2 in Lost(BlackStackAt(mode, stale, 5))
  {
    var e := BlackStackAt(mode, stale, 5);
    assert e.stack[0] == To(2);
    WhiteRootIsLost(e, 2);
  }

  /** Without a barrier on the deleted value, the object moved onto the black stack is lost. */
  lemma {:induction false} BlackStackLoses(mode: BarrierMode, stale: bool)
    requires mode == NoBarrier || mode == Insert
    ensures var s := BlackStack(mode, stale);
      Schedule(s, BlackStackOps()) && 2 in Lost(EndOfCycle(s, BlackStackOps()))
  {
    BlackStackStart(mode, stale);
    BlackStackRun(mode, stale);
    BlackStackDrain(mode, stale);
    BlackStackVerdict(mode, stale);
    var ops := BlackStackOps();
    assert ops[0] == ScanStackOp;
    CycleEndsIn(BlackStack(mode, stale), BlackStackAt(mode, stale, 0), ops, BlackStackAt(mode, stale, 4), 2);
  }

  // ---------- the classification ----------

  /** A mode never loses a live object iff it is insertion with rescan, or hybrid started
      with the scan flag cleared. */
  lemma {:induction false} SafeModes(mode: BarrierMode, stale: bool)
    ensures AlwaysSafe(mode, stale) <==> mode == InsertRescan || (mode == Hybrid && !stale)
  {
    if mode == InsertRescan || (mode == Hybrid && !stale) {
      forall s, ops | Schedule(s, ops) && s.mode == mode && s.stackScanned == stale
        ensures Lost(EndOfCycle(s, ops)) == {}
      {
        if mode == Hybrid {
          HybridNeverLoses(s, ops);
        } else {
          HonestRunsInRange(StartMark(s), |s.color|, ops);
          InsertRescanNeverLoses(s, ops);
        }
      }
    } else if mode == Insert {
      BlackStackLoses(mode, stale);
      assert Lost(EndOfCycle(BlackStack(mode, stale), BlackStackOps())) != {};
    } else {
      GreyStackLoses(mode, stale);
      assert Lost(EndOfCycle(GreyStack(mode, stale), GreyStackOps())) != {};
    }
  }
}
