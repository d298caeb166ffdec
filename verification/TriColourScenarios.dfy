/** The scenarios in which an object can be lost, run under all five barriers: which mode loses
    it is proved in both directions. */
module TriColourScenarios {
  import opened Reachability
  import opened TriColour
  import opened TriColourDrain
  import opened TriColourSafety
  import opened TriColourModes

  // ---------- the mutator's view does not depend on the mode ----------

  ghost predicate SameGraph(s: State, t: State) {
    t.slots == s.slots && |t.color| == |s.color| && t.globals == s.globals && t.stack == s.stack
  }

  /** What an operation does to the graph, whatever the barrier. */
  lemma {:induction false} ApplyMovesGraph(s: State, n0: nat, op: Op)
    requires Collecting(s, n0) && InRange(s, op)
    ensures var t := Apply(s, op);
      && Collecting(t, n0) && t.globals == s.globals
      && t.slots == (match op
                     case StoreHeapOp(dst, i, src) => s.slots[dst := s.slots[dst][i := src]]
                     case AllocOp => s.slots + [[Nil]]
                     case _ => s.slots)
      && t.stack == (if op.StoreStackOp? then s.stack[op.j := op.val] else s.stack)
  {
    ApplyCollecting(s, n0, op);
    match op {
      case StoreHeapOp(dst, i, src) =>
        SlotInHeap(s, dst, i);
        BarrierEffect(s, s.slots[dst][i], src);
      case StoreStackOp(j, val) =>
      case AllocOp =>
      case MarkStepOp(k) =>
        if k < |s.work| { StepEffect(s, k); }
      case ScanStackOp =>
        ShadeAllTidy(s.(stackScans := s.stackScans + 1, stackScanned := true), s.stack);
    }
  }

  lemma {:induction false} RunsInAnyMode(s: State, t: State, n0: nat, ops: seq<Op>)
    requires Collecting(s, n0) && Collecting(t, n0) && SameGraph(s, t) && RunsHonestly(s, n0, ops)
    ensures RunsHonestly(t, n0, ops) && RunsInRange(s, ops) && RunsInRange(t, ops)
    ensures Collecting(Run(s, ops), n0) && Collecting(Run(t, ops), n0) && SameGraph(Run(s, ops), Run(t, ops))
    decreases |ops|
  {
    HonestRunsInRange(s, n0, ops);
    if ops != [] {
      ApplyMovesGraph(s, n0, ops[0]);
      LiveOfGraph(s, t);
      assert InRange(t, ops[0]) && Honest(t, n0, ops[0]);
      ApplyMovesGraph(t, n0, ops[0]);
      RunsInAnyMode(Apply(s, ops[0]), Apply(t, ops[0]), n0, ops[1..]);
    }
  }

  lemma {:induction false} FinishKeepsGraph(s: State)
    requires Tidy(s)
    ensures SameGraph(s, FinishMark(s))
  {
    if s.mode == InsertRescan {
      RescanShades(s);
      DrainAllIsClosure(ScanStack(s.(stackScanned := false)));
    } else {
      DrainAllIsClosure(s);
    }
  }

  /** A schedule of one mode is a schedule of every mode and ends in the same graph. */
  lemma {:induction false} ScheduleInAnyMode(s: State, t: State, ops: seq<Op>)
    requires Schedule(s, ops) && Idle(t) && SameGraph(s, t)
    ensures Schedule(t, ops) && SameGraph(EndOfCycle(s, ops), EndOfCycle(t, ops))
  {
    StartMarkEffect(s);
    StartMarkEffect(t);
    RunsInAnyMode(StartMark(s), StartMark(t), |s.color|, ops);
    FinishKeepsGraph(Run(StartMark(s), ops));
    FinishKeepsGraph(Run(StartMark(t), ops));
  }

  // ---------- which modes lose ----------

  ghost predicate Loses(s: State, ops: seq<Op>) {
    Schedule(s, ops) && Lost(EndOfCycle(s, ops)) != {}
  }

  /** The operations are a schedule, and whether they lose an object. */
  ghost predicate Verdict(s: State, ops: seq<Op>, loses: bool) {
    Schedule(s, ops) && (Loses(s, ops) <==> loses)
  }

  lemma {:induction false} LosesOne(s: State, ops: seq<Op>, x: nat)
    requires Schedule(s, ops) && x in Lost(EndOfCycle(s, ops))
    ensures Verdict(s, ops, true)
  {
  }

  lemma {:induction false} SafeModeKeeps(s: State, ops: seq<Op>)
    requires Schedule(s, ops) && !s.stackScanned
    requires s.mode == InsertRescan || s.mode == Hybrid || (s.mode == Delete && ScansFirst(ops))
    ensures Verdict(s, ops, false)
  {
    HonestRunsInRange(StartMark(s), |s.color|, ops);
    match s.mode {
      case InsertRescan => InsertRescanNeverLoses(s, ops);
      case Hybrid => HybridNeverLoses(s, ops);
      case Delete => SnapshotIsExact(s, ops);
    }
  }

  /** Insertion loses nothing if the stack ends with nothing but nil. */
  lemma {:induction false} InsertKeeps(s: State, ops: seq<Op>)
    requires Schedule(s, ops) && s.mode == Insert && StackIsShaded(EndOfCycle(s, ops))
    ensures Verdict(s, ops, false)
  {
    HonestRunsInRange(StartMark(s), |s.color|, ops);
    InsertLosesByStackOnly(s, ops);
  }

  // ---------- S3 ----------

  ghost predicate EndsWithStack(s: State, ops: seq<Op>, stack: seq<Ref>) {
    Schedule(s, ops) && EndOfCycle(s, ops).stack == stack
  }

  /** The stack of a cycle is that of its last operation. */
  lemma {:induction false} CycleStack(s: State, s0: State, ops: seq<Op>, r: State)
    requires Idle(s) && StartMark(s) == s0 && ScanStackOp in ops && RunsHonestly(s0, |s.color|, ops)
    requires RunsInRange(s0, ops) && Run(s0, ops) == r && Tidy(r)
    ensures EndsWithStack(s, ops, r.stack)
  {
    FinishKeepsGraph(r);
  }

  lemma {:induction false} GreyStackCycle(none: BarrierMode, stale: bool)
    requires none == NoBarrier
    ensures EndsWithStack(GreyStack(none, stale), GreyStackOps(), GreyStackAt(none, stale, 4).stack)
  {
    var ops := GreyStackOps();
    GreyStackStart(none, stale);
    GreyStackRun(none, stale);
    GreyStackDrain(none, stale);
    assert ops[3] == ScanStackOp;
    CycleStack(GreyStack(none, stale), GreyStackAt(none, stale, 0), ops, GreyStackAt(none, stale, 4));
  }

  lemma {:induction false} GreyStackModes(none: BarrierMode, mode: BarrierMode, stale: bool)
    ensures Idle(GreyStack(mode, stale)) && SameGraph(GreyStack(none, stale), GreyStack(mode, stale))
    ensures GreyStackAt(none, stale, 4).stack == [Nil]
  {
    GreyStackStart(mode, stale);
  }

  lemma {:induction false} NilStackKeeps(s: State, ops: seq<Op>, stack: seq<Ref>)
    requires EndsWithStack(s, ops, stack) && s.mode == Insert && stack == [Nil]
    ensures Verdict(s, ops, false)
  {
    InsertKeeps(s, ops);
  }

  /** The schedule of one mode, which ends with nothing on the stack, in a safe mode. */
  lemma {:induction false} KeepsAll(s: State, t: State, ops: seq<Op>, stack: seq<Ref>)
    requires EndsWithStack(s, ops, stack) && stack == [Nil]
    requires Idle(t) && SameGraph(s, t) && !t.stackScanned && t.mode in {Insert, InsertRescan, Hybrid}
    ensures Verdict(t, ops, false)
  {
    ScheduleInAnyMode(s, t, ops);
    if t.mode == Insert { NilStackKeeps(t, ops, stack); } else { SafeModeKeeps(t, ops); }
  }

  /** S3, the grey stack: lost with no barrier and with deletion only. */
  lemma {:induction false} GreyStackVerdicts(mode: BarrierMode)
    ensures Verdict(GreyStack(mode, false), GreyStackOps(), mode == NoBarrier || mode == Delete)
  {
    if mode == NoBarrier || mode == Delete {
      GreyStackLoses(mode, false);
      LosesOne(GreyStack(mode, false), GreyStackOps(), 1);
    } else {
      GreyStackKeeps(NoBarrier, mode, false);
    }
  }

  lemma {:induction false} GreyStackKeeps(none: BarrierMode, mode: BarrierMode, stale: bool)
    requires none == NoBarrier && mode in {Insert, InsertRescan, Hybrid} && !stale
    ensures Verdict(GreyStack(mode, stale), GreyStackOps(), false)
  {
    GreyStackCycle(none, stale);
    GreyStackModes(none, mode, stale);
    KeepsAll(GreyStack(none, stale), GreyStack(mode, stale), GreyStackOps(), GreyStackAt(none, stale, 4).stack);
  }

  // ---------- S4 ----------

  lemma {:induction false} BlackStackSchedule(mode: BarrierMode)
    ensures Schedule(BlackStack(mode, false), BlackStackOps()) && ScansFirst(BlackStackOps())
  {
    BlackStackLoses(NoBarrier, false);
    BlackStackStart(mode, false);
    ScheduleInAnyMode(BlackStack(NoBarrier, false), BlackStack(mode, false), BlackStackOps());
    assert BlackStackOps()[0] == ScanStackOp;
  }

  /** S4, the black stack: lost with no barrier and with insertion only. */
  lemma {:induction false} BlackStackVerdicts(mode: BarrierMode)
    ensures Verdict(BlackStack(mode, false), BlackStackOps(), mode == NoBarrier || mode == Insert)
  {
    if mode == NoBarrier || mode == Insert {
      BlackStackLoses(mode, false);
      LosesOne(BlackStack(mode, false), BlackStackOps(), 2);
    } else {
      BlackStackSchedule(mode);
      SafeModeKeeps(BlackStack(mode, false), BlackStackOps());
    }
  }

  // ---------- S2 ----------

  /** On the heap of S4: as there, and then B is stored into the black object keep. */
  function HeapHazardOps(): seq<Op> {
    [ScanStackOp] + ([MarkStepOp(0)] + ([StoreStackOp(0, To(2))] + ([StoreHeapOp(1, 0, Nil)] + HazardTail())))
  }

  function HazardTail(): seq<Op> {
    [StoreHeapOp(0, 0, To(2))] + []
  }

  /** After the last store. */
  function HazardEnd(mode: BarrierMode): State {
    BlackStackAt(mode, false, 4).(
      slots := [[To(2)], [Nil], [Nil]],
      color := if mode == Insert then [Black, Grey, Grey] else [Black, Grey, White],
      work := if mode == Insert then [1, 2] else [1],
      shadeCalls := if mode == Insert then 3 else 2)
  }

  lemma {:induction false} HazardStore(mode: BarrierMode)
    requires mode == NoBarrier || mode == Insert
    ensures var s := BlackStackAt(mode, false, 4);
      WellFormed(s) && StoreInRange(s, 0, 0, To(2)) && StoreHeap(s, 0, 0, To(2)) == HazardEnd(mode)
  {
    var s := BlackStackAt(mode, false, 4);
    BlackStackDrain(mode, false);
    SlotInHeap(s, 0, 0);
    assert s.slots[0][0 := To(2)] == [To(2)];
    var u := Barrier(s, Nil, To(2));
    assert u.color == HazardEnd(mode).color && u.work == HazardEnd(mode).work;
    assert u.slots[0 := [To(2)]] == HazardEnd(mode).slots;
  }

  lemma {:induction false} HazardEndFits(mode: BarrierMode)
    requires mode == NoBarrier || mode == Insert
    ensures WellFormed(HazardEnd(mode))
  {
    var s := BlackStackAt(mode, false, 4);
    BlackStackDrain(mode, false);
    HazardStore(mode);
    StoreHeapTidy(s, 0, 0, To(2));
  }

  lemma {:induction false} HazardLastStep(mode: BarrierMode)
    requires mode == NoBarrier || mode == Insert
    ensures Steps(BlackStackAt(mode, false, 4), 3, StoreHeapOp(0, 0, To(2)), HazardEnd(mode))
  {
    var s := BlackStackAt(mode, false, 4);
    HazardStore(mode);
    HazardEndFits(mode);
    assert s.globals[0] == To(0) && s.stack[0] == To(2);
    RootStore(s, 3, 0, 0, To(2), HazardEnd(mode));
  }

  lemma {:induction false} HazardRun(mode: BarrierMode)
    requires mode == NoBarrier || mode == Insert
    ensures var s0 := BlackStackAt(mode, false, 0);
      RunsHonestly(s0, 3, HeapHazardOps()) && RunsInRange(s0, HeapHazardOps())
      && Run(s0, HeapHazardOps()) == HazardEnd(mode)
  {
    HazardEndFits(mode);
    HazardLastStep(mode);
    Prepend(BlackStackAt(mode, false, 4), 3, StoreHeapOp(0, 0, To(2)), HazardEnd(mode), []);
    FourStepsThen(mode, HazardTail());
  }

  lemma {:induction false} FourStepsThen(mode: BarrierMode, rest: seq<Op>)
    requires mode == NoBarrier || mode == Insert
    requires RunsHonestly(BlackStackAt(mode, false, 4), 3, rest)
    ensures var s0 := BlackStackAt(mode, false, 0); var s4 := BlackStackAt(mode, false, 4);
      var ops := [ScanStackOp] + ([MarkStepOp(0)] + ([StoreStackOp(0, To(2))] + ([StoreHeapOp(1, 0, Nil)] + rest)));
      RunsHonestly(s0, 3, ops) && RunsInRange(s0, ops) && RunsInRange(s4, rest) && Run(s0, ops) == Run(s4, rest)
  {
    var r3 := [StoreHeapOp(1, 0, Nil)] + rest;
    var r2 := [StoreStackOp(0, To(2))] + r3;
    var r1 := [MarkStepOp(0)] + r2;
    BlackStackStep3(mode, false);
    Prepend(BlackStackAt(mode, false, 3), 3, StoreHeapOp(1, 0, Nil), BlackStackAt(mode, false, 4), rest);
    BlackStackStep2(mode, false);
    Prepend(BlackStackAt(mode, false, 2), 3, StoreStackOp(0, To(2)), BlackStackAt(mode, false, 3), r3);
    BlackStackStep1(mode, false);
    Prepend(BlackStackAt(mode, false, 1), 3, MarkStepOp(0), BlackStackAt(mode, false, 2), r2);
    BlackStackStep0(mode, false);
    Prepend(BlackStackAt(mode, false, 0), 3, ScanStackOp, BlackStackAt(mode, false, 1), r1);
  }

  lemma {:induction false} HazardScheduled(mode: BarrierMode)
    requires mode == NoBarrier || mode == Insert
    ensures var s, ops := BlackStack(mode, false), HeapHazardOps();
      Schedule(s, ops) && Tidy(HazardEnd(mode)) && EndOfCycle(s, ops) == FinishMark(HazardEnd(mode))
  {
    var s, ops := BlackStack(mode, false), HeapHazardOps();
    BlackStackStart(mode, false);
    HazardRun(mode);
    assert ops[0] == ScanStackOp;
    HazardStore(mode);
    BlackStackDrain(mode, false);
    StoreHeapTidy(BlackStackAt(mode, false, 4), 0, 0, To(2));
  }

  /** Without a barrier X is scanned empty and B stays white under keep. */
  lemma {:induction false} HazardLoses()
    ensures 2 in Lost(FinishMark(HazardEnd(NoBarrier)))
  {
    var r := HazardEnd(NoBarrier);
    HazardEndFits(NoBarrier);
    var e := r.(color := [Black, Black, White], work := [], scanned := 2);
    ShadeOne(r.(work := r.work[..0] + r.work[0 + 1..]), Nil);
    assert StepAt(r, 0) == e;
    assert FinishMark(r) == e;
    assert e.slots[0][0] == To(2) && e.globals[0] == To(0);
    WhiteChildIsLost(e, 0, 2);
  }

  /** With insertion B is grey when the mutator stops. */
  lemma {:induction false} HazardKeeps()
    requires Tidy(HazardEnd(Insert))
    ensures StackIsShaded(FinishMark(HazardEnd(Insert)))
  {
    assert StackIsShaded(HazardEnd(Insert));
    DrainKeepsStackShaded(HazardEnd(Insert));
  }

  lemma {:induction false} DrainKeepsStackShaded(s: State)
    requires Tidy(s) && StackIsShaded(s) && s.mode != InsertRescan
    ensures StackIsShaded(FinishMark(s))
  {
    DrainAllIsClosure(s);
    forall x: nat | x < |s.color| && To(x) in s.stack ensures x in Marked(s) { NonWhiteIsMarked(s, x); }
  }

  lemma {:induction false} HazardInAnyMode(mode: BarrierMode)
    ensures Schedule(BlackStack(mode, false), HeapHazardOps()) && ScansFirst(HeapHazardOps())
  {
    HazardScheduled(NoBarrier);
    BlackStackStart(mode, false);
    ScheduleInAnyMode(BlackStack(NoBarrier, false), BlackStack(mode, false), HeapHazardOps());
    assert HeapHazardOps()[0] == ScanStackOp;
  }

  /** S2, a move within the heap: lost only with no barrier at all; either half is enough. */
  lemma {:induction false} HeapHazardVerdicts(mode: BarrierMode)
    ensures Verdict(BlackStack(mode, false), HeapHazardOps(), mode == NoBarrier)
  {
    if mode == NoBarrier {
      HazardScheduled(NoBarrier);
      HazardLoses();
      LosesOne(BlackStack(mode, false), HeapHazardOps(), 2);
    } else if mode == Insert {
      HazardScheduled(Insert);
      HazardKeeps();
      InsertKeeps(BlackStack(mode, false), HeapHazardOps());
    } else {
      HazardInAnyMode(mode);
      SafeModeKeeps(BlackStack(mode, false), HeapHazardOps());
    }
  }
}
