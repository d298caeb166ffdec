/** What each write barrier guarantees, over every interleaving of one cycle. */
module TriColourSafety {
  import opened Reachability
  import opened TriColour
  import opened TriColourDrain

  // ---------- one cycle ----------

  /** Every operation stays in range. (Well-formedness then comes for free: see
      `ApplyCollecting`.) */
  ghost predicate RunsInRange(s: State, ops: seq<Op>)
    decreases |ops|
  {
    && WellFormed(s)
    && (ops == [] || (InRange(s, ops[0]) && RunsInRange(Apply(s, ops[0]), ops[1..])))
  }

  /** In addition the mutator only uses references it holds. */
  ghost predicate RunsHonestly(s: State, n0: nat, ops: seq<Op>)
    decreases |ops|
  {
    && WellFormed(s)
    && (ops == [] ||
        (InRange(s, ops[0]) && Honest(s, n0, ops[0]) && RunsHonestly(Apply(s, ops[0]), n0, ops[1..])))
  }

  function Run(s: State, ops: seq<Op>): State
    requires RunsInRange(s, ops)
    decreases |ops|
  {
    if ops == [] then s else Run(Apply(s, ops[0]), ops[1..])
  }

  ghost function FinishMark(s: State): State
    requires WellFormed(s)
  {
    if s.mode == InsertRescan then
      ShadeAllFits(s.(stackScans := s.stackScans + 1, stackScanned := true), s.stack);
      DrainAll(ScanStack(s.(stackScanned := false)))
    else DrainAll(s)
  }

  /** A machine on which `startMark` may be called: any heap, any roots, nothing queued. */
  ghost predicate Idle(s: State) {
    WellFormed(s) && s.work == []
  }

  lemma {:induction false} HonestRunsInRange(s: State, n0: nat, ops: seq<Op>)
    requires RunsHonestly(s, n0, ops)
    ensures RunsInRange(s, ops)
    decreases |ops|
  {
    if ops != [] { HonestRunsInRange(Apply(s, ops[0]), n0, ops[1..]); }
  }

  // ---------- verdict ----------

  /** Live objects that ended white: they would be freed while in use. */
  ghost function Lost(s: State): set<nat> {
    Live(s) * Colored(s, White)
  }

  /** Dead objects that did not end white: they survive this cycle. */
  ghost function Floating(s: State): set<nat> {
    Below(|s.color|) - Live(s) - Colored(s, White)
  }

  // ---------- the start of a cycle ----------

  lemma {:induction false} StartMarkEffect(s: State)
    requires Idle(s)
    ensures var t := StartMark(s);
      && Collecting(t, |s.color|)
      && t == s.(collecting := true, color := t.color, work := t.work, shadeCalls := t.shadeCalls)
      && |t.color| == |s.color|
      && forall x: nat :: x < |s.color| ==> t.color[x] == if x in Targets(s.globals) then Grey else White
  {
    var s1 := s.(collecting := true, color := seq(|s.color|, _ => White));
    ShadeAllTidy(s1, s.globals);
    ShadeAllEffect(s1, s.globals);
    forall x: nat ensures x in Targets(s.globals) <==> To(x) in s.globals {
      TargetsAt(s.globals, x);
    }
  }

  // ---------- the strong invariant: no black object points to a white one ----------

  ghost predicate NoBlackToWhite(s: State)
    requires WellFormed(s)
  {
    forall x: nat, y: nat :: Edge(s.slots, x, y) && s.color[x] == Black ==> s.color[y] != White
  }

  ghost predicate Shaded(s: State, refs: seq<Ref>) {
    forall x: nat :: x < |s.color| && To(x) in refs ==> s.color[x] != White
  }

  ghost predicate Strong(s: State, n0: nat) {
    Collecting(s, n0) && NoBlackToWhite(s) && Shaded(s, s.globals)
  }

  lemma {:induction false} ApplyKeepsStrong(s: State, n0: nat, op: Op)
    requires Strong(s, n0) && InRange(s, op)
    requires op.StoreHeapOp? ==> ShadesNewValue(s)
    ensures Strong(Apply(s, op), n0)
  {
    ApplyCollecting(s, n0, op);
    match op {
      case StoreHeapOp(dst, i, src) =>
        SlotInHeap(s, dst, i);
        var u := Barrier(s, s.slots[dst][i], src);
        BarrierTidy(s, s.slots[dst][i], src);
        WriteSlotEdges(u, dst, i, src);
      case StoreStackOp(j, val) =>
      case AllocOp =>
        AllocEdges(s);
      case MarkStepOp(k) =>
        if k < |s.work| { StepEffect(s, k); }
      case ScanStackOp =>
        ShadeAllTidy(s.(stackScans := s.stackScans + 1, stackScanned := true), s.stack);
    }
  }

  /** If moreover the roots are shaded, everything held will be marked. */
  lemma {:induction false} StrongMarksHeld(s: State, n0: nat)
    requires Strong(s, n0) && Shaded(s, s.stack)
    ensures Held(s, n0) <= Marked(s)
  {
    forall x | x in Roots(s) + Fresh(s, n0) ensures x in Marked(s) {
      TargetsAt(s.globals, x);
      TargetsAt(s.stack, x);
      if To(x) in s.globals {
        assert InHeap(|s.color|, To(x));
      } else if To(x) in s.stack {
        assert InHeap(|s.color|, To(x));
      }
      NonWhiteIsMarked(s, x);
    }
    StrongMarkedIsClosed(s, n0);
    ClosureLeast(s.slots, Objects(s.slots), Roots(s) + Fresh(s, n0), Marked(s));
  }

  /** What will be marked leads only to what will be marked. */
  lemma {:induction false} StrongMarkedIsClosed(s: State, n0: nat)
    requires Strong(s, n0)
    ensures forall x: nat, y: nat :: x in Marked(s) && Edge(s.slots, x, y) ==> y in Marked(s)
  {
    ClosureClosed(s.slots, Colored(s, White), Colored(s, Grey));
    forall x: nat, y: nat | x in Marked(s) && Edge(s.slots, x, y) ensures y in Marked(s) {
      if s.color[y] != White { NonWhiteIsMarked(s, y); }
    }
  }

  // ---------- the weak invariant: a shaded deletion loses nothing ----------

  /** Turning white objects grey only adds to what will be marked. */
  lemma {:induction false} GreyerMarksMore(s: State, t: State)
    requires Greyer(s, t)
    ensures Marked(s) <= Marked(t)
  {
    ClosureClosed(t.slots, Colored(t, White), Colored(t, Grey));
    ClosureLeast(s.slots, Colored(s, White), Colored(s, Grey), Pending(t));
  }

  /** Overwriting a slot whose old value is not white deletes no marking path. */
  lemma {:induction false} OverwriteMarksMore(s: State, dst: nat, i: nat, src: Ref)
    requires WellFormed(s) && dst < |s.slots| && i < |s.slots[dst]|
    requires var prev := s.slots[dst][i];
      InHeap(|s.color|, prev) && (prev.To? ==> s.color[prev.id] != White)
    ensures Marked(s) <= Marked(WriteSlot(s, dst, i, src))
  {
    var t := WriteSlot(s, dst, i, src);
    WriteSlotEdges(s, dst, i, src);
    ClosureClosed(t.slots, Colored(t, White), Colored(t, Grey));
    assert Colored(s, White) == Colored(t, White) && Colored(s, Grey) == Colored(t, Grey);
    ClosureLeast(s.slots, Colored(s, White), Colored(s, Grey), Pending(t));
  }

  lemma {:induction false} AllocMarksMore(s: State)
    requires WellFormed(s) && s.collecting
    ensures Marked(s) <= Marked(Alloc(s))
  {
    var t := Alloc(s);
    AllocEdges(s);
    ClosureClosed(t.slots, Colored(t, White), Colored(t, Grey));
    ClosureLeast(s.slots, Colored(s, White), Colored(s, Grey), Pending(t));
  }

  /** With the deletion barrier no operation ever unmarks anything. */
  lemma {:induction false} ApplyMarksMore(s: State, n0: nat, op: Op)
    requires Collecting(s, n0) && InRange(s, op)
    requires op.StoreHeapOp? ==> s.mode in {Delete, Hybrid}
    ensures Marked(s) <= Marked(Apply(s, op))
  {
    match op {
      case StoreHeapOp(dst, i, src) =>
        SlotInHeap(s, dst, i);
        var u := Barrier(s, s.slots[dst][i], src);
        BarrierTidy(s, s.slots[dst][i], src);
        GreyerMarksMore(s, u);
        OverwriteMarksMore(u, dst, i, src);
      case StoreStackOp(j, val) =>
        var t := StoreStack(s, j, val);
        assert forall c :: Colored(t, c) == Colored(s, c);
      case AllocOp =>
        AllocMarksMore(s);
      case MarkStepOp(k) =>
        if k < |s.work| { StepKeepsMarked(s, k); }
      case ScanStackOp =>
        var u := s.(stackScans := s.stackScans + 1, stackScanned := true);
        ShadeAllTidy(u, s.stack);
        GreyerMarksMore(s, ScanStack(s));
    }
  }

  // ---------- what the mutator can hold ----------

  /** If no edge of `t` leads out of `c` except the edges of `s`, then `c` with the fresh
      objects is still closed. */
  lemma {:induction false} HoldsNoMore(s: State, t: State, n0: nat, c: set<nat>)
    requires NoDangling(s.slots) && n0 <= |s.slots| <= |t.slots|
    requires Closed(s.slots, Objects(s.slots), Roots(s) + Fresh(s, n0), c)
    requires Roots(t) <= c
    requires forall x: nat, y: nat :: Edge(t.slots, x, y) ==> Edge(s.slots, x, y) || y in c
    ensures Closed(t.slots, Objects(t.slots), Roots(t) + Fresh(t, n0), c + Fresh(t, n0))
  {
    forall x: nat, y: nat | x in c + Fresh(t, n0) && Edge(t.slots, x, y)
      ensures y in c + Fresh(t, n0)
    {
      assert Edge(s.slots, x, y) ==> x in c + Fresh(s, n0) && y in Objects(s.slots);
    }
  }

  /** An honest mutator never comes to hold an object it did not hold before, except a
      newly allocated one. */
  lemma {:induction false} ApplyHoldsNoMore(s: State, n0: nat, op: Op, c: set<nat>)
    requires Collecting(s, n0) && InRange(s, op) && Honest(s, n0, op)
    requires Closed(s.slots, Objects(s.slots), Roots(s) + Fresh(s, n0), c)
    ensures var t := Apply(s, op);
      Closed(t.slots, Objects(t.slots), Roots(t) + Fresh(t, n0), c + Fresh(t, n0))
  {
    ClosureLeast(s.slots, Objects(s.slots), Roots(s) + Fresh(s, n0), c);
    assert Held(s, n0) <= c;
    ApplyEdges(s, op);
    ApplyRoots(s, op);
    HoldsNoMore(s, Apply(s, op), n0, c);
  }

  /** Only a heap store adds an edge, and only to the stored reference. */
  lemma {:induction false} ApplyEdges(s: State, op: Op)
    requires Tidy(s) && InRange(s, op)
    ensures var t := Apply(s, op);
      && |s.slots| <= |t.slots|
      && forall x: nat, y: nat :: Edge(t.slots, x, y) ==> Edge(s.slots, x, y) || (op.StoreHeapOp? && op.src == To(y))
  {
    match op {
      case StoreHeapOp(dst, i, src) =>
        SlotInHeap(s, dst, i);
        BarrierTidy(s, s.slots[dst][i], src);
        WriteSlotEdges(Barrier(s, s.slots[dst][i], src), dst, i, src);
      case StoreStackOp(j, val) =>
      case AllocOp =>
        AllocEdges(s);
      case MarkStepOp(k) =>
        if k < |s.work| { StepEffect(s, k); }
      case ScanStackOp =>
        ShadeAllTidy(s.(stackScans := s.stackScans + 1, stackScanned := true), s.stack);
    }
  }

  /** Only a stack store adds a root, and only the stored reference. */
  lemma {:induction false} ApplyRoots(s: State, op: Op)
    requires Tidy(s) && InRange(s, op)
    ensures forall x :: x in Roots(Apply(s, op)) ==> x in Roots(s) || (op.StoreStackOp? && op.val == To(x))
  {
    match op {
      case StoreHeapOp(dst, i, src) =>
        SlotInHeap(s, dst, i);
        BarrierTidy(s, s.slots[dst][i], src);
      case StoreStackOp(j, val) =>
        var t := Apply(s, op);
        forall x | x in Targets(t.stack) && val != To(x) ensures x in Targets(s.stack) {
          TargetsAt(t.stack, x);
          TargetsAt(s.stack, x);
        }
      case AllocOp =>
      case MarkStepOp(k) =>
        if k < |s.work| { StepEffect(s, k); }
      case ScanStackOp =>
        ShadeAllTidy(s.(stackScans := s.stackScans + 1, stackScanned := true), s.stack);
    }
  }

  lemma {:induction false} FreshIsMarked(s: State, n0: nat)
    requires Collecting(s, n0)
    ensures Fresh(s, n0) <= Marked(s)
  {
    forall x | x in Fresh(s, n0) ensures x in Marked(s) { NonWhiteIsMarked(s, x); }
  }

  // ---------- hybrid barrier ----------

  /** Before the stack scan the strong invariant holds; afterwards only the weak one. */
  ghost predicate HybridInvariant(s: State, n0: nat) {
    && s.mode == Hybrid
    && Collecting(s, n0)
    && if s.stackScanned then Held(s, n0) <= Marked(s) else Strong(s, n0)
  }

  lemma {:induction false} ApplyKeepsHybrid(s: State, n0: nat, op: Op)
    requires HybridInvariant(s, n0) && InRange(s, op) && Honest(s, n0, op)
    ensures HybridInvariant(Apply(s, op), n0)
  {
    var t := Apply(s, op);
    ApplyCollecting(s, n0, op);
    if s.stackScanned {
      ClosureClosed(s.slots, Objects(s.slots), Roots(s) + Fresh(s, n0));
      ApplyHoldsNoMore(s, n0, op, Held(s, n0));
      ClosureLeast(t.slots, Objects(t.slots), Roots(t) + Fresh(t, n0), Held(s, n0) + Fresh(t, n0));
      ApplyMarksMore(s, n0, op);
      FreshIsMarked(t, n0);
    } else {
      ApplyKeepsStrong(s, n0, op);
      if op == ScanStackOp {
        ShadeAllTidy(s.(stackScans := s.stackScans + 1, stackScanned := true), s.stack);
        StrongMarksHeld(t, n0);
      }
    }
  }

  lemma {:induction false} RunKeepsHybrid(s: State, n0: nat, ops: seq<Op>)
    requires HybridInvariant(s, n0) && RunsHonestly(s, n0, ops)
    ensures RunsInRange(s, ops) && HybridInvariant(Run(s, ops), n0)
    ensures ScanStackOp in ops || s.stackScanned ==> Run(s, ops).stackScanned
    decreases |ops|
  {
    HonestRunsInRange(s, n0, ops);
    if ops != [] {
      ApplyKeepsHybrid(s, n0, ops[0]);
      ApplyCollecting(s, n0, ops[0]);
      RunKeepsHybrid(Apply(s, ops[0]), n0, ops[1..]);
      assert ScanStackOp in ops ==> ops[0] == ScanStackOp || ScanStackOp in ops[1..];
    }
  }

  /** Held includes Live. */
  lemma {:induction false} LiveIsHeld(s: State, n0: nat)
    ensures Live(s) <= Held(s, n0)
  {
    ClosureClosed(s.slots, Objects(s.slots), Roots(s) + Fresh(s, n0));
    ClosureLeast(s.slots, Objects(s.slots), Roots(s), Held(s, n0));
  }

  /** If all that is held is marked, draining leaves nothing live white and nothing grey. */
  lemma {:induction false} DrainLosesNothing(s: State, n0: nat)
    requires Collecting(s, n0) && Held(s, n0) <= Marked(s)
    ensures var t := DrainAll(s); Lost(t) == {} && t.work == [] && Colored(t, Grey) == {}
  {
    var t := DrainAll(s);
    DrainAllIsClosure(s);
    assert Live(t) == Live(s);
    LiveIsHeld(s, n0);
  }

  /** Hybrid safety: from any heap, for every schedule of an honest mutator and the marker
      with a stack scan anywhere in it, no live object ends white. */
  lemma {:induction false} HybridNeverLoses(s: State, ops: seq<Op>)
    requires Idle(s) && s.mode == Hybrid && !s.stackScanned
    requires RunsHonestly(StartMark(s), |s.color|, ops) && ScanStackOp in ops
    ensures RunsInRange(StartMark(s), ops) && Tidy(Run(StartMark(s), ops))
    ensures var t := FinishMark(Run(StartMark(s), ops));
      Lost(t) == {} && t.work == [] && Colored(t, Grey) == {}
  {
    var n0 := |s.color|;
    StartMarkEffect(s);
    StartIsStrong(s);
    RunKeepsHybrid(StartMark(s), n0, ops);
    DrainLosesNothing(Run(StartMark(s), ops), n0);
  }

  lemma {:induction false} StartIsStrong(s: State)
    requires Idle(s)
    ensures Strong(StartMark(s), |s.color|)
  {
    StartMarkEffect(s);
    forall x: nat | To(x) in s.globals ensures x in Targets(s.globals) { TargetsAt(s.globals, x); }
  }

  // ---------- insertion barrier with a final rescan ----------

  lemma {:induction false} RunKeepsStrong(s: State, n0: nat, ops: seq<Op>)
    requires Strong(s, n0) && s.mode in {Insert, InsertRescan} && RunsInRange(s, ops)
    ensures var t := Run(s, ops); Strong(t, n0) && t.mode == s.mode
    decreases |ops|
  {
    if ops != [] {
      ApplyKeepsStrong(s, n0, ops[0]);
      ApplyCollecting(s, n0, ops[0]);
      RunKeepsStrong(Apply(s, ops[0]), n0, ops[1..]);
    }
  }

  /** The rescan shades the stack, which turns the strong invariant into safety. */
  lemma {:induction false} RescanLosesNothing(s: State, n0: nat)
    requires Strong(s, n0) && s.mode == InsertRescan
    ensures var t := FinishMark(s);
      Lost(t) == {} && t.work == [] && Colored(t, Grey) == {} && t.stackScans == s.stackScans + 1
  {
    var u := s.(stackScanned := false);
    assert Strong(u, n0);
    var r := ScanStack(u);
    ApplyKeepsStrong(u, n0, ScanStackOp);
    ShadeAllTidy(u.(stackScans := u.stackScans + 1, stackScanned := true), u.stack);
    assert Apply(u, ScanStackOp) == r;
    StrongMarksHeld(r, n0);
    DrainLosesNothing(r, n0);
    DrainAllIsClosure(r);
    assert FinishMark(s) == DrainAll(r);
  }

  /** Insertion with rescan: for every in-range schedule, whatever references the mutator
      conjures up and whether or not the stack was scanned before. */
  lemma {:induction false} InsertRescanNeverLoses(s: State, ops: seq<Op>)
    requires Idle(s) && s.mode == InsertRescan && RunsInRange(StartMark(s), ops)
    ensures Tidy(Run(StartMark(s), ops))
    ensures var e := Run(StartMark(s), ops); var t := FinishMark(e);
      Lost(t) == {} && t.work == [] && Colored(t, Grey) == {} && t.stackScans == e.stackScans + 1
  {
    StartMarkEffect(s);
    StartIsStrong(s);
    RunKeepsStrong(StartMark(s), |s.color|, ops);
    RescanLosesNothing(Run(StartMark(s), ops), |s.color|);
  }

  // ---------- insertion barrier without the rescan ----------

  ghost predicate StackIsShaded(s: State) {
    forall x: nat :: x < |s.color| && To(x) in s.stack ==> s.color[x] != White
  }

  /** Without the rescan insertion loses an object, on any schedule, if and only if some stack
      slot holds a white object in the end. */
  lemma {:induction false} InsertLosesByStackOnly(s: State, ops: seq<Op>)
    requires Idle(s) && s.mode == Insert && RunsInRange(StartMark(s), ops)
    ensures WellFormed(Run(StartMark(s), ops))
    ensures var t := FinishMark(Run(StartMark(s), ops)); Lost(t) == {} <==> StackIsShaded(t)
  {
    StartMarkEffect(s);
    StartIsStrong(s);
    RunKeepsStrong(StartMark(s), |s.color|, ops);
    StackDecides(Run(StartMark(s), ops), |s.color|);
  }

  lemma {:induction false} StackDecides(e: State, n0: nat)
    requires Strong(e, n0)
    ensures var t := DrainAll(e); Lost(t) == {} <==> StackIsShaded(t)
  {
    var t := DrainAll(e);
    DrainAllIsClosure(e);
    if StackIsShaded(t) {
      StrongMarkedIsClosed(e, n0);
      forall x | x in Roots(t) ensures x in Marked(e) {
        TargetsAt(t.globals, x);
        TargetsAt(t.stack, x);
        if To(x) in e.globals {
          assert InHeap(|e.color|, To(x));
          NonWhiteIsMarked(e, x);
        } else {
          assert To(x) in t.stack && InHeap(|e.color|, To(x));
        }
      }
      ClosureLeast(t.slots, Objects(t.slots), Roots(t), Marked(e));
    } else {
      var x: nat :| x < |t.color| && To(x) in t.stack && t.color[x] == White;
      TargetsAt(t.stack, x);
      ClosureClosed(t.slots, Objects(t.slots), Roots(t));
      assert x in Lost(t);
    }
  }

  // ---------- no barrier at all ----------

  /** Everything the mutator can hold is grey or black. */
  ghost predicate AllHeldColoured(s: State, n0: nat) {
    Collecting(s, n0) && forall x :: x in Held(s, n0) && x < |s.color| ==> s.color[x] != White
  }

  lemma {:induction false} NothingTurnsWhite(s: State, op: Op, x: nat)
    requires Tidy(s) && InRange(s, op) && x < |s.color| && s.color[x] != White
    ensures x < |Apply(s, op).color| && Apply(s, op).color[x] != White
  {
    match op {
      case StoreHeapOp(dst, i, src) => StoreHeapEffect(s, dst, i, src);
      case StoreStackOp(j, val) =>
      case AllocOp =>
      case MarkStepOp(k) =>
        if k < |s.work| { StepEffect(s, k); }
      case ScanStackOp => ScanStackCalls(s);
    }
  }

  lemma {:induction false} ApplyKeepsHeldColoured(s: State, n0: nat, op: Op)
    requires AllHeldColoured(s, n0) && InRange(s, op) && Honest(s, n0, op)
    ensures AllHeldColoured(Apply(s, op), n0)
  {
    var t := Apply(s, op);
    ApplyCollecting(s, n0, op);
    ClosureClosed(s.slots, Objects(s.slots), Roots(s) + Fresh(s, n0));
    ApplyHoldsNoMore(s, n0, op, Held(s, n0));
    ClosureLeast(t.slots, Objects(t.slots), Roots(t) + Fresh(t, n0), Held(s, n0) + Fresh(t, n0));
    forall x | x in Held(t, n0) && x < |t.color| ensures t.color[x] != White {
      if x in Held(s, n0) && x < |s.color| {
        NothingTurnsWhite(s, op, x);
      } else {
        assert x in Fresh(t, n0) || |s.color| <= x;
      }
    }
  }

  lemma {:induction false} RunKeepsHeldColoured(s: State, n0: nat, ops: seq<Op>)
    requires AllHeldColoured(s, n0) && RunsHonestly(s, n0, ops)
    ensures RunsInRange(s, ops) && AllHeldColoured(Run(s, ops), n0)
    decreases |ops|
  {
    HonestRunsInRange(s, n0, ops);
    if ops != [] {
      ApplyKeepsHeldColoured(s, n0, ops[0]);
      RunKeepsHeldColoured(Apply(s, ops[0]), n0, ops[1..]);
    }
  }

  lemma {:induction false} ColouredLosesNothing(s: State, n0: nat)
    requires AllHeldColoured(s, n0)
    ensures Lost(FinishMark(s)) == {}
  {
    LiveIsHeld(s, n0);
    if s.mode == InsertRescan {
      RescanKeepsColoured(s);
      DrainKeepsColoured(ScanStack(s.(stackScanned := false)));
    } else {
      DrainKeepsColoured(s);
    }
  }

  ghost predicate LiveColoured(s: State) {
    Tidy(s) && forall x :: x in Live(s) && x < |s.color| ==> s.color[x] != White
  }

  lemma {:induction false} RescanKeepsColoured(s: State)
    requires LiveColoured(s)
    ensures LiveColoured(ScanStack(s.(stackScanned := false)))
  {
    var t := ScanStack(s.(stackScanned := false));
    RescanShades(s);
    LiveOfGraph(s, t);
    assert forall x :: x in Live(s) && x < |s.color| ==> t.color[x] != White;
  }

  lemma {:induction false} RescanShades(s: State)
    requires Tidy(s)
    ensures var t := ScanStack(s.(stackScanned := false));
      Tidy(t) && Greyer(s, t) && t.globals == s.globals && t.stack == s.stack
  {
    ShadeAllTidy(s.(stackScans := s.stackScans + 1, stackScanned := true), s.stack);
  }

  /** What is live depends on the graph alone. */
  lemma {:induction false} LiveOfGraph(s: State, t: State)
    requires t.slots == s.slots && t.globals == s.globals && t.stack == s.stack
    ensures Live(t) == Live(s) && forall n0 :: Held(t, n0) == Held(s, n0)
  {
  }

  lemma {:induction false} DrainKeepsColoured(s: State)
    requires LiveColoured(s)
    ensures Lost(DrainAll(s)) == {}
  {
    var t := DrainAll(s);
    DrainAllIsClosure(s);
    assert Live(t) == Live(s);
    forall x | x in Live(s) && x < |s.color| ensures t.color[x] != White { NonWhiteIsMarked(s, x); }
  }

  /** Only the marker moves. */
  ghost predicate MarkerOnly(ops: seq<Op>) {
    forall i :: 0 <= i < |ops| ==> ops[i].MarkStepOp? || ops[i] == ScanStackOp
  }

  lemma {:induction false} MarkerShades(s: State, n0: nat, ops: seq<Op>)
    requires Strong(s, n0) && RunsInRange(s, ops) && MarkerOnly(ops)
    requires ScanStackOp in ops || Shaded(s, s.stack)
    ensures var t := Run(s, ops); Strong(t, n0) && Shaded(t, t.stack)
    decreases |ops|
  {
    if ops != [] {
      var u := Apply(s, ops[0]);
      assert ops[0].MarkStepOp? || ops[0] == ScanStackOp;
      ApplyKeepsStrong(s, n0, ops[0]);
      if ops[0] == ScanStackOp || Shaded(s, s.stack) { MarkerStepShades(s, ops[0]); }
      assert ScanStackOp in ops ==> ops[0] == ScanStackOp || ScanStackOp in ops[1..];
      MarkerShades(u, n0, ops[1..]);
    }
  }

  lemma {:induction false} MarkerStepShades(s: State, op: Op)
    requires Tidy(s) && (op.MarkStepOp? || op == ScanStackOp) && (op == ScanStackOp || Shaded(s, s.stack))
    ensures Shaded(Apply(s, op), Apply(s, op).stack)
  {
    if op == ScanStackOp {
      ShadeAllTidy(s.(stackScans := s.stackScans + 1, stackScanned := true), s.stack);
    } else if op.k < |s.work| {
      StepEffect(s, op.k);
    }
  }

  /** If marking, with a stack scan, comes to an end before the mutator's first step, no barrier
      is needed at all: in every mode every honest schedule after that loses nothing. */
  lemma {:induction false} MarkedFirstNeverLoses(s: State, marks: seq<Op>, ops: seq<Op>)
    requires Idle(s) && MarkerOnly(marks) && ScanStackOp in marks && RunsInRange(StartMark(s), marks)
    requires var e := Run(StartMark(s), marks); e.work == [] && RunsHonestly(e, |s.color|, ops)
    ensures var e := Run(StartMark(s), marks);
      RunsInRange(e, ops) && WellFormed(Run(e, ops)) && Lost(FinishMark(Run(e, ops))) == {}
  {
    var n0 := |s.color|;
    var e := Run(StartMark(s), marks);
    StartMarkEffect(s);
    StartIsStrong(s);
    MarkerShades(StartMark(s), n0, marks);
    StrongMarksHeld(e, n0);
    EmptyQueueMarksNothingMore(e);
    RunKeepsHeldColoured(e, n0, ops);
    ColouredLosesNothing(Run(e, ops), n0);
  }

  // ---------- precision: what no barrier can keep alive ----------

  /** Everything coloured or reachable lies in `c` or is fresh. */
  ghost predicate Confined(s: State, n0: nat, c: set<nat>) {
    && Collecting(s, n0)
    && Closed(s.slots, Objects(s.slots), Roots(s) + Fresh(s, n0), c + Fresh(s, n0))
    && forall x: nat :: x < |s.color| && s.color[x] != White ==> x in c + Fresh(s, n0)
  }

  /** The barrier colours only the overwritten and the stored object. */
  lemma {:induction false} BarrierColours(s: State, prev: Ref, src: Ref, x: nat)
    requires InHeap(|s.color|, prev) && InHeap(|s.color|, src) && x < |s.color|
    ensures Barrier(s, prev, src).color[x] == s.color[x] || prev == To(x) || src == To(x)
  {
  }

  /** An operation colours only objects of a set that is closed and holds the roots. */
  lemma {:induction false} ColoursOnlyHeld(s: State, n0: nat, op: Op, c: set<nat>, x: nat)
    requires Collecting(s, n0) && InRange(s, op) && Honest(s, n0, op)
    requires Closed(s.slots, Objects(s.slots), Roots(s) + Fresh(s, n0), c)
    requires forall y: nat :: y < |s.color| && s.color[y] != White ==> y in c
    requires x < |s.color| && x < |Apply(s, op).color| && Apply(s, op).color[x] != White
    ensures x in c
  {
    ClosureLeast(s.slots, Objects(s.slots), Roots(s) + Fresh(s, n0), c);
    assert Held(s, n0) <= c;
    if s.color[x] == White {
      ColouredByOp(s, op, x);
      assert x in Objects(s.slots);
    }
  }

  /** Which white objects an operation colours: those named by the overwritten slot, the
      stored reference, the scanned object's slots, or the stack. */
  lemma {:induction false} ColouredByOp(s: State, op: Op, x: nat)
    requires Tidy(s) && InRange(s, op)
    requires x < |s.color| && x < |Apply(s, op).color|
    requires s.color[x] == White && Apply(s, op).color[x] != White
    ensures match op
      case StoreHeapOp(dst, i, src) => Edge(s.slots, dst, x) || src == To(x)
      case MarkStepOp(k) =>
        k < |s.work| && s.work[k] < |s.color| && s.color[s.work[k]] == Grey && Edge(s.slots, s.work[k], x)
      case ScanStackOp => x in Targets(s.stack)
      case _ => false
  {
    match op {
      case StoreHeapOp(dst, i, src) =>
        SlotInHeap(s, dst, i);
        BarrierColours(s, s.slots[dst][i], src, x);
        assert s.slots[dst][i] == To(x) ==> Edge(s.slots, dst, x);
      case StoreStackOp(j, val) =>
      case AllocOp =>
      case MarkStepOp(k) =>
        if k < |s.work| { StepEffect(s, k); }
      case ScanStackOp =>
        ShadeAllEffect(s.(stackScans := s.stackScans + 1, stackScanned := true), s.stack);
        TargetsAt(s.stack, x);
    }
  }

  lemma {:induction false} ApplyKeepsConfined(s: State, n0: nat, op: Op, c: set<nat>)
    requires Confined(s, n0, c) && InRange(s, op) && Honest(s, n0, op)
    ensures Confined(Apply(s, op), n0, c)
  {
    var t := Apply(s, op);
    var d := c + Fresh(s, n0);
    ApplyCollecting(s, n0, op);
    ApplyHoldsNoMore(s, n0, op, d);
    assert |s.slots| <= |t.slots| by { if op.StoreHeapOp? { StoreHeapTidy(s, op.dst, op.i, op.src); } }
    assert d + Fresh(t, n0) == c + Fresh(t, n0);
    forall x: nat | x < |t.color| && t.color[x] != White ensures x in c + Fresh(t, n0) {
      if x < |s.color| { ColoursOnlyHeld(s, n0, op, d, x); }
    }
  }

  lemma {:induction false} RunKeepsConfined(s: State, n0: nat, ops: seq<Op>, c: set<nat>)
    requires Confined(s, n0, c) && RunsHonestly(s, n0, ops)
    ensures RunsInRange(s, ops) && Confined(Run(s, ops), n0, c)
    decreases |ops|
  {
    HonestRunsInRange(s, n0, ops);
    if ops != [] {
      ApplyKeepsConfined(s, n0, ops[0], c);
      RunKeepsConfined(Apply(s, ops[0]), n0, ops[1..], c);
    }
  }

  lemma {:induction false} StartIsConfined(s: State)
    requires Idle(s)
    ensures Live(StartMark(s)) == Live(s) && Confined(StartMark(s), |s.color|, Live(s))
  {
    StartMarkEffect(s);
    var t := StartMark(s);
    ClosureClosed(s.slots, Objects(s.slots), Roots(s));
    assert Fresh(t, |s.color|) == {};
    assert Live(s) + Fresh(t, |s.color|) == Live(s);
  }

  lemma {:induction false} RescanKeepsConfined(s: State, n0: nat, c: set<nat>)
    requires Confined(s, n0, c)
    ensures var t := ScanStack(s.(stackScanned := false));
      Confined(t, n0, c) && t.slots == s.slots && Roots(t) == Roots(s)
  {
    var u := s.(stackScanned := false);
    ForgetScan(s, n0, c);
    ApplyKeepsConfined(u, n0, ScanStackOp, c);
    assert Apply(u, ScanStackOp) == ScanStack(u);
    ScanStackKeepsGraph(u);
  }

  lemma {:induction false} ForgetScan(s: State, n0: nat, c: set<nat>)
    requires Confined(s, n0, c)
    ensures Confined(s.(stackScanned := false), n0, c)
  {
  }

  lemma {:induction false} ScanStackKeepsGraph(s: State)
    requires Tidy(s)
    ensures ScanStack(s).slots == s.slots && Roots(ScanStack(s)) == Roots(s)
  {
    ShadeAllTidy(s.(stackScans := s.stackScans + 1, stackScanned := true), s.stack);
  }

  /** The collector's final step colours nothing outside either. */
  lemma {:induction false} FinishKeepsConfined(s: State, n0: nat, c: set<nat>)
    requires Confined(s, n0, c)
    ensures var t := FinishMark(s);
      Confined(t, n0, c) && t.slots == s.slots && Roots(t) == Roots(s)
  {
    if s.mode == InsertRescan {
      RescanKeepsConfined(s, n0, c);
      DrainKeepsConfined(ScanStack(s.(stackScanned := false)), n0, c);
    } else {
      DrainKeepsConfined(s, n0, c);
    }
  }

  lemma {:induction false} DrainKeepsConfined(s: State, n0: nat, c: set<nat>)
    requires Confined(s, n0, c)
    ensures var t := DrainAll(s); Confined(t, n0, c) && t.slots == s.slots && Roots(t) == Roots(s)
    decreases |NonBlack(s)|
  {
    if s.work != [] {
      StepEffect(s, 0);
      StepShrinksNonBlack(s, 0);
      ApplyKeepsConfined(s, n0, MarkStepOp(0), c);
      DrainKeepsConfined(StepAt(s, 0), n0, c);
    }
  }

  /** Precision, in all five modes and for every honest schedule: an object that was
      unreachable when marking started and was not allocated since ends white. */
  lemma {:induction false} OldGarbageIsCollected(s: State, ops: seq<Op>, x: nat)
    requires Idle(s) && RunsHonestly(StartMark(s), |s.color|, ops)
    requires x < |s.color| && x !in Live(s)
    ensures RunsInRange(StartMark(s), ops) && Tidy(Run(StartMark(s), ops))
    ensures var t := FinishMark(Run(StartMark(s), ops)); x < |t.color| && t.color[x] == White
  {
    var n0 := |s.color|;
    StartIsConfined(s);
    RunKeepsConfined(StartMark(s), n0, ops, Live(s));
    FinishKeepsConfined(Run(StartMark(s), ops), n0, Live(s));
  }

  // ---------- snapshot at the beginning ----------

  /** The stack is scanned before the mutator does anything. */
  predicate ScansFirst(ops: seq<Op>) {
    ops != [] && (ops[0] == ScanStackOp || (ops[0].MarkStepOp? && ScansFirst(ops[1..])))
  }

  lemma {:induction false} RunMarksMore(s: State, n0: nat, ops: seq<Op>)
    requires Collecting(s, n0) && RunsInRange(s, ops) && s.mode in {Delete, Hybrid}
    ensures var t := Run(s, ops); Collecting(t, n0) && t.mode == s.mode && Marked(s) <= Marked(t)
    decreases |ops|
  {
    if ops != [] {
      ApplyCollecting(s, n0, ops[0]);
      ApplyMarksMore(s, n0, ops[0]);
      RunMarksMore(Apply(s, ops[0]), n0, ops[1..]);
    }
  }

  lemma {:induction false} SnapshotIsMarked(s: State, n0: nat, ops: seq<Op>)
    requires Strong(s, n0) && RunsInRange(s, ops) && s.mode in {Delete, Hybrid} && ScansFirst(ops)
    ensures var t := Run(s, ops); Collecting(t, n0) && t.mode == s.mode && Live(s) <= Marked(t)
    decreases |ops|
  {
    var u := Apply(s, ops[0]);
    ApplyCollecting(s, n0, ops[0]);
    ApplyKeepsStrong(s, n0, ops[0]);
    if ops[0] == ScanStackOp {
      ShadeAllTidy(s.(stackScans := s.stackScans + 1, stackScanned := true), s.stack);
      StrongMarksHeld(u, n0);
      LiveIsHeld(u, n0);
      assert Live(u) == Live(s);
      RunMarksMore(u, n0, ops[1..]);
    } else {
      if ops[0].k < |s.work| { StepEffect(s, ops[0].k); }
      assert Live(u) == Live(s);
      SnapshotIsMarked(u, n0, ops[1..]);
    }
  }

  lemma {:induction false} LiveInHeap(s: State)
    requires WellFormed(s)
    ensures Live(s) <= Below(|s.color|)
  {
    forall x | x in Roots(s) ensures x < |s.color| {
      TargetsAt(s.globals, x);
      TargetsAt(s.stack, x);
      assert InHeap(|s.color|, To(x));
    }
  }

  lemma {:induction false} SurvivorsAreExact(s: State, n0: nat, c: set<nat>)
    requires Confined(s, n0, c) && c <= Marked(s) && c <= Below(|s.color|)
    ensures var t := DrainAll(s);
      && Below(|t.color|) - Colored(t, White) == c + Fresh(t, n0)
      && Lost(t) == {}
  {
    var t := DrainAll(s);
    DrainKeepsConfined(s, n0, c);
    SurvivorsInclude(s, n0, c);
    LiveIsConfined(t, n0, c);
  }

  lemma {:induction false} SurvivorsInclude(s: State, n0: nat, c: set<nat>)
    requires Collecting(s, n0) && c <= Marked(s) && c <= Below(|s.color|)
    ensures var t := DrainAll(s); c + Fresh(t, n0) <= Below(|t.color|) - Colored(t, White)
  {
    DrainAllIsClosure(s);
    FreshIsMarked(s, n0);
    assert Fresh(DrainAll(s), n0) == Fresh(s, n0);
  }

  lemma {:induction false} LiveIsConfined(s: State, n0: nat, c: set<nat>)
    requires Confined(s, n0, c)
    ensures Live(s) <= c + Fresh(s, n0)
  {
    ClosureLeast(s.slots, Objects(s.slots), Roots(s) + Fresh(s, n0), c + Fresh(s, n0));
    LiveIsHeld(s, n0);
  }

  /** Snapshot exactness: with a deletion barrier and the stack scanned first, the
      survivors are exactly the objects reachable when marking started and those allocated
      since; in particular nothing live is lost. */
  lemma {:induction false} SnapshotIsExact(s: State, ops: seq<Op>)
    requires Idle(s) && s.mode in {Delete, Hybrid} && ScansFirst(ops)
    requires RunsHonestly(StartMark(s), |s.color|, ops)
    ensures RunsInRange(StartMark(s), ops) && Tidy(Run(StartMark(s), ops))
    ensures var t := FinishMark(Run(StartMark(s), ops));
      && Below(|t.color|) - Colored(t, White) == Live(s) + Fresh(t, |s.color|)
      && Lost(t) == {}
  {
    var n0 := |s.color|;
    StartIsConfined(s);
    StartMarkEffect(s);
    StartIsStrong(s);
    LiveInHeap(s);
    RunKeepsConfined(StartMark(s), n0, ops, Live(s));
    SnapshotIsMarked(StartMark(s), n0, ops);
    SurvivorsAreExact(Run(StartMark(s), ops), n0, Live(s));
  }
}
