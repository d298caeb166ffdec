/** The tri-colour collector as a state machine on values.

    One function per operation of the simulator's machine. `Op` is one step of an
    interleaving of the mutator and the marker; `Run` executes a whole schedule. */
module TriColour {
  import opened Reachability

  datatype Color = White | Grey | Black

  datatype BarrierMode = NoBarrier | Insert | Delete | Hybrid | InsertRescan

  datatype State = State(
    mode: BarrierMode,
    color: seq<Color>,
    slots: Heap,
    globals: seq<Ref>,
    stack: seq<Ref>,
    stackScanned: bool,
    collecting: bool,
    work: seq<nat>,
    shadeCalls: nat,
    scanned: nat,
    stackScans: nat)

  predicate InHeap(n: nat, r: Ref) {
    r.To? ==> r.id < n
  }

  /** All references stored anywhere name an existing object. */
  ghost predicate WellFormed(s: State) {
    && |s.color| == |s.slots|
    && NoDangling(s.slots)
    && (forall r :: r in s.globals ==> InHeap(|s.color|, r))
    && (forall r :: r in s.stack ==> InHeap(|s.color|, r))
    && (forall x :: x in s.work ==> x < |s.color|)
  }

  ghost predicate NoDuplicates(q: seq<nat>) {
    forall i, j :: 0 <= i < j < |q| ==> q[i] != q[j]
  }

  /** The work queue holds exactly the grey objects, each once. */
  ghost predicate QueueHoldsGreys(s: State) {
    && NoDuplicates(s.work)
    && forall x: nat :: x in s.work <==> x < |s.color| && s.color[x] == Grey
  }

  ghost predicate Tidy(s: State) {
    WellFormed(s) && QueueHoldsGreys(s)
  }

  // ---------- operations ----------

  function Shade(s: State, r: Ref): State
    requires InHeap(|s.color|, r)
  {
    if r.Nil? then s
    else
      var t := s.(shadeCalls := s.shadeCalls + 1);
      if t.color[r.id] != White then t
      else t.(color := t.color[r.id := Grey], work := t.work + [r.id])
  }

  /** Shades every reference of a list, from left to right. */
  function ShadeAll(s: State, rs: seq<Ref>): (t: State)
    requires forall r :: r in rs ==> InHeap(|s.color|, r)
    ensures |t.color| == |s.color|
  {
    if rs == [] then s else Shade(ShadeAll(s, rs[..|rs| - 1]), rs[|rs| - 1])
  }

  function Alloc(s: State): State {
    s.(color := s.color + [if s.collecting then Black else White], slots := s.slots + [[Nil]])
  }

  ghost predicate StoreInRange(s: State, dst: nat, i: nat, src: Ref) {
    dst < |s.slots| && i < |s.slots[dst]| && InHeap(|s.color|, src)
  }

  /** What the compiler-inserted write barrier does before a heap store. */
  function Barrier(s: State, prev: Ref, src: Ref): State
    requires InHeap(|s.color|, prev) && InHeap(|s.color|, src)
  {
    match s.mode
    case NoBarrier => s
    case Insert => Shade(s, src)
    case InsertRescan => Shade(s, src)
    case Delete => Shade(s, prev)
    case Hybrid => if s.stackScanned then Shade(s, prev) else Shade(Shade(s, prev), src)
  }

  function WriteSlot(s: State, dst: nat, i: nat, src: Ref): State
    requires dst < |s.slots| && i < |s.slots[dst]|
  {
    s.(slots := s.slots[dst := s.slots[dst][i := src]])
  }

  lemma {:induction false} SlotInHeap(s: State, x: nat, i: nat)
    requires WellFormed(s) && x < |s.slots| && i < |s.slots[x]|
    ensures InHeap(|s.color|, s.slots[x][i])
  {
    if s.slots[x][i].To? {
      assert Edge(s.slots, x, s.slots[x][i].id);
    }
  }

  function StoreHeap(s: State, dst: nat, i: nat, src: Ref): State
    requires WellFormed(s) && StoreInRange(s, dst, i, src)
  {
    SlotInHeap(s, dst, i);
    WriteSlot(Barrier(s, s.slots[dst][i], src), dst, i, src)
  }

  function StoreStack(s: State, i: nat, src: Ref): State
    requires i < |s.stack|
  {
    s.(stack := s.stack[i := src])
  }

  function StartMark(s: State): State
    requires WellFormed(s)
  {
    ShadeAll(s.(collecting := true, color := seq(|s.color|, _ => White)), s.globals)
  }

  function ScanStack(s: State): State
    requires WellFormed(s)
  {
    ShadeAll(s.(stackScans := s.stackScans + 1, stackScanned := true), s.stack)
  }

  lemma {:induction false} ChildrenInHeap(s: State, x: nat)
    requires WellFormed(s) && x < |s.slots|
    ensures forall r :: r in s.slots[x] ==> InHeap(|s.color|, r)
  {
    forall r | r in s.slots[x] ensures InHeap(|s.color|, r) {
      var i :| 0 <= i < |s.slots[x]| && s.slots[x][i] == r;
      SlotInHeap(s, x, i);
    }
  }

  /** Scans the grey object at position `k` of the queue; the machine uses `k == 0`. */
  function StepAt(s: State, k: nat): State
    requires WellFormed(s) && k < |s.work|
  {
    var n := s.work[k];
    assert n in s.work;
    ChildrenInHeap(s, n);
    var t := ShadeAll(s.(work := s.work[..k] + s.work[k + 1..]), s.slots[n]);
    t.(color := t.color[n := Black], scanned := t.scanned + 1)
  }

  // ---------- schedules ----------

  datatype Op =
    | StoreHeapOp(dst: nat, i: nat, src: Ref)
    | StoreStackOp(j: nat, val: Ref)
    | AllocOp
    | MarkStepOp(k: nat)
    | ScanStackOp

  /** The operation does not index out of range. */
  ghost predicate InRange(s: State, op: Op) {
    match op
    case StoreHeapOp(dst, i, src) => StoreInRange(s, dst, i, src)
    case StoreStackOp(j, val) => j < |s.stack| && InHeap(|s.color|, val)
    case _ => true
  }

  function Apply(s: State, op: Op): State
    requires WellFormed(s) && InRange(s, op)
  {
    match op
    case StoreHeapOp(dst, i, src) => StoreHeap(s, dst, i, src)
    case StoreStackOp(j, val) => StoreStack(s, j, val)
    case AllocOp => Alloc(s)
    case MarkStepOp(k) => if k < |s.work| then StepAt(s, k) else s
    case ScanStackOp => ScanStack(s)
  }

  // ---------- colour classes ----------

  ghost function Colored(s: State, c: Color): set<nat> {
    set x | x in Below(|s.color|) && s.color[x] == c
  }

  ghost function Roots(s: State): set<nat> {
    Targets(s.globals) + Targets(s.stack)
  }

  /** What the program can still reach: the objects `reachable` returns. */
  ghost function Live(s: State): set<nat> {
    Closure(s.slots, Objects(s.slots), Roots(s))
  }

  /** Objects allocated since marking started with `n0` objects. */
  ghost function Fresh(s: State, n0: nat): set<nat> {
    Objects(s.slots) - Below(n0)
  }

  /** What the mutator can hold: anything reachable from globals, the stack, or an
      object allocated during this cycle (which its allocator still knows). */
  ghost function Held(s: State, n0: nat): set<nat> {
    Closure(s.slots, Objects(s.slots), Roots(s) + Fresh(s, n0))
  }

  ghost predicate Holds(s: State, n0: nat, r: Ref) {
    r.To? ==> r.id in Held(s, n0)
  }

  /** The mutator only uses references it holds. */
  ghost predicate Honest(s: State, n0: nat, op: Op) {
    match op
    case StoreHeapOp(dst, i, src) => dst in Held(s, n0) && Holds(s, n0, src)
    case StoreStackOp(j, val) => Holds(s, n0, val)
    case _ => true
  }

  /** Grey objects and all that draining will reach from them through white ones. */
  ghost function Pending(s: State): set<nat> {
    Closure(s.slots, Colored(s, White), Colored(s, Grey))
  }

  /** Everything that is black, or will be once the queue is drained. */
  ghost function Marked(s: State): set<nat> {
    Colored(s, Black) + Pending(s)
  }

  // ---------- effect of each operation ----------

  lemma {:induction false} ShadeAllEffect(s: State, rs: seq<Ref>)
    requires forall r :: r in rs ==> InHeap(|s.color|, r)
    ensures var t := ShadeAll(s, rs);
      && t == s.(color := t.color, work := t.work, shadeCalls := t.shadeCalls)
      && |t.color| == |s.color|
      && (forall x: nat :: x < |s.color| ==>
            t.color[x] == if s.color[x] == White && To(x) in rs then Grey else s.color[x])
      && (forall x: nat :: x in t.work <==>
            x in s.work || (x < |s.color| && s.color[x] == White && To(x) in rs))
      && (NoDuplicates(s.work) && (forall x :: x in s.work ==> x < |s.color| && s.color[x] != White)
          ==> NoDuplicates(t.work))
  {
    if rs != [] {
      var front := rs[..|rs| - 1];
      var r := rs[|rs| - 1];
      assert rs == front + [r];
      ShadeAllEffect(s, front);
      var u := ShadeAll(s, front);
      assert forall x :: To(x) in rs <==> To(x) in front || r == To(x);
      if r.To? && u.color[r.id] == White {
        assert ShadeAll(s, rs).work == u.work + [r.id];
      }
    }
  }

  lemma {:induction false} RemoveAt(q: seq<nat>, k: nat)
    requires k < |q| && NoDuplicates(q)
    ensures var p := q[..k] + q[k + 1..];
      NoDuplicates(p) && forall x: nat :: x in p <==> x in q && x != q[k]
  {
    var p := q[..k] + q[k + 1..];
    forall x: nat | x in q && x != q[k] ensures x in p {
      var i :| 0 <= i < |q| && q[i] == x;
      assert p[if i < k then i else i - 1] == x;
    }
  }

  /** One marking step: the scanned object turns black, its white children grey. */
  lemma {:induction false} StepEffect(s: State, k: nat)
    requires Tidy(s) && k < |s.work|
    ensures var t := StepAt(s, k); var n := s.work[k];
      && t == s.(color := t.color, work := t.work, shadeCalls := t.shadeCalls, scanned := s.scanned + 1)
      && |t.color| == |s.color|
      && n < |s.color| && s.color[n] == Grey && t.color[n] == Black
      && (forall x: nat :: x < |s.color| && x != n ==>
            t.color[x] == if s.color[x] == White && Edge(s.slots, n, x) then Grey else s.color[x])
      && Tidy(t)
  {
    var n := s.work[k];
    assert n in s.work;
    RemoveAt(s.work, k);
    ChildrenInHeap(s, n);
    ShadeAllEffect(s.(work := s.work[..k] + s.work[k + 1..]), s.slots[n]);
    var t := StepAt(s, k);
    assert forall x: nat :: x < |s.color| && x != n ==>
      t.color[x] == if s.color[x] == White && Edge(s.slots, n, x) then Grey else s.color[x];
  }

  /** `t` differs from `s` only by white objects having turned grey and been queued. */
  ghost predicate Greyer(s: State, t: State) {
    && |t.color| == |s.color|
    && t.slots == s.slots
    && forall x: nat :: x < |s.color| && t.color[x] != s.color[x] ==> s.color[x] == White && t.color[x] == Grey
  }

  lemma {:induction false} ShadeAllTidy(s: State, rs: seq<Ref>)
    requires Tidy(s) && forall r :: r in rs ==> InHeap(|s.color|, r)
    ensures var t := ShadeAll(s, rs);
      && Tidy(t) && Greyer(s, t)
      && t == s.(color := t.color, work := t.work, shadeCalls := t.shadeCalls)
      && forall x: nat :: x < |s.color| && To(x) in rs ==> t.color[x] != White
  {
    ShadeAllEffect(s, rs);
  }

  lemma {:induction false} ShadeTidy(s: State, r: Ref)
    requires Tidy(s) && InHeap(|s.color|, r)
    ensures var t := Shade(s, r);
      && Tidy(t) && Greyer(s, t)
      && t == s.(color := t.color, work := t.work, shadeCalls := t.shadeCalls)
      && (r.To? ==> t.color[r.id] != White)
  {
    assert ShadeAll(s, [r]) == Shade(ShadeAll(s, []), r) by {
      assert [r][..|[r]| - 1] == [];
    }
    ShadeAllTidy(s, [r]);
    assert r in [r];
  }

  /** The shading of the overwritten and the stored reference that each mode promises. */
  ghost predicate BarrierShades(s: State, prev: Ref, src: Ref, t: State)
    requires InHeap(|t.color|, prev) && InHeap(|t.color|, src)
  {
    && (s.mode in {Delete, Hybrid} && prev.To? ==> t.color[prev.id] != White)
    && (s.mode in {Insert, InsertRescan} && src.To? ==> t.color[src.id] != White)
    && (s.mode == Hybrid && !s.stackScanned && src.To? ==> t.color[src.id] != White)
  }

  /** `t` is `s` with some white objects shaded. */
  ghost predicate OnlyShaded(s: State, t: State) {
    Tidy(t) && Greyer(s, t) && t == s.(color := t.color, work := t.work, shadeCalls := t.shadeCalls)
  }

  lemma {:induction false} BarrierTidy(s: State, prev: Ref, src: Ref)
    requires Tidy(s) && InHeap(|s.color|, prev) && InHeap(|s.color|, src)
    ensures var t := Barrier(s, prev, src); OnlyShaded(s, t) && BarrierShades(s, prev, src, t)
  {
    match s.mode {
      case NoBarrier =>
      case Insert => ShadeTidy(s, src);
      case InsertRescan => ShadeTidy(s, src);
      case Delete => ShadeTidy(s, prev);
      case Hybrid => HybridBarrierTidy(s, prev, src);
    }
  }

  lemma {:induction false} HybridBarrierTidy(s: State, prev: Ref, src: Ref)
    requires Tidy(s) && InHeap(|s.color|, prev) && InHeap(|s.color|, src) && s.mode == Hybrid
    ensures var t := Barrier(s, prev, src); OnlyShaded(s, t) && BarrierShades(s, prev, src, t)
  {
    ShadeTidy(s, prev);
    if !s.stackScanned { ShadeTidy(Shade(s, prev), src); }
  }

  /** A slot write removes at most the old edge and adds at most the new one. */
  lemma {:induction false} WriteSlotEdges(s: State, dst: nat, i: nat, src: Ref)
    requires dst < |s.slots| && i < |s.slots[dst]|
    ensures var t := WriteSlot(s, dst, i, src);
      && |t.slots| == |s.slots|
      && (forall x: nat, y: nat :: Edge(t.slots, x, y) ==>
            Edge(s.slots, x, y) || (x == dst && src == To(y)))
      && (forall x: nat, y: nat :: Edge(s.slots, x, y) ==>
            Edge(t.slots, x, y) || (x == dst && s.slots[dst][i] == To(y)))
  {
    var t := WriteSlot(s, dst, i, src);
    forall x: nat, y: nat | Edge(s.slots, x, y)
      ensures Edge(t.slots, x, y) || (x == dst && s.slots[dst][i] == To(y))
    {
      var k :| 0 <= k < |s.slots[x]| && s.slots[x][k] == To(y);
      if x == dst && k != i {
        assert t.slots[x][k] == To(y);
      }
    }
  }

  lemma {:induction false} StoreHeapTidy(s: State, dst: nat, i: nat, src: Ref)
    requires Tidy(s) && StoreInRange(s, dst, i, src)
    ensures Tidy(StoreHeap(s, dst, i, src))
  {
    SlotInHeap(s, dst, i);
    BarrierTidy(s, s.slots[dst][i], src);
    WriteSlotEdges(Barrier(s, s.slots[dst][i], src), dst, i, src);
  }

  // ---------- exactly what a heap store does ----------

  /** The modes in which the overwritten reference is shaded. */
  predicate ShadesOldValue(s: State) {
    s.mode == Delete || s.mode == Hybrid
  }

  /** The modes and phases in which the stored reference is shaded. */
  predicate ShadesNewValue(s: State) {
    s.mode == Insert || s.mode == InsertRescan || (s.mode == Hybrid && !s.stackScanned)
  }

  /** One call of `shade`, if it is made and not on nil. */
  function Call(made: bool, r: Ref): nat {
    if made && r.To? then 1 else 0
  }

  /** What a call of `shade` on `r` adds to the queue of `s`. */
  function Queued(s: State, made: bool, r: Ref): seq<nat>
    requires InHeap(|s.color|, r)
  {
    if made && r.To? && s.color[r.id] == White then [r.id] else []
  }

  /** From `s` to `t` exactly the white objects among `a` and `b` have turned grey, where each
      of the two counts only if it is shaded at all. */
  ghost predicate TurnsGrey(s: State, t: State, first: bool, a: Ref, second: bool, b: Ref) {
    && |t.color| == |s.color|
    && forall x: nat :: x < |s.color| ==>
         t.color[x] == Greyed(s.color[x], (first && a == To(x)) || (second && b == To(x)))
  }

  function Greyed(c: Color, shaded: bool): Color {
    if c == White && shaded then Grey else c
  }

  lemma {:induction false} ShadeEffect(s: State, r: Ref)
    requires InHeap(|s.color|, r)
    ensures var t := Shade(s, r);
      && t == s.(color := t.color, work := t.work, shadeCalls := t.shadeCalls)
      && TurnsGrey(s, t, true, r, false, Nil)
      && t.shadeCalls == s.shadeCalls + Call(true, r)
      && t.work == s.work + Queued(s, true, r)
  {
  }

  /** The barrier of every mode, by what it does and does not do: an object changes colour
      exactly if it is white and one of the references this mode shades; each such reference
      that is not nil costs one call; the newly grey are queued, the overwritten one first. */
  lemma {:induction false} BarrierEffect(s: State, prev: Ref, src: Ref)
    requires InHeap(|s.color|, prev) && InHeap(|s.color|, src)
    ensures var t := Barrier(s, prev, src);
      && t == s.(color := t.color, work := t.work, shadeCalls := t.shadeCalls)
      && TurnsGrey(s, t, ShadesOldValue(s), prev, ShadesNewValue(s), src)
      && t.shadeCalls == s.shadeCalls + Call(ShadesOldValue(s), prev) + Call(ShadesNewValue(s), src)
      && t.work == s.work + Queued(s, ShadesOldValue(s), prev)
                   + Queued(s, ShadesNewValue(s) && !(ShadesOldValue(s) && src == prev), src)
  {
    match s.mode {
      case NoBarrier =>
      case Insert => ShadeEffect(s, src);
      case InsertRescan => ShadeEffect(s, src);
      case Delete => ShadeEffect(s, prev);
      case Hybrid => HybridBarrierEffect(s, prev, src);
    }
  }

  lemma {:induction false} HybridBarrierEffect(s: State, prev: Ref, src: Ref)
    requires InHeap(|s.color|, prev) && InHeap(|s.color|, src) && s.mode == Hybrid
    ensures var t := Barrier(s, prev, src);
      && t == s.(color := t.color, work := t.work, shadeCalls := t.shadeCalls)
      && TurnsGrey(s, t, true, prev, !s.stackScanned, src)
      && t.shadeCalls == s.shadeCalls + Call(true, prev) + Call(!s.stackScanned, src)
      && t.work == s.work + Queued(s, true, prev) + Queued(s, !s.stackScanned && src != prev, src)
  {
    ShadeEffect(s, prev);
    if !s.stackScanned { ShadeEffect(Shade(s, prev), src); }
  }

  /** A heap store changes the one slot, and otherwise only what its mode's barrier changes;
      with no barrier nothing but the slot. */
  lemma {:induction false} StoreHeapEffect(s: State, dst: nat, i: nat, src: Ref)
    requires WellFormed(s) && StoreInRange(s, dst, i, src)
    ensures var t := StoreHeap(s, dst, i, src); var prev := s.slots[dst][i];
      && t == s.(color := t.color, work := t.work, shadeCalls := t.shadeCalls, slots := t.slots)
      && TurnsGrey(s, t, ShadesOldValue(s), prev, ShadesNewValue(s), src)
      && t.shadeCalls == s.shadeCalls + Call(ShadesOldValue(s), prev) + Call(ShadesNewValue(s), src)
      && OnlySlotChanges(s.slots, dst, i, src, t.slots)
      && (s.mode == NoBarrier ==> t == s.(slots := t.slots))
  {
    SlotInHeap(s, dst, i);
    BarrierEffect(s, s.slots[dst][i], src);
  }

  /** Slot `i` of object `dst` holds `src` and every other slot what it held. */
  ghost predicate OnlySlotChanges(before: Heap, dst: nat, i: nat, src: Ref, after: Heap)
    requires dst < |before| && i < |before[dst]|
  {
    && |after| == |before|
    && (forall x: nat :: x < |before| ==> |after[x]| == |before[x]|)
    && (forall x: nat, k: nat :: x < |before| && k < |before[x]| ==>
          after[x][k] == if x == dst && k == i then src else before[x][k])
  }

  /** Allocation and stack stores shade nothing: the one adds an object with an empty slot, black
      exactly while collecting, the other changes one stack slot. */
  lemma {:induction false} UnbarrieredEffect(s: State)
    ensures var t := Alloc(s);
      && t == s.(color := t.color, slots := t.slots)
      && |t.color| == |s.color| + 1 && s.color <= t.color && t.color[|s.color|] != Grey
      && (t.color[|s.color|] == Black <==> s.collecting)
      && |t.slots| == |s.slots| + 1 && s.slots <= t.slots && t.slots[|s.slots|] == [Nil]
    ensures forall i, src :: 0 <= i < |s.stack| ==>
      var t := StoreStack(s, i, src);
      && t == s.(stack := t.stack) && |t.stack| == |s.stack|
      && forall k :: 0 <= k < |s.stack| ==> t.stack[k] == if k == i then src else s.stack[k]
  {
  }

  // ---------- how often shade is called ----------

  /** The references of a list that are not nil. */
  function CountRefs(rs: seq<Ref>): nat {
    if rs == [] then 0 else CountRefs(rs[..|rs| - 1]) + if rs[|rs| - 1].To? then 1 else 0
  }

  lemma {:induction false} ShadeAllCalls(s: State, rs: seq<Ref>)
    requires forall r :: r in rs ==> InHeap(|s.color|, r)
    ensures ShadeAll(s, rs).shadeCalls == s.shadeCalls + CountRefs(rs) && s.work <= ShadeAll(s, rs).work
  {
    if rs != [] { ShadeAllCalls(s, rs[..|rs| - 1]); }
  }

  /** Starting shades each global once, and keeps whatever is queued and the scan flag. */
  lemma {:induction false} StartMarkCalls(s: State)
    requires WellFormed(s)
    ensures var t := StartMark(s);
      && t.shadeCalls == s.shadeCalls + CountRefs(s.globals)
      && s.work <= t.work && t.stackScanned == s.stackScanned && t.collecting
  {
    var s1 := s.(collecting := true, color := seq(|s.color|, _ => White));
    ShadeAllCalls(s1, s.globals);
    ShadeAllEffect(s1, s.globals);
  }

  lemma {:induction false} ScanStackCalls(s: State)
    requires WellFormed(s)
    ensures var t := ScanStack(s);
      && t.shadeCalls == s.shadeCalls + CountRefs(s.stack)
      && t.stackScans == s.stackScans + 1 && t.stackScanned
      && TurnsGreyAll(s, t, s.stack)
  {
    var s1 := s.(stackScans := s.stackScans + 1, stackScanned := true);
    ShadeAllCalls(s1, s.stack);
    ShadeAllEffect(s1, s.stack);
  }

  /** From `s` to `t` exactly the white objects named in `rs` have turned grey. */
  ghost predicate TurnsGreyAll(s: State, t: State, rs: seq<Ref>) {
    && |t.color| == |s.color|
    && forall x: nat :: x < |s.color| ==> t.color[x] == Greyed(s.color[x], To(x) in rs)
  }

  lemma {:induction false} StepCalls(s: State, k: nat)
    requires WellFormed(s) && k < |s.work|
    ensures var t := StepAt(s, k);
      && s.work[k] in s.work && t.scanned == s.scanned + 1
      && t.shadeCalls == s.shadeCalls + CountRefs(s.slots[s.work[k]])
  {
    var n := s.work[k];
    var s1 := s.(work := s.work[..k] + s.work[k + 1..]);
    assert n in s.work;
    ChildrenInHeap(s, n);
    ShadeAllCalls(s1, s.slots[n]);
    ShadeAllEffect(s1, s.slots[n]);
  }

  lemma {:induction false} AllocEdges(s: State)
    ensures forall x: nat, y: nat :: Edge(Alloc(s).slots, x, y) <==> Edge(s.slots, x, y)
  {
    var t := Alloc(s);
    forall x: nat, y: nat ensures Edge(t.slots, x, y) <==> Edge(s.slots, x, y) {
      if x == |s.slots| {
        assert t.slots[x] == [Nil];
      }
    }
  }

  /** Between `StartMark` and `FinishMark`: fresh objects are black, the queue is exact. */
  ghost predicate Collecting(s: State, n0: nat) {
    && Tidy(s)
    && s.collecting
    && n0 <= |s.color|
    && forall x: nat :: n0 <= x < |s.color| ==> s.color[x] == Black
  }

  lemma {:induction false} ApplyCollecting(s: State, n0: nat, op: Op)
    requires Collecting(s, n0) && InRange(s, op)
    ensures var t := Apply(s, op);
      Collecting(t, n0) && t.mode == s.mode && t.globals == s.globals && |t.stack| == |s.stack|
      && t.stackScanned == (s.stackScanned || op == ScanStackOp)
      && (op.AllocOp? || |t.color| == |s.color|)
  {
    match op {
      case StoreHeapOp(dst, i, src) =>
        StoreHeapTidy(s, dst, i, src);
        SlotInHeap(s, dst, i);
        BarrierTidy(s, s.slots[dst][i], src);
      case StoreStackOp(j, val) =>
      case AllocOp =>
        AllocEdges(s);
      case MarkStepOp(k) =>
        if k < |s.work| { StepEffect(s, k); }
      case ScanStackOp =>
        ShadeAllTidy(s.(stackScans := s.stackScans + 1, stackScanned := true), s.stack);
    }
  }
}
