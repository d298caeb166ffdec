/** The simulator itself: heap objects and a machine updated in place.

    `Abs` names every object by its index in `objs`; each method is proved to do to
    `Abs` exactly what the operation of the same name in TriColour does. */
module TriColourMachine {
  import opened Reachability
  import opened TriColour
  import Drain = TriColourDrain
  import Safety = TriColourSafety

  class Node {
    ghost const id: nat
    var color: Color
    var slots: seq<Node?>

    constructor (ghost id: nat, color: Color)
      ensures this.id == id && this.color == color && slots == [null]
    {
      this.id := id;
      this.color := color;
      this.slots := [null];
    }
  }

  ghost function Name(n: Node?): Ref {
    if n == null then Nil else To(n.id)
  }

  ghost function Names(ns: seq<Node?>): seq<Ref> {
    seq(|ns|, i requires 0 <= i < |ns| => Name(ns[i]))
  }

  /** One turn of the loop in `drainN`. */
  lemma {:induction false} DrainNUnfolds(s: State, limit: nat)
    requires WellFormed(s) && limit > 0
    ensures s.work == [] ==> Drain.DrainN(s, limit) == s
    ensures s.work != [] ==>
      WellFormed(StepAt(s, 0)) && Drain.DrainN(s, limit) == Drain.DrainN(StepAt(s, 0), limit - 1)
  {
    if s.work != [] { Drain.StepFits(s, 0); }
  }

  lemma {:induction false} RescanFits(s: State)
    requires WellFormed(s)
    ensures WellFormed(TriColour.ScanStack(s.(stackScanned := false)))
  {
    Drain.ShadeAllFits(s.(stackScans := s.stackScans + 1, stackScanned := true), s.stack);
  }

  datatype Verdict = Verdict(lost: nat, floating: nat, shadeCalls: nat, scanned: nat, stackScans: nat)

  class Machine {
    const mode: BarrierMode
    var objs: seq<Node>
    var globals: seq<Node?>
    var stack: seq<Node?>
    var stackScanned: bool
    var collecting: bool
    var work: seq<Node>
    var shadeCalls: nat
    var scanned: nat
    var stackScans: nat

    ghost predicate Owns(n: Node?)
      reads this
    {
      n != null ==> n.id < |objs| && objs[n.id] == n
    }

    ghost predicate Valid()
      reads this, objs
    {
      && (forall i :: 0 <= i < |objs| ==> objs[i].id == i)
      && (forall i :: 0 <= i < |objs| ==> forall k :: 0 <= k < |objs[i].slots| ==> Owns(objs[i].slots[k]))
      && (forall k :: 0 <= k < |globals| ==> Owns(globals[k]))
      && (forall k :: 0 <= k < |stack| ==> Owns(stack[k]))
      && (forall k :: 0 <= k < |work| ==> Owns(work[k]))
    }

    ghost function Abs(): (s: State)
      reads this, objs
    {
      State(mode,
            seq(|objs|, i requires 0 <= i < |objs| reads this, objs => objs[i].color),
            seq(|objs|, i requires 0 <= i < |objs| reads this, objs => Names(objs[i].slots)),
            Names(globals), Names(stack), stackScanned, collecting,
            seq(|work|, i requires 0 <= i < |work| reads this => work[i].id),
            shadeCalls, scanned, stackScans)
    }

    /** A valid machine is a well-formed abstract state. */
    lemma {:induction false} ValidIsWellFormed()
      requires Valid()
      ensures WellFormed(Abs())
    {
      var s := Abs();
      forall x: nat, y: nat | Edge(s.slots, x, y) ensures y < |s.slots| {
        var k :| 0 <= k < |s.slots[x]| && s.slots[x][k] == To(y);
        assert Owns(objs[x].slots[k]);
      }
      forall r | r in s.globals ensures InHeap(|s.color|, r) {
        var k :| 0 <= k < |s.globals| && s.globals[k] == r;
        assert Owns(globals[k]);
      }
      forall r | r in s.stack ensures InHeap(|s.color|, r) {
        var k :| 0 <= k < |s.stack| && s.stack[k] == r;
        assert Owns(stack[k]);
      }
      forall x | x in s.work ensures x < |s.color| {
        var k :| 0 <= k < |s.work| && s.work[k] == x;
        assert Owns(work[k]);
      }
    }

    constructor (mode: BarrierMode)
      ensures Valid() && fresh(this)
      ensures Abs() == State(mode, [], [], [], [], false, false, [], 0, 0, 0)
    {
      this.mode := mode;
      objs, globals, stack, work := [], [], [], [];
      stackScanned, collecting := false, false;
      shadeCalls, scanned, stackScans := 0, 0, 0;
    }

    method Alloc() returns (n: Node)
      requires Valid()
      modifies this`objs
      ensures Valid() && fresh(n) && objs == old(objs) + [n]
      ensures Abs() == TriColour.Alloc(old(Abs()))
      ensures n.id == |old(objs)| && n.color == if collecting then Black else White
    {
      n := new Node(|objs|, if collecting then Black else White);
      objs := objs + [n];
      assert forall i :: 0 <= i < |old(objs)| ==> objs[i] == old(objs)[i];
      assert Names(n.slots) == [Nil];
      assert Abs().color == TriColour.Alloc(old(Abs())).color;
      assert Abs().slots == TriColour.Alloc(old(Abs())).slots;
      assert Abs().work == old(Abs()).work;
    }

    method Shade(n: Node?)
      requires Valid() && Owns(n)
      modifies this`shadeCalls, this`work, objs`color
      ensures Valid() && Abs() == TriColour.Shade(old(Abs()), Name(n))
    {
      if n == null { return; }
      shadeCalls := shadeCalls + 1;
      if n.color != White { return; }
      n.color := Grey;
      work := work + [n];
      assert Abs().color == old(Abs()).color[n.id := Grey];
      assert Abs().slots == old(Abs()).slots;
      assert Abs().work == old(Abs()).work + [n.id];
    }

    /** Shades a list of slots from left to right. */
    method ShadeList(ns: seq<Node?>)
      requires Valid() && forall k :: 0 <= k < |ns| ==> Owns(ns[k])
      modifies this`shadeCalls, this`work, objs`color
      ensures forall r :: r in Names(ns) ==> InHeap(|old(Abs()).color|, r)
      ensures Valid() && Abs() == TriColour.ShadeAll(old(Abs()), Names(ns))
    {
      ghost var rs := Names(ns);
      forall r | r in rs ensures InHeap(|Abs().color|, r) {
        var k :| 0 <= k < |rs| && rs[k] == r;
        assert Owns(ns[k]);
      }
      for i := 0 to |ns|
        invariant Valid() && objs == old(objs)
        invariant Abs() == TriColour.ShadeAll(old(Abs()), rs[..i])
      {
        Shade(ns[i]);
        assert rs[..i + 1][..i] == rs[..i] && rs[..i + 1][i] == Name(ns[i]);
      }
      assert rs[..|ns|] == rs;
    }

    /** What the compiler inserts before a heap store. */
    method WriteBarrier(prev: Node?, src: Node?)
      requires Valid() && Owns(prev) && Owns(src)
      modifies this`shadeCalls, this`work, objs`color
      ensures Valid() && Abs() == Barrier(old(Abs()), Name(prev), Name(src))
    {
      match mode {
        case NoBarrier =>
        case Insert => Shade(src);
        case InsertRescan => Shade(src);
        case Delete => Shade(prev);
        case Hybrid =>
          Shade(prev);
          if !stackScanned { Shade(src); }
      }
    }

    /** A heap store with its write barrier. */
    method StoreHeap(dst: Node, i: nat, src: Node?)
      requires Valid() && Owns(dst) && Owns(src) && i < |dst.slots|
      modifies this`shadeCalls, this`work, objs`color, dst`slots
      ensures Valid() && WellFormed(old(Abs())) && StoreInRange(old(Abs()), dst.id, i, Name(src))
      ensures Abs() == TriColour.StoreHeap(old(Abs()), dst.id, i, Name(src))
    {
      ValidIsWellFormed();
      var prev := dst.slots[i];
      assert Owns(objs[dst.id].slots[i]);
      assert Abs().slots[dst.id][i] == Name(prev);
      WriteBarrier(prev, src);
      SetSlot(dst, i, src);
    }

    method SetSlot(dst: Node, i: nat, src: Node?)
      requires Valid() && Owns(dst) && Owns(src) && i < |dst.slots|
      modifies dst`slots
      ensures Valid() && Abs() == WriteSlot(old(Abs()), dst.id, i, Name(src))
    {
      dst.slots := dst.slots[i := src];
      assert Names(dst.slots) == old(Abs()).slots[dst.id][i := Name(src)];
      assert Abs().slots == WriteSlot(old(Abs()), dst.id, i, Name(src)).slots;
      assert Abs().color == old(Abs()).color && Abs().work == old(Abs()).work;
    }

    /** A stack store: no barrier. */
    method StoreStack(i: nat, src: Node?)
      requires Valid() && Owns(src) && i < |stack|
      modifies this`stack
      ensures Valid() && Abs() == TriColour.StoreStack(old(Abs()), i, Name(src))
    {
      stack := stack[i := src];
      assert Abs().stack == old(Abs()).stack[i := Name(src)];
    }

    method LoadHeap(src: Node, i: nat) returns (n: Node?)
      requires Valid() && Owns(src) && i < |src.slots|
      ensures Owns(n) && Name(n) == Abs().slots[src.id][i]
    {
      n := src.slots[i];
      assert Owns(objs[src.id].slots[i]);
    }

    method Whiten()
      requires Valid()
      modifies objs`color
      ensures Valid() && Abs() == old(Abs()).(color := seq(|objs|, _ => White))
    {
      for i := 0 to |objs|
        invariant Valid()
        invariant forall k :: 0 <= k < i ==> objs[k].color == White
        invariant forall k :: 0 <= k < |objs| ==> objs[k].slots == old(objs[k].slots)
      {
        objs[i].color := White;
      }
      assert Abs().color == seq(|objs|, _ => White);
      assert Abs().slots == old(Abs()).slots && Abs().work == old(Abs()).work;
    }

    method StartMark()
      requires Valid()
      modifies this`collecting, this`shadeCalls, this`work, objs`color
      ensures Valid() && WellFormed(old(Abs())) && Abs() == TriColour.StartMark(old(Abs()))
    {
      ValidIsWellFormed();
      collecting := true;
      assert Abs() == old(Abs()).(collecting := true);
      Whiten();
      ShadeList(globals);
    }

    method ScanStack()
      requires Valid()
      modifies this`stackScans, this`stackScanned, this`shadeCalls, this`work, objs`color
      ensures Valid() && WellFormed(old(Abs())) && Abs() == TriColour.ScanStack(old(Abs()))
    {
      ValidIsWellFormed();
      stackScans := stackScans + 1;
      stackScanned := true;
      assert Abs() == old(Abs()).(stackScans := stackScans, stackScanned := true);
      ShadeList(stack);
    }

    method TakeFront() returns (n: Node)
      requires Valid() && work != []
      modifies this`work
      ensures Valid() && n == old(work)[0] && Owns(n)
      ensures Abs() == old(Abs()).(work := old(Abs()).work[..0] + old(Abs()).work[0 + 1..])
    {
      n := work[0];
      assert Owns(work[0]);
      work := work[1..];
      ghost var w := old(Abs()).work;
      assert Abs().work == w[..0] + w[0 + 1..];
      assert Abs().color == old(Abs()).color && Abs().slots == old(Abs()).slots;
    }

    method Blacken(n: Node)
      requires Valid() && Owns(n)
      modifies this`scanned, n`color
      ensures Valid()
      ensures Abs() == old(Abs()).(color := old(Abs()).color[n.id := Black], scanned := old(scanned) + 1)
    {
      n.color := Black;
      scanned := scanned + 1;
      assert Abs().color == old(Abs()).color[n.id := Black];
      assert Abs().slots == old(Abs()).slots && Abs().work == old(Abs()).work;
    }

    /** Scans the front of the grey queue. */
    method Step() returns (more: bool)
      requires Valid()
      modifies this`shadeCalls, this`scanned, this`work, objs`color
      ensures Valid() && WellFormed(old(Abs())) && objs == old(objs)
      ensures more <==> old(Abs()).work != []
      ensures Abs() == if more then StepAt(old(Abs()), 0) else old(Abs())
    {
      ValidIsWellFormed();
      if |work| == 0 { return false; }
      var n := TakeFront();
      assert forall k :: 0 <= k < |n.slots| ==> Owns(objs[n.id].slots[k]);
      assert Names(n.slots) == Abs().slots[n.id];
      ShadeList(n.slots);
      Blacken(n);
      return true;
    }

    method DrainN(limit: nat)
      requires Valid()
      modifies this`shadeCalls, this`scanned, this`work, objs`color
      ensures Valid() && objs == old(objs) && WellFormed(old(Abs()))
      ensures Abs() == Drain.DrainN(old(Abs()), limit)
    {
      ValidIsWellFormed();
      ghost var target := Drain.DrainN(Abs(), limit);
      var i := 0;
      while i < limit
        invariant 0 <= i <= limit && Valid() && objs == old(objs)
        invariant WellFormed(Abs()) && Drain.DrainN(Abs(), limit - i) == target
      {
        DrainNUnfolds(Abs(), limit - i);
        var more := Step();
        if !more { return; }
        i := i + 1;
      }
    }

    method DrainAll()
      requires Valid()
      modifies this`shadeCalls, this`scanned, this`work, objs`color
      ensures Valid() && objs == old(objs) && WellFormed(old(Abs()))
      ensures Abs() == Drain.DrainAll(old(Abs()))
    {
      ValidIsWellFormed();
      ghost var target := Drain.DrainAll(Abs());
      var more := true;
      while more
        invariant Valid() && objs == old(objs)
        invariant WellFormed(Abs()) && Drain.DrainAll(Abs()) == target
        invariant !more ==> Abs().work == []
        decreases Drain.Unfinished(Abs()), more
      {
        ghost var s := Abs();
        more := Step();
        if more { Drain.StepFits(s, 0); }
      }
    }

    method FinishMark()
      requires Valid()
      modifies this`stackScans, this`stackScanned, this`shadeCalls, this`scanned, this`work, objs`color
      ensures Valid() && objs == old(objs) && WellFormed(old(Abs()))
      ensures Abs() == Safety.FinishMark(old(Abs()))
    {
      ValidIsWellFormed();
      if mode == InsertRescan {
        RescanFits(Abs());
        stackScanned := false;
        assert Abs() == old(Abs()).(stackScanned := false);
        ScanStack();
      }
      DrainAll();
    }

    // ---------- the verifier's own traversal ----------

    ghost predicate OwnsAll(ns: set<Node>)
      reads this
    {
      forall o :: o in ns ==> Owns(o)
    }

    lemma {:induction false} ChildIsEdge(n: Node, k: nat)
      requires Valid() && Owns(n) && k < |n.slots|
      ensures Owns(n.slots[k])
      ensures n.slots[k] != null ==> Edge(Abs().slots, n.id, n.slots[k].id) && n.slots[k].id < |objs|
    {
      assert Owns(objs[n.id].slots[k]);
      if n.slots[k] != null {
        assert Abs().slots[n.id][k] == To(n.slots[k].id);
      }
    }

    lemma {:induction false} EdgeIsChild(n: Node, y: nat)
      requires Valid() && Owns(n) && Edge(Abs().slots, n.id, y)
      ensures exists k :: 0 <= k < |n.slots| && n.slots[k] != null && n.slots[k].id == y
    {
      var k :| 0 <= k < |Abs().slots[n.id]| && Abs().slots[n.id][k] == To(y);
      assert n.slots[k] != null;
    }

    /** The recursive walk with its shared `seen` map. It terminates on cyclic graphs, adds
        only objects reachable from `n`, and leaves no added object with an unseen child. */
    method Walk(n: Node?, seen: set<Node>, ghost h: Heap) returns (r: set<Node>)
      requires Valid() && Owns(n) && OwnsAll(seen) && Abs().slots == h
      ensures Valid() && OwnsAll(r) && Abs().slots == h
      ensures seen <= r && (n != null ==> n in r)
      ensures Explored(h, Ids(seen), Ids(r), {})
      ensures Ids(r) <= Ids(seen) + Under(h, n)
      decreases (set o | o in objs) - seen
    {
      r := seen;
      if n == null || n in seen { return; }
      r := r + {n};
      assert Ids(r) == Ids(seen) + {n.id};
      UnderSelf(h, n);
      var slots := n.slots;
      for i := 0 to |slots|
        invariant Valid() && OwnsAll(r) && Abs().slots == h
        invariant seen + {n} <= r
        invariant slots == n.slots && SeenUpTo(slots, i, r)
        invariant Explored(h, Ids(seen), Ids(r), {n.id})
        invariant Ids(r) <= Ids(seen) + Under(h, n)
      {
        ChildIsEdge(n, i);
        UnderChild(h, n, slots[i]);
        ghost var r0 := r;
        r := Walk(slots[i], r, h);
        SeeMore(slots, i, r0, r);
        ExploreMore(h, Ids(seen), Ids(r0), Ids(r), {n.id});
      }
      forall y: nat | Edge(h, n.id, y) ensures y in Ids(r) {
        EdgeIsChild(n, y);
      }
    }

    /** Walks from every reference of a root list. */
    method WalkRoots(roots: seq<Node?>, seen: set<Node>, ghost s: State) returns (r: set<Node>)
      requires Valid() && OwnsAll(seen) && Abs() == s
      requires roots == globals || roots == stack
      requires Explored(s.slots, {}, Ids(seen), {}) && Ids(seen) <= Live(s)
      ensures Valid() && OwnsAll(r) && Abs() == s && seen <= r
      ensures forall k :: 0 <= k < |roots| ==> roots[k] == null || roots[k] in r
      ensures Explored(s.slots, {}, Ids(r), {}) && Ids(r) <= Live(s)
    {
      r := seen;
      for i := 0 to |roots|
        invariant Valid() && OwnsAll(r) && Abs() == s && seen <= r
        invariant SeenUpTo(roots, i, r)
        invariant Explored(s.slots, {}, Ids(r), {}) && Ids(r) <= Live(s)
      {
        UnderRoot(s, roots, i);
        ghost var r0 := r;
        r := Walk(roots[i], r, s.slots);
        SeeMore(roots, i, r0, r);
        ExploreMore(s.slots, {}, Ids(r0), Ids(r), {});
      }
    }

    /** A set of objects with all roots and all children covers everything live. */
    lemma {:induction false} CoversLive(live: set<Node>)
      requires Valid() && OwnsAll(live) && Explored(Abs().slots, {}, Ids(live), {})
      requires forall k :: 0 <= k < |globals| ==> globals[k] == null || globals[k] in live
      requires forall k :: 0 <= k < |stack| ==> stack[k] == null || stack[k] in live
      ensures Live(Abs()) <= Ids(live)
    {
      var s := Abs();
      forall x | x in Roots(s) ensures x in Ids(live) {
        TargetsAt(s.globals, x);
        TargetsAt(s.stack, x);
        if To(x) in s.globals {
          var k :| 0 <= k < |s.globals| && s.globals[k] == To(x);
          assert globals[k] in live && globals[k].id == x;
        } else {
          var k :| 0 <= k < |s.stack| && s.stack[k] == To(x);
          assert stack[k] in live && stack[k].id == x;
        }
      }
      ClosureLeast(s.slots, Objects(s.slots), Roots(s), Ids(live));
    }

    /** Exactly the path-reachable objects. */
    method Reachable() returns (live: set<Node>)
      requires Valid()
      ensures OwnsAll(live)
      ensures forall i :: 0 <= i < |objs| ==> (objs[i] in live <==> i in Live(Abs()))
    {
      live := WalkRoots(globals, {}, Abs());
      live := WalkRoots(stack, live, Abs());
      CoversLive(live);
    }

    lemma {:induction false} Classified(live: set<Node>) returns (lostSet: set<nat>, floatingSet: set<nat>)
      requires Valid()
      requires forall i :: 0 <= i < |objs| ==> (objs[i] in live <==> i in Live(Abs()))
      ensures lostSet == Safety.Lost(Abs()) && floatingSet == Safety.Floating(Abs())
      ensures lostSet <= Below(|objs|) && floatingSet <= Below(|objs|)
      ensures forall i :: 0 <= i < |objs| ==>
        (i in lostSet <==> objs[i] in live && objs[i].color == White)
      ensures forall i :: 0 <= i < |objs| ==>
        (i in floatingSet <==> objs[i] !in live && objs[i].color != White)
    {
      lostSet, floatingSet := Safety.Lost(Abs()), Safety.Floating(Abs());
      ValidIsWellFormed();
      Safety.LiveInHeap(Abs());
    }

    method CountVerdict(live: set<Node>, ghost s: State, ghost lostSet: set<nat>, ghost floatingSet: set<nat>)
      returns (lost: nat, floating: nat)
      requires Abs() == s
      requires lostSet <= Below(|objs|) && floatingSet <= Below(|objs|)
      requires forall i :: 0 <= i < |objs| ==>
        (i in lostSet <==> objs[i] in live && objs[i].color == White)
      requires forall i :: 0 <= i < |objs| ==>
        (i in floatingSet <==> objs[i] !in live && objs[i].color != White)
      ensures lost == |lostSet| && floating == |floatingSet|
      ensures Abs() == s
    {
      lost, floating := 0, 0;
      for i := 0 to |objs|
        invariant lost == CountBelow(lostSet, i) && floating == CountBelow(floatingSet, i)
      {
        var alive := objs[i] in live;
        if alive && objs[i].color == White { lost := lost + 1; }
        if !alive && objs[i].color != White { floating := floating + 1; }
      }
      CountAll(lostSet, |objs|);
      CountAll(floatingSet, |objs|);
    }

    /** The verdict counts exactly the lost and the floating objects. */
    method Verify() returns (v: Verdict)
      requires Valid()
      ensures v == Verdict(|Safety.Lost(Abs())|, |Safety.Floating(Abs())|, shadeCalls, scanned, stackScans)
    {
      var live := Reachable();
      ghost var s := Abs();
      ghost var lostSet, floatingSet := Classified(live);
      var lost, floating := CountVerdict(live, s, lostSet, floatingSet);
      return Verdict(lost, floating, shadeCalls, scanned, stackScans);
    }
  }

  // ---------- sets of nodes and their names ----------

  ghost function Ids(ns: set<Node>): set<nat> {
    set o | o in ns :: o.id
  }

  ghost predicate SeenUpTo(ns: seq<Node?>, i: nat, r: set<Node>) {
    forall k :: 0 <= k < i && k < |ns| ==> ns[k] == null || ns[k] in r
  }

  lemma {:induction false} SeeMore(ns: seq<Node?>, i: nat, r0: set<Node>, r: set<Node>)
    requires i < |ns| && SeenUpTo(ns, i, r0) && r0 <= r && (ns[i] == null || ns[i] in r)
    ensures SeenUpTo(ns, i + 1, r)
  {
  }

  /** Every child of an object added to `seen`, other than an open one, is in `r`. */
  ghost predicate Explored(h: Heap, seen: set<nat>, r: set<nat>, open: set<nat>) {
    forall x: nat, y: nat :: x in r && x !in seen && x !in open && Edge(h, x, y) ==> y in r
  }

  lemma {:induction false} ExploreMore(h: Heap, seen: set<nat>, r0: set<nat>, r: set<nat>, open: set<nat>)
    requires Explored(h, seen, r0, open) && Explored(h, r0, r, {}) && r0 <= r
    ensures Explored(h, seen, r, open)
  {
  }

  ghost function Under(h: Heap, n: Node?): set<nat> {
    if n == null then {} else Closure(h, Objects(h), {n.id})
  }

  lemma {:induction false} UnderSelf(h: Heap, n: Node)
    ensures n.id in Under(h, n)
  {
    ClosureClosed(h, Objects(h), {n.id});
  }

  lemma {:induction false} UnderChild(h: Heap, n: Node, c: Node?)
    requires c != null ==> Edge(h, n.id, c.id) && c.id < |h|
    ensures Under(h, c) <= Under(h, n)
  {
    if c != null {
      ClosureClosed(h, Objects(h), {n.id});
      ClosureLeast(h, Objects(h), {c.id}, Under(h, n));
    }
  }

  lemma {:induction false} UnderRoot(s: State, roots: seq<Node?>, k: nat)
    requires k < |roots| && (Names(roots) == s.globals || Names(roots) == s.stack)
    ensures Under(s.slots, roots[k]) <= Live(s)
  {
    if roots[k] != null {
      var x := roots[k].id;
      assert Names(roots)[k] == To(x);
      TargetsAt(Names(roots), x);
      ClosureClosed(s.slots, Objects(s.slots), Roots(s));
      ClosureLeast(s.slots, Objects(s.slots), {x}, Live(s));
    }
  }

  ghost function CountBelow(c: set<nat>, n: nat): nat {
    if n == 0 then 0 else CountBelow(c, n - 1) + if n - 1 in c then 1 else 0
  }

  lemma {:induction false} CountAll(c: set<nat>, n: nat)
    requires forall x :: x in c ==> x < n
    ensures CountBelow(c, n) == |c|
  {
    if n == 0 {
      assert c == {};
    } else if n - 1 in c {
      var d := c - {n - 1};
      assert |c| == |d| + 1;
      CountAll(d, n - 1);
      SameBelow(c, d, n - 1);
    } else {
      CountAll(c, n - 1);
    }
  }

  lemma {:induction false} SameBelow(c: set<nat>, d: set<nat>, n: nat)
    requires forall x: nat :: x < n ==> (x in c <==> x in d)
    ensures CountBelow(c, n) == CountBelow(d, n)
  {
    if n > 0 { SameBelow(c, d, n - 1); }
  }
}
