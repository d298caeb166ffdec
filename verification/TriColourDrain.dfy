/** Draining the grey queue computes a closure, whatever the dequeue order. */
module TriColourDrain {
  import opened Reachability
  import opened TriColour

  ghost function NonBlack(s: State): set<nat> {
    set x | x in Below(|s.color|) && s.color[x] != Black
  }

  /** Every step blackens exactly one non-black object: the termination measure. */
  lemma {:induction false} StepShrinksNonBlack(s: State, k: nat)
    requires Tidy(s) && k < |s.work|
    ensures NonBlack(StepAt(s, k)) == NonBlack(s) - {s.work[k]} && s.work[k] in NonBlack(s)
  {
    StepEffect(s, k);
  }

  /** White objects and queue entries: what a step always reduces, even on a queue left over
      from an unfinished cycle, with entries twice or of any colour. */
  ghost function Unfinished(s: State): nat {
    |Colored(s, White)| + |s.work|
  }

  lemma {:induction false} ShadeFits(s: State, r: Ref)
    requires WellFormed(s) && InHeap(|s.color|, r)
    ensures WellFormed(Shade(s, r)) && Unfinished(Shade(s, r)) == Unfinished(s)
    ensures |Shade(s, r).color| == |s.color| && Shade(s, r).slots == s.slots
  {
    var t := Shade(s, r);
    if r.To? && s.color[r.id] == White {
      assert Colored(t, White) == Colored(s, White) - {r.id};
    } else {
      assert Colored(t, White) == Colored(s, White);
    }
  }

  lemma {:induction false} ShadeAllFits(s: State, rs: seq<Ref>)
    requires WellFormed(s) && forall r :: r in rs ==> InHeap(|s.color|, r)
    ensures var t := ShadeAll(s, rs); WellFormed(t) && Unfinished(t) == Unfinished(s) && t.slots == s.slots
  {
    if rs != [] {
      var front := rs[..|rs| - 1];
      ShadeAllFits(s, front);
      ShadeFits(ShadeAll(s, front), rs[|rs| - 1]);
    }
  }

  /** Each step leaves a well-formed state with less to do. */
  lemma {:induction false} StepFits(s: State, k: nat)
    requires WellFormed(s) && k < |s.work|
    ensures WellFormed(StepAt(s, k)) && Unfinished(StepAt(s, k)) < Unfinished(s)
  {
    var n := s.work[k];
    assert n in s.work;
    ChildrenInHeap(s, n);
    var u := s.(work := s.work[..k] + s.work[k + 1..]);
    assert Colored(u, White) == Colored(s, White);
    assert forall x :: x in u.work ==> x in s.work;
    ShadeAllFits(u, s.slots[n]);
    BlackenFits(ShadeAll(u, s.slots[n]), n);
  }

  lemma {:induction false} BlackenFits(s: State, n: nat)
    requires WellFormed(s) && n < |s.color|
    ensures var t := s.(color := s.color[n := Black], scanned := s.scanned + 1);
      WellFormed(t) && Unfinished(t) <= Unfinished(s)
  {
    var t := s.(color := s.color[n := Black], scanned := s.scanned + 1);
    assert Colored(t, White) == Colored(s, White) - {n};
  }

  /** The machine's `drainN`: at most `limit` steps from the front of the queue. */
  function DrainN(s: State, limit: nat): State
    requires WellFormed(s)
    decreases limit
  {
    if limit == 0 || s.work == [] then s
    else
      StepFits(s, 0);
      DrainN(StepAt(s, 0), limit - 1)
  }

  /** It really steps: `limit` objects are scanned, or as many as there are and the queue is
      empty. */
  lemma {:induction false} DrainNScans(s: State, limit: nat)
    requires WellFormed(s)
    ensures var t := DrainN(s, limit);
      && WellFormed(t) && s.scanned <= t.scanned <= s.scanned + limit
      && (t.work != [] ==> t.scanned == s.scanned + limit)
    decreases limit
  {
    if limit != 0 && s.work != [] {
      var u := StepAt(s, 0);
      StepFits(s, 0);
      StepCalls(s, 0);
      DrainNScans(u, limit - 1);
      assert DrainN(s, limit) == DrainN(u, limit - 1);
    }
  }

  /** The machine's `drainAll`: steps until the queue is empty. */
  ghost function DrainAll(s: State): State
    requires WellFormed(s)
    decreases Unfinished(s)
  {
    if s.work == [] then s
    else
      StepFits(s, 0);
      DrainAll(StepAt(s, 0))
  }

  /** From any state at all, whatever is in the queue, draining ends with an empty one. */
  lemma {:induction false} DrainAllEmpties(s: State)
    requires WellFormed(s)
    ensures WellFormed(DrainAll(s)) && DrainAll(s).work == []
    decreases Unfinished(s)
  {
    if s.work != [] {
      StepFits(s, 0);
      DrainAllEmpties(StepAt(s, 0));
    }
  }

  /** Scans the queue in an arbitrary order: `ks` names the position taken each time. */
  ghost predicate DrainsInOrder(s: State, ks: seq<nat>, end: State)
    requires Tidy(s)
    decreases |ks|
  {
    if ks == [] then end == s
    else ks[0] < |s.work| && (StepEffect(s, ks[0]); DrainsInOrder(StepAt(s, ks[0]), ks[1..], end))
  }

  /** Nothing that is already grey or black is forgotten. */
  lemma {:induction false} NonWhiteIsMarked(s: State, x: nat)
    requires x < |s.color| && s.color[x] != White
    ensures x in Marked(s)
  {
    ClosureClosed(s.slots, Colored(s, White), Colored(s, Grey));
  }

  /** Scanning a grey object does not change what will have been marked in the end. */
  lemma {:induction false} StepKeepsMarked(s: State, k: nat)
    requires Tidy(s) && k < |s.work|
    ensures Marked(StepAt(s, k)) == Marked(s)
  {
    var t := StepAt(s, k);
    var n := s.work[k];
    StepEffect(s, k);
    StepMarksNoMore(s, k);
    StepMarksNoLess(s, k);
    assert Colored(t, Black) == Colored(s, Black) + {n};
    NonWhiteIsMarked(s, n);
  }

  lemma {:induction false} StepMarksNoMore(s: State, k: nat)
    requires Tidy(s) && k < |s.work|
    ensures Pending(StepAt(s, k)) <= Pending(s)
  {
    var t := StepAt(s, k);
    StepEffect(s, k);
    ClosureClosed(s.slots, Colored(s, White), Colored(s, Grey));
    assert forall x :: x in Colored(t, Grey) ==> x in Pending(s);
    ClosureLeast(t.slots, Colored(t, White), Colored(t, Grey), Pending(s));
  }

  lemma {:induction false} StepMarksNoLess(s: State, k: nat)
    requires Tidy(s) && k < |s.work|
    ensures Pending(s) <= Pending(StepAt(s, k)) + {s.work[k]}
  {
    var t := StepAt(s, k);
    StepEffect(s, k);
    ClosureClosed(t.slots, Colored(t, White), Colored(t, Grey));
    ClosureLeast(s.slots, Colored(s, White), Colored(s, Grey), Pending(t) + {s.work[k]});
  }

  lemma {:induction false} EmptyQueueMarksNothingMore(s: State)
    requires Tidy(s) && s.work == []
    ensures Marked(s) == Colored(s, Black)
  {
    assert Colored(s, Grey) == {} by {
      assert forall x :: x in Colored(s, Grey) ==> x in s.work;
    }
    ClosureLeast(s.slots, Colored(s, White), {}, {});
  }

  /** `t` is `s` with exactly the objects of `m` black and all others white, each object
      of `m` that was not black in `s` having been scanned once. */
  ghost predicate DrainedTo(s: State, m: set<nat>, t: State) {
    && t == s.(color := t.color, work := t.work, shadeCalls := t.shadeCalls, scanned := t.scanned)
    && |t.color| == |s.color|
    && t.work == []
    && (forall x: nat :: x < |s.color| ==> t.color[x] == if x in m then Black else White)
    && t.scanned == s.scanned + |m - Colored(s, Black)|
  }

  /** A drained state has black for the marked objects and white for all others. */
  lemma {:induction false} DrainedColours(s: State)
    requires Tidy(s) && s.work == []
    ensures DrainedTo(s, Marked(s), s)
  {
    EmptyQueueMarksNothingMore(s);
    forall x: nat | x < |s.color| ensures s.color[x] == if x in Marked(s) then Black else White {
      assert s.color[x] == Grey ==> x in s.work;
    }
  }

  /** One more step in front of a drained run. */
  lemma {:induction false} StepThenDrained(s: State, k: nat, end: State)
    requires Tidy(s) && k < |s.work| && DrainedTo(StepAt(s, k), Marked(StepAt(s, k)), end)
    ensures DrainedTo(s, Marked(s), end)
    ensures |Marked(s) - Colored(s, Black)| == |Marked(StepAt(s, k)) - Colored(StepAt(s, k), Black)| + 1
  {
    StepKeepsMarked(s, k);
    OneFewerLeft(s, k, Marked(s));
    StepEffect(s, k);
  }

  lemma {:induction false} OneFewerLeft(s: State, k: nat, m: set<nat>)
    requires Tidy(s) && k < |s.work| && m == Marked(s)
    ensures |m - Colored(s, Black)| == |m - Colored(StepAt(s, k), Black)| + 1
  {
    var n := s.work[k];
    StepBlackens(s, k);
    NonWhiteIsMarked(s, n);
    assert m - Colored(s, Black) == (m - Colored(StepAt(s, k), Black)) + {n};
  }

  lemma {:induction false} StepBlackens(s: State, k: nat)
    requires Tidy(s) && k < |s.work|
    ensures var n := s.work[k];
      && Colored(StepAt(s, k), Black) == Colored(s, Black) + {n}
      && n < |s.color| && n !in Colored(s, Black) && s.color[n] == Grey
  {
    StepEffect(s, k);
  }

  /** Any dequeue order that empties the queue blackens exactly the grey objects and what
      they reach through white ones, and scans each of those exactly once. */
  lemma {:induction false} AnyOrderDrainsTheClosure(s: State, ks: seq<nat>, end: State)
    requires Tidy(s) && DrainsInOrder(s, ks, end) && end.work == []
    ensures Tidy(end) && DrainedTo(s, Marked(s), end) && |ks| == |Marked(s) - Colored(s, Black)|
    decreases |ks|
  {
    if ks == [] {
      DrainedColours(s);
      EmptyQueueMarksNothingMore(s);
      assert Marked(s) - Colored(s, Black) == {};
    } else {
      StepEffect(s, ks[0]);
      AnyOrderDrainsTheClosure(StepAt(s, ks[0]), ks[1..], end);
      StepThenDrained(s, ks[0], end);
    }
  }

  /** `drainAll` computes the closure; it terminates by `NonBlack`. */
  lemma {:induction false} DrainAllIsClosure(s: State)
    requires Tidy(s)
    ensures Tidy(DrainAll(s)) && DrainedTo(s, Marked(s), DrainAll(s))
    decreases |NonBlack(s)|
  {
    if s.work == [] {
      DrainedColours(s);
    } else {
      StepEffect(s, 0);
      StepShrinksNonBlack(s, 0);
      DrainAllIsClosure(StepAt(s, 0));
      StepThenDrained(s, 0, DrainAll(s));
    }
  }

  /** So the colours and the number of scans do not depend on the dequeue order. */
  lemma {:induction false} DequeueOrderIsIrrelevant(s: State, ks: seq<nat>, end: State)
    requires Tidy(s) && DrainsInOrder(s, ks, end) && end.work == []
    ensures end.color == DrainAll(s).color && end.scanned == DrainAll(s).scanned
  {
    AnyOrderDrainsTheClosure(s, ks, end);
    DrainAllIsClosure(s);
  }

  /** Splitting the drain into `drainN` calls changes nothing at all. */
  lemma {:induction false} DrainInPieces(s: State, limit: nat)
    requires Tidy(s)
    ensures Tidy(DrainN(s, limit)) && DrainAll(DrainN(s, limit)) == DrainAll(s)
    decreases limit
  {
    if limit != 0 && s.work != [] {
      StepEffect(s, 0);
      DrainInPieces(StepAt(s, 0), limit - 1);
      assert DrainAll(s) == DrainAll(StepAt(s, 0));
    }
  }
}
