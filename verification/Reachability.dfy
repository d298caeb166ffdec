/** Object graphs and reachability.

    An object is named by its index in the machine's object list. A slot holds
    either nil or a reference to an object. "Reachable" is the existence of a
    path; the two lemmas at the end characterise the reachable set as the least
    closed set, which is the form every later proof uses. */
module Reachability {

  datatype Ref = Nil | To(id: nat)

  /** The slots of every object, indexed by object. */
  type Heap = seq<seq<Ref>>

  ghost predicate Edge(h: Heap, x: nat, y: nat) {
    x < |h| && To(y) in h[x]
  }

  /** Every reference stored in the heap names an object of the heap. */
  ghost predicate NoDangling(h: Heap) {
    forall x: nat, y: nat :: Edge(h, x, y) ==> y < |h|
  }

  /** The first `n` object names. */
  ghost function Below(n: nat): (r: set<nat>)
    ensures forall x: nat :: x in r <==> x < n
    ensures |r| == n
  {
    if n == 0 then {} else Below(n - 1) + {n - 1}
  }

  ghost function Objects(h: Heap): set<nat> {
    Below(|h|)
  }

  /** The objects named by a list of references. */
  ghost function Targets(refs: seq<Ref>): set<nat> {
    set i | 0 <= i < |refs| && refs[i].To? :: refs[i].id
  }

  lemma {:induction false} TargetsAt(refs: seq<Ref>, x: nat)
    ensures x in Targets(refs) <==> To(x) in refs
  {
    if To(x) in refs {
      var i :| 0 <= i < |refs| && refs[i] == To(x);
      assert refs[i].To? && refs[i].id == x;
    }
  }

  /** A path all of whose nodes after the first lie in `through`. */
  ghost predicate IsPath(h: Heap, through: set<nat>, p: seq<nat>) {
    && |p| > 0
    && forall i :: 0 < i < |p| ==> Edge(h, p[i - 1], p[i]) && p[i] in through
  }

  ghost predicate Reaches(h: Heap, through: set<nat>, seeds: set<nat>, w: nat) {
    exists p :: IsPath(h, through, p) && p[0] in seeds && p[|p| - 1] == w
  }

  /** Everything path-reachable from `seeds` through nodes of `through`. */
  ghost function Closure(h: Heap, through: set<nat>, seeds: set<nat>): set<nat> {
    set w | w in seeds + through && Reaches(h, through, seeds, w)
  }

  ghost predicate Closed(h: Heap, through: set<nat>, seeds: set<nat>, c: set<nat>) {
    && seeds <= c
    && forall x: nat, y: nat :: x in c && Edge(h, x, y) && y in through ==> y in c
  }

  /** The set comprehension in `Closure` loses no reachable node. */
  lemma {:induction false} ReachesIsInClosure(h: Heap, through: set<nat>, seeds: set<nat>, w: nat)
    ensures Reaches(h, through, seeds, w) <==> w in Closure(h, through, seeds)
  {
    if Reaches(h, through, seeds, w) {
      var p :| IsPath(h, through, p) && p[0] in seeds && p[|p| - 1] == w;
      assert |p| == 1 || p[|p| - 1] in through;
    }
  }

  lemma {:induction false} ClosureClosed(h: Heap, through: set<nat>, seeds: set<nat>)
    ensures Closed(h, through, seeds, Closure(h, through, seeds))
  {
    var c := Closure(h, through, seeds);
    forall x | x in seeds ensures x in c {
      assert IsPath(h, through, [x]);
      assert [x][0] in seeds && [x][|[x]| - 1] == x;
      ReachesIsInClosure(h, through, seeds, x);
    }
    forall x: nat, y: nat | x in c && Edge(h, x, y) && y in through ensures y in c {
      var p :| IsPath(h, through, p) && p[0] in seeds && p[|p| - 1] == x;
      var q := p + [y];
      assert IsPath(h, through, q) by {
        forall i | 0 < i < |q| ensures Edge(h, q[i - 1], q[i]) && q[i] in through {
          if i < |p| {
            assert q[i] == p[i] && q[i - 1] == p[i - 1];
          }
        }
      }
      assert q[0] == p[0] && q[|q| - 1] == y;
    }
  }

  lemma {:induction false} PathStaysIn(h: Heap, through: set<nat>, seeds: set<nat>, c: set<nat>, p: seq<nat>, i: nat)
    requires Closed(h, through, seeds, c)
    requires IsPath(h, through, p) && p[0] in seeds && i < |p|
    ensures p[i] in c
  {
    if i > 0 {
      PathStaysIn(h, through, seeds, c, p, i - 1);
      assert Edge(h, p[i - 1], p[i]) && p[i] in through;
    }
  }

  lemma {:induction false} ClosureLeast(h: Heap, through: set<nat>, seeds: set<nat>, c: set<nat>)
    requires Closed(h, through, seeds, c)
    ensures Closure(h, through, seeds) <= c
  {
    forall w | w in Closure(h, through, seeds) ensures w in c {
      var p :| IsPath(h, through, p) && p[0] in seeds && p[|p| - 1] == w;
      PathStaysIn(h, through, seeds, c, p, |p| - 1);
    }
  }
}
