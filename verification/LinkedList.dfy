/** A singly linked list without a tail pointer, refined to a sequence. */
module LinkedList {

  class Node<T> {
    var value: T
    var next: Node?<T>

    constructor (value: T)
      ensures this.value == value && next == null
    {
      this.value := value;
      next := null;
    }
  }

  ghost function At<T>(s: seq<Node<T>>, i: nat): Node?<T> {
    if i < |s| then s[i] else null
  }

  /** Following `next` from `head` goes through exactly the nodes of `spine` and ends. */
  ghost predicate IsSpine<T>(head: Node?<T>, spine: seq<Node<T>>)
    reads spine
  {
    && head == At(spine, 0)
    && forall i :: 0 <= i < |spine| ==> spine[i].next == At(spine, i + 1)
  }

  lemma {:induction false} SpineDrop<T>(head: Node?<T>, s: seq<Node<T>>, k: nat)
    requires IsSpine(head, s) && k <= |s|
    ensures IsSpine(At(s, k), s[k..])
  {
    forall i | 0 <= i < |s[k..]|
      ensures s[k..][i].next == At(s[k..], i + 1)
    {
      assert s[k..][i] == s[k + i];
    }
  }

  /** The nodes in order are determined by the pointers alone. */
  lemma {:induction false} SpineIsUnique<T>(head: Node?<T>, s: seq<Node<T>>, t: seq<Node<T>>)
    requires IsSpine(head, s) && IsSpine(head, t)
    ensures s == t
  {
    if s != [] {
      assert t != [];
      SpineDrop(head, s, 1);
      SpineDrop(head, t, 1);
      SpineIsUnique(s[0].next, s[1..], t[1..]);
      assert s == [s[0]] + s[1..] && t == [t[0]] + t[1..];
    }
  }

  /** A walk that ends never meets a node twice: the list is acyclic. */
  lemma {:induction false} SpineIsAcyclic<T>(head: Node?<T>, s: seq<Node<T>>, i: nat, j: nat)
    requires IsSpine(head, s) && i < j < |s|
    ensures s[i] != s[j]
  {
    if s[i] == s[j] {
      SpineDrop(head, s, i);
      SpineDrop(head, s, j);
      SpineIsUnique(s[i], s[i..], s[j..]);
    }
  }

  /** The caller's states: from `a`, each value of `s` in order takes one to the next. */
  ghost predicate Visits<A, T>(f: (A, T) -> A, a: A, s: seq<T>, states: seq<A>) {
    && |states| == |s| + 1 && states[0] == a
    && forall k :: 0 <= k < |s| ==> states[k + 1] == f(states[k], s[k])
  }

  /** There is only one way to visit. */
  lemma {:induction false} VisitsAgree<A, T>(f: (A, T) -> A, a: A, s: seq<T>, p: seq<A>, q: seq<A>, k: nat)
    requires Visits(f, a, s, p) && Visits(f, a, s, q) && k <= |s|
    ensures p[k] == q[k]
  {
    if k > 0 { VisitsAgree(f, a, s, p, q, k - 1); }
  }

  /** A callback that appends has collected the first k values after k visits. */
  lemma {:induction false} AppendingCollects<T>(f: (seq<T>, T) -> seq<T>, s: seq<T>, states: seq<seq<T>>, k: nat)
    requires Visits(f, [], s, states) && k <= |s| && forall c, x :: f(c, x) == c + [x]
    ensures states[k] == s[..k]
  {
    if k > 0 {
      AppendingCollects(f, s, states, k - 1);
      assert s[..k] == s[..k - 1] + [s[k - 1]];
    }
  }

  class LinkedList<T> {
    var head: Node?<T>
    var length: int
    const zero: T
    ghost var spine: seq<Node<T>>

    ghost predicate Valid()
      reads this, spine
    {
      IsSpine(head, spine) && length == |spine|
    }

    ghost function Contents(): (s: seq<T>)
      reads this, spine
    {
      seq(|spine|, i requires 0 <= i < |spine| reads this, spine => spine[i].value)
    }

    /** `zero` is the zero value of the element type. */
    constructor (zero: T)
      ensures Valid() && Contents() == [] && this.zero == zero && fresh(spine)
    {
      this.zero := zero;
      head, length, spine := null, 0, [];
    }

    method PushBack(value: T)
      requires Valid()
      modifies this, spine
      ensures Valid() && Contents() == old(Contents()) + [value]
      ensures |spine| == |old(spine)| + 1 && spine[..|old(spine)|] == old(spine) && fresh(spine[|old(spine)|])
    {
      var node := new Node(value);
      if head == null {
        head := node;
      } else {
        var curr := head;
        ghost var i := 0;
        while curr.next != null
          invariant 0 <= i < |spine| && curr == spine[i]
          decreases |spine| - i
        {
          curr := curr.next;
          i := i + 1;
        }
        forall k | 0 <= k < i ensures spine[k] != spine[i] { SpineIsAcyclic(head, spine, k, i); }
        curr.next := node;
      }
      spine := spine + [node];
      length := length + 1;
      assert Contents()[..|spine| - 1] == old(Contents());
    }

    method PopBack() returns (value: T, ok: bool)
      requires Valid()
      modifies this, spine
      ensures Valid() && ok == (old(Contents()) != [])
      ensures ok ==> old(Contents()) == Contents() + [value] && old(spine) == spine + [old(spine)[|old(spine)| - 1]]
      ensures !ok ==> value == zero && Contents() == [] && spine == old(spine)
    {
      if head == null { return zero, false; }
      if head.next == null {
        value := head.value;
        head := null;
      } else {
        var curr := head;
        ghost var i := 0;
        while curr.next.next != null
          invariant 0 <= i < |spine| - 1 && curr == spine[i]
          decreases |spine| - i
        {
          curr := curr.next;
          i := i + 1;
        }
        value := curr.next.value;
        forall k | 0 <= k < i ensures spine[k] != spine[i] { SpineIsAcyclic(head, spine, k, i); }
        curr.next := null;
      }
      spine := spine[..|spine| - 1];
      length := length - 1;
      return value, true;
    }

    method PeekFront() returns (value: T, ok: bool)
      requires Valid()
      ensures ok == (Contents() != []) && value == if ok then Contents()[0] else zero
    {
      if head == null { return zero, false; }
      return head.value, true;
    }

    method Len() returns (n: int)
      requires Valid()
      ensures n == |Contents()|
    {
      n := length;
    }

    /** The callback is a step on the caller's state. It is called on every value once, in
        order, and the list is left as it was. */
    method ForEach<A>(f: (A, T) -> A, a: A) returns (r: A)
      requires Valid()
      ensures exists states :: Visits(f, a, Contents(), states) && r == states[|Contents()|]
    {
      r := a;
      var curr := head;
      ghost var i := 0;
      ghost var states := [a];
      while curr != null
        invariant 0 <= i <= |spine| && curr == if i < |spine| then spine[i] else null
        invariant Visits(f, a, Contents()[..i], states) && r == states[i]
        decreases |spine| - i
      {
        assert curr.value == Contents()[i];
        r := f(r, curr.value);
        states := states + [r];
        curr := curr.next;
        i := i + 1;
      }
      assert Contents()[..i] == Contents();
    }

    /** So an appending callback collects exactly the contents. */
    method Collect() returns (values: seq<T>)
      requires Valid()
      ensures values == Contents()
    {
      values := ForEach((c: seq<T>, x: T) => c + [x], []);
      ghost var states :|
        Visits((c: seq<T>, x: T) => c + [x], [], Contents(), states) && values == states[|Contents()|];
      AppendingCollects((c: seq<T>, x: T) => c + [x], Contents(), states, |Contents()|);
      assert Contents()[..|Contents()|] == Contents();
    }

    /** Popping what was just pushed returns it and restores the list, node by node. */
    method PushThenPop(value: T) returns (popped: T, ok: bool)
      requires Valid()
      modifies this, spine
      ensures Valid() && ok && popped == value
      ensures spine == old(spine) && Contents() == old(Contents())
    {
      ghost var before := Contents();
      PushBack(value);
      assert Contents()[|before|] == value;
      popped, ok := PopBack();
      assert before + [value] == Contents() + [popped];
      assert Contents() == (before + [value])[..|before|];
    }
  }
}
