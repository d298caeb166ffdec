/** Sums and bags over the threads of a system, and how one thread's change moves them. */
module Sums {

  ghost function Sum<T>(s: seq<T>, f: T -> int): int {
    if s == [] then 0 else f(s[0]) + Sum(s[1..], f)
  }

  lemma {:induction false} SumUpdate<T>(s: seq<T>, i: nat, x: T, f: T -> int)
    requires i < |s|
    ensures Sum(s[i := x], f) == Sum(s, f) - f(s[i]) + f(x)
  {
    if i == 0 {
      assert s[0 := x][1..] == s[1..];
    } else {
      assert s[i := x][1..] == s[1..][i - 1 := x];
      SumUpdate(s[1..], i - 1, x, f);
    }
  }

  /** A measure of two parts, the second at most `k`, gets smaller with the first. */
  lemma {:induction false} Smaller(k: nat, a: int, a': int)
    requires a' <= a - 1
    ensures (k + 1) * a' + k < (k + 1) * a
  {
    assert (k + 1) * a' <= (k + 1) * (a - 1);
  }
  function Map<T, U>(s: seq<T>, f: T -> U): seq<U> {
    seq(|s|, i requires 0 <= i < |s| => f(s[i]))
  }

  /** A change of every element that moves no term moves no sum. */
  lemma {:induction false} SumMap<T(!new)>(s: seq<T>, f: T -> T, g: T -> int)
    requires forall x :: g(f(x)) == g(x)
    ensures Sum(Map(s, f), g) == Sum(s, g)
  {
    if s != [] {
      assert Map(s, f)[1..] == Map(s[1..], f);
      SumMap(s[1..], f, g);
    }
  }

  /** A sum of non-negative terms is at least each of them. */
  lemma {:induction false} SumAtLeast<T>(s: seq<T>, i: nat, f: T -> int)
    requires i < |s| && forall k :: 0 <= k < |s| ==> f(s[k]) >= 0
    ensures Sum(s, f) >= f(s[i])
  {
    if i == 0 {
      SumNonNegative(s[1..], f);
    } else {
      assert s[1..][i - 1] == s[i];
      SumAtLeast(s[1..], i - 1, f);
    }
  }

  lemma {:induction false} SumNonNegative<T>(s: seq<T>, f: T -> int)
    requires forall k :: 0 <= k < |s| ==> f(s[k]) >= 0
    ensures Sum(s, f) >= 0
  {
    if s != [] { SumNonNegative(s[1..], f); }
  }

  lemma {:induction false} SumMonotone<T>(s: seq<T>, f: T -> int, g: T -> int)
    requires forall k :: 0 <= k < |s| ==> f(s[k]) <= g(s[k])
    ensures Sum(s, f) <= Sum(s, g)
  {
    if s != [] {
      assert f(s[0]) <= g(s[0]);
      SumMonotone(s[1..], f, g);
    }
  }

  lemma {:induction false} SumConstant<T>(s: seq<T>, f: T -> int, c: int)
    requires forall k :: 0 <= k < |s| ==> f(s[k]) == c
    ensures Sum(s, f) == |s| * c
  {
    if s != [] { SumConstant(s[1..], f, c); }
  }

  /** A positive sum has a positive term. */
  lemma {:induction false} SumPositive<T>(s: seq<T>, f: T -> int) returns (i: nat)
    requires Sum(s, f) > 0
    ensures i < |s| && f(s[i]) > 0
  {
    if f(s[0]) > 0 {
      i := 0;
    } else {
      var j := SumPositive(s[1..], f);
      i := j + 1;
    }
  }

  /** The places from `k` on where a term is one. */
  ghost function Places<T>(s: seq<T>, f: T -> int, k: nat): set<nat>
    requires k <= |s|
    decreases |s| - k
  {
    if k == |s| then {} else (if f(s[k]) == 1 then {k} else {}) + Places(s, f, k + 1)
  }

  /** A sum of zeros and ones counts the ones. */
  lemma {:induction false} SumCounts<T>(s: seq<T>, f: T -> int, k: nat)
    requires k <= |s| && forall i :: 0 <= i < |s| ==> 0 <= f(s[i]) <= 1
    ensures |Places(s, f, k)| == Sum(s[k..], f)
    ensures forall i: nat :: i in Places(s, f, k) <==> k <= i < |s| && f(s[i]) == 1
    decreases |s| - k
  {
    if k < |s| {
      SumCounts(s, f, k + 1);
      assert s[k..][1..] == s[k + 1..];
    }
  }

  /** A set no larger than one whose images cover it. */
  lemma {:induction false} CoverIsLarger(a: set<nat>, b: set<nat>, f: nat -> nat)
    requires forall x :: x in a ==> exists y :: y in b && f(y) == x
    ensures |a| <= |b|
  {
    if a != {} {
      var x :| x in a;
      var y :| y in b && f(y) == x;
      forall z | z in a - {x} ensures exists w :: w in b - {y} && f(w) == z {
        var w :| w in b && f(w) == z;
        assert w in b - {y};
      }
      CoverIsLarger(a - {x}, b - {y}, f);
    }
  }

  lemma {:induction false} BelowIsSmall(a: set<nat>, n: nat)
    requires forall x :: x in a ==> x < n
    ensures |a| <= n
  {
    if n == 0 {
      assert a == {};
    } else {
      BelowIsSmall(a - {n - 1}, n - 1);
    }
  }

  ghost function Bag<T, U>(s: seq<T>, f: T -> multiset<U>): multiset<U> {
    if s == [] then multiset{} else f(s[0]) + Bag(s[1..], f)
  }

  lemma {:induction false} BagUpdate<T, U>(s: seq<T>, i: nat, x: T, f: T -> multiset<U>)
    requires i < |s|
    ensures Bag(s[i := x], f) + f(s[i]) == Bag(s, f) + f(x)
  {
    if i == 0 {
      assert s[0 := x][1..] == s[1..];
    } else {
      assert s[i := x][1..] == s[1..][i - 1 := x];
      BagUpdate(s[1..], i - 1, x, f);
      var t := s[1..][i - 1 := x];
      assert Bag(s[i := x], f) + f(s[i]) == f(s[0]) + (Bag(t, f) + f(s[1..][i - 1]));
    }
  }

  /** A change that does not move the element's bag does not move the total. */
  lemma {:induction false} BagSame<T, U>(s: seq<T>, i: nat, x: T, f: T -> multiset<U>)
    requires i < |s| && f(s[i]) == f(x)
    ensures Bag(s[i := x], f) == Bag(s, f)
  {
    if i == 0 {
      assert s[0 := x][1..] == s[1..];
    } else {
      assert s[i := x][1..] == s[1..][i - 1 := x];
      BagSame(s[1..], i - 1, x, f);
    }
  }

  lemma {:induction false} BagAtLeast<T, U>(s: seq<T>, i: nat, f: T -> multiset<U>)
    requires i < |s|
    ensures f(s[i]) <= Bag(s, f)
  {
    if i > 0 { BagAtLeast(s[1..], i - 1, f); }
  }

  lemma {:induction false} BagEmpty<T, U>(s: seq<T>, f: T -> multiset<U>)
    requires forall k :: 0 <= k < |s| ==> f(s[k]) == multiset{}
    ensures Bag(s, f) == multiset{}
  {
    if s != [] { BagEmpty(s[1..], f); }
  }
}
