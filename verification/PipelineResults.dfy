/** What the pipeline delivers, in terms of the input alone. */
module PipelineResults {
  import opened Sums
  import opened Int64
  import opened Pipeline
  import opened PipelineProofs

  // ---------- squares ----------

  /** `v` is the square of `x` in 64 bits. */
  predicate IsSquare(v: int, x: int) {
    Represents(v, x * x)
  }

  function Products(xs: seq<int>): seq<int> {
    seq(|xs|, i requires 0 <= i < |xs| => xs[i] * xs[i])
  }

  lemma {:induction false} SquaresAreSquares(xs: seq<int>, v: int)
    ensures v in Squares(xs) <==> exists i :: 0 <= i < |xs| && IsSquare(v, xs[i])
  {
    if xs != [] {
      WrapRepresents(xs[0] * xs[0], v);
      SquaresAreSquares(xs[1..], v);
      if v in Squares(xs[1..]) {
        var i :| 0 <= i < |xs[1..]| && IsSquare(v, xs[1..][i]);
        assert IsSquare(v, xs[i + 1]);
      }
      if i :| 0 <= i < |xs| && IsSquare(v, xs[i]) {
        assert i > 0 ==> IsSquare(v, xs[1..][i - 1]);
      }
    }
  }

  lemma {:induction false} SquaresThatFit(xs: seq<int>)
    requires forall i :: 0 <= i < |xs| ==> IsInt64(xs[i] * xs[i])
    ensures Squares(xs) == multiset(Products(xs))
  {
    if xs != [] {
      WrapRepresents(xs[0] * xs[0], xs[0] * xs[0]);
      SquaresThatFit(xs[1..]);
      assert Products(xs) == [xs[0] * xs[0]] + Products(xs[1..]);
    }
  }

  /** On every schedule each delivered value is the 64-bit square of some input. */
  lemma {:induction false} DeliversOnlySquares(input: seq<int>, k: nat, policy: Policy, t: State, v: int)
    requires Reachable(input, k, policy, t) && v in t.delivered
    ensures exists i :: 0 <= i < |input| && IsSquare(v, input[i])
  {
    DeliversExactlyOnce(input, k, policy, t);
    assert v in multiset(t.delivered);
    SquaresAreSquares(input, v);
  }

  /** If the squares fit in 64 bits, then with a worker and without cancellation the values
      delivered when `out` closes are, as a multiset, exactly the products x * x. */
  lemma {:induction false} DeliversTheSquares(input: seq<int>, k: nat, policy: Policy, t: State)
    requires Reachable(input, k, policy, t) && k > 0 && !t.cancelled && t.outCloses > 0
    requires forall i :: 0 <= i < |input| ==> IsInt64(input[i] * input[i])
    ensures multiset(t.delivered) == multiset(Products(input))
  {
    DeliversExactlyOnce(input, k, policy, t);
    SquaresThatFit(input);
  }

  /** A search reports a target only if it is the 64-bit square of some input, `FindFirst` then
      has cancelled; and it reports failure without cancellation only if it is of none. */
  lemma {:induction false} FindFirstIsRight(input: seq<int>, k: nat, policy: Policy, t: State)
    requires policy != DrainAll && Reachable(input, k, policy, t) && t.policy == policy && t.consumer.Done?
    ensures t.consumer.found ==>
      t.consumer.value == policy.target && exists i :: 0 <= i < |input| && IsSquare(policy.target, input[i])
    ensures t.consumer.found && policy.FindFirst? ==> t.cancelled
    ensures !t.consumer.found && !t.cancelled && k > 0 ==>
      forall i :: 0 <= i < |input| ==> !IsSquare(policy.target, input[i])
  {
    SearchIsRight(input, k, policy, t);
    SquaresAreSquares(input, policy.target);
  }

  /** Once the context is cancelled `FindFirst` gives up: it reports no target it receives
      after that. */
  lemma {:induction false} CancelledSearchFails(s: State, ps: seq<Step>, t: State)
    requires Runs(s, ps, t) && s.cancelled && !s.policy.LeaveAt? && !(s.consumer.Done? && s.consumer.found)
    ensures !(t.consumer.Done? && t.consumer.found)
    decreases |ps|
  {
    if ps != [] { CancelledSearchFails(Do(s, ps[0]), ps[1..], t); }
  }

  /** No value is anywhere past the producer, and the producer is gone. */
  ghost predicate NothingFlows(s: State) {
    && s.producer == ProducerExited && s.delivered == []
    && (forall i :: 0 <= i < |s.squares| ==> !s.squares[i].Sending?)
    && (forall i :: 0 <= i < |s.outputs| ==> !s.outputs[i].Sending?)
  }

  lemma {:induction false} NothingEverFlows(s: State, ps: seq<Step>, t: State)
    requires NothingFlows(s) && Runs(s, ps, t)
    ensures NothingFlows(t)
    decreases |ps|
  {
    if ps != [] { NothingEverFlows(Do(s, ps[0]), ps[1..], t); }
  }

  /** A context cancelled before the start starts no producer: nothing is ever delivered. */
  lemma {:induction false} CancelledStartDeliversNothing(
    input: seq<int>, k: nat, policy: Policy, ps: seq<Step>, t: State)
    requires Runs(Start(input, k, true, policy), ps, t)
    ensures t.delivered == []
  {
    NothingEverFlows(Start(input, k, true, policy), ps, t);
  }

  // ---------- order ----------

  function HeldValue(g: Stage): seq<int> {
    if g.Sending? then [g.v] else []
  }

  /** With one worker the values stand in line: delivered, in the merge goroutine, in the worker,
      still to be sent. A goroutine that has left cuts the line behind it. */
  ghost predicate InLine(s: State) {
    && |s.squares| == |s.outputs| == 1
    && var all := Map(s.input, SquareOf);
    if Left(s.outputs[0]) then s.delivered <= all
    else if Left(s.squares[0]) then s.delivered + HeldValue(s.outputs[0]) <= all
    else s.delivered + HeldValue(s.outputs[0]) + HeldValue(s.squares[0]) + Map(s.rest, SquareOf) == all
  }

  lemma {:induction false} FeedInLine(s: State)
    requires Sized(s) && InLine(s) && Enabled(s, Feed(0))
    ensures InLine(Do(s, Feed(0)))
  {
    assert Map(s.rest, SquareOf) == [SquareOf(s.rest[0])] + Map(s.rest[1..], SquareOf);
  }

  lemma {:induction false} StepInLine(s: State, p: Step)
    requires Sized(s) && InLine(s) && Enabled(s, p)
    ensures InLine(Do(s, p))
  {
    if p.Feed? {
      FeedInLine(s);
    }
  }

  lemma {:induction false} RunInLine(s: State, ps: seq<Step>, t: State)
    requires InLine(s) && Runs(s, ps, t)
    ensures InLine(t) && t.input == s.input
    decreases |ps|
  {
    if ps != [] {
      StepInLine(s, ps[0]);
      RunInLine(Do(s, ps[0]), ps[1..], t);
    }
  }

  /** A single worker keeps the order of the input: on every schedule, cancelled or not, the
      consumer has received the squares of a prefix of the input, in order. */
  lemma {:induction false} OneWorkerKeepsOrder(input: seq<int>, policy: Policy, t: State)
    requires Reachable(input, 1, policy, t)
    ensures |t.delivered| <= |input|
    ensures forall i :: 0 <= i < |t.delivered| ==> IsSquare(t.delivered[i], input[i])
  {
    var cancelledBefore, ps :| Runs(Start(input, 1, cancelledBefore, policy), ps, t);
    RunInLine(Start(input, 1, cancelledBefore, policy), ps, t);
    var all := Map(input, SquareOf);
    assert t.delivered <= all;
    forall i | 0 <= i < |t.delivered| ensures IsSquare(t.delivered[i], input[i]) {
      assert t.delivered[i] == all[i] == SquareOf(input[i]);
      WrapRepresents(input[i] * input[i], t.delivered[i]);
    }
  }
}
