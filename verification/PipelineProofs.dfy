/** Exactly-once delivery, close discipline, shutdown and leaks of the pipeline, over every
    schedule, any input, and any number of workers. */
module PipelineProofs {
  import opened Sums
  import opened Pipeline

  // ---------- invariants ----------

  lemma {:induction false} StartInvariant(input: seq<int>, k: nat, cancelledBefore: bool, policy: Policy)
    ensures Invariant(Start(input, k, cancelledBefore, policy))
  {
    var s := Start(input, k, cancelledBefore, policy);
    SumConstant(s.outputs, StillIn, 1);
    BagEmpty(s.squares, Held);
    BagEmpty(s.outputs, Held);
  }

  lemma {:induction false} OutputStep(s: State, i: nat, g: Stage)
    requires i < |s.outputs| && s.group == Sum(s.outputs, StillIn)
    ensures Sum(s.outputs[i := g], StillIn) == s.group - StillIn(s.outputs[i]) + StillIn(g)
    ensures s.group >= StillIn(s.outputs[i])
  {
    SumUpdate(s.outputs, i, g, StillIn);
    SumAtLeast(s.outputs, i, StillIn);
  }

  lemma {:induction false} StepGroup(s: State, p: Step)
    requires Sized(s) && GroupCounts(s) && Enabled(s, p)
    ensures GroupCounts(Do(s, p))
  {
    if p.PassOn? {
      OutputStep(s, p.i, s.squares[p.i]);
    } else if p.OutputCancelled? || p.OutputSeesClose? {
      OutputStep(s, p.i, Returned);
    } else if p.OutputLeavesGroup? {
      OutputStep(s, p.i, Exited);
    } else if p.Deliver? {
      OutputStep(s, p.i, Receiving);
    } else {
      assert Do(s, p).outputs == s.outputs && Do(s, p).group == s.group;
    }
  }

  predicate SquareStep(p: Step) {
    p.Feed? || p.SquareCancelled? || p.SquareSeesClose? || p.SquareCloses? || p.PassOn?
  }

  /** Only its own steps change a worker or close its channel. */
  lemma {:induction false} SquareFrame(s: State, p: Step)
    requires Sized(s) && Enabled(s, p)
    ensures var t := Do(s, p);
      && Sized(t)
      && (!SquareStep(p) ==> t.squares == s.squares && t.midCloses == s.midCloses)
      && (SquareStep(p) ==> forall i :: 0 <= i < |s.squares| && i != p.i ==>
            t.squares[i] == s.squares[i] && t.midCloses[i] == s.midCloses[i])
      && (SquareStep(p) ==> s.squares[p.i] != Exited)
      && (SquareStep(p) ==>
            t.midCloses[p.i] == s.midCloses[p.i] + (if t.squares[p.i] == Exited then 1 else 0))
  {
  }

  lemma {:induction false} ProducerFrame(s: State, p: Step)
    requires Sized(s) && Enabled(s, p)
    ensures var t := Do(s, p);
      (t.producer == s.producer && t.srcCloses == s.srcCloses)
      || (s.producer == Producing && t.producer == ProducerReturned && t.srcCloses == s.srcCloses)
      || (s.producer == ProducerReturned && t.producer == ProducerExited && t.srcCloses == s.srcCloses + 1)
  {
  }

  lemma {:induction false} StepOwnership(s: State, p: Step)
    requires Ownership(s) && Enabled(s, p)
    ensures Ownership(Do(s, p))
  {
    StepGroup(s, p);
    SquareFrame(s, p);
    ProducerFrame(s, p);
    CloseCounts(s, p, Do(s, p));
  }

  lemma {:induction false} CloseCounts(s: State, p: Step, t: State)
    requires Ownership(s) && Sized(t) && |t.squares| == |s.squares| && (SquareStep(p) ==> p.i < |s.squares|)
    requires !SquareStep(p) ==> t.squares == s.squares && t.midCloses == s.midCloses
    requires SquareStep(p) ==> forall i :: 0 <= i < |s.squares| && i != p.i ==>
      t.squares[i] == s.squares[i] && t.midCloses[i] == s.midCloses[i]
    requires SquareStep(p) ==> s.squares[p.i] != Exited
    requires SquareStep(p) ==>
      t.midCloses[p.i] == s.midCloses[p.i] + (if t.squares[p.i] == Exited then 1 else 0)
    ensures forall i :: 0 <= i < |t.squares| ==> t.midCloses[i] == if t.squares[i] == Exited then 1 else 0
  {
  }

  /** Exchanging what one worker holds. */
  lemma {:induction false} SquareHolds(s: State, i: nat, g: Stage)
    requires i < |s.squares|
    ensures Bag(s.squares[i := g], Held) + Held(s.squares[i]) == Bag(s.squares, Held) + Held(g)
    ensures Held(g) == multiset{} ==> Bag(s.squares[i := g], Held) + Held(s.squares[i]) == Bag(s.squares, Held)
    ensures Held(s.squares[i]) == multiset{} ==> Bag(s.squares[i := g], Held) == Bag(s.squares, Held) + Held(g)
  {
    BagUpdate(s.squares, i, g, Held);
  }

  lemma {:induction false} OutputHolds(s: State, i: nat, g: Stage)
    requires i < |s.outputs|
    ensures Bag(s.outputs[i := g], Held) + Held(s.outputs[i]) == Bag(s.outputs, Held) + Held(g)
    ensures Held(g) == multiset{} ==> Bag(s.outputs[i := g], Held) + Held(s.outputs[i]) == Bag(s.outputs, Held)
    ensures Held(s.outputs[i]) == multiset{} ==> Bag(s.outputs[i := g], Held) == Bag(s.outputs, Held) + Held(g)
  {
    BagUpdate(s.outputs, i, g, Held);
  }

  /** The five places a value can be in, added up in any order. */
  lemma {:induction false} Regroup(
    a: multiset<int>, b: multiset<int>, c: multiset<int>, d: multiset<int>, e: multiset<int>)
    ensures a + b + c + d + e == (a + b) + (c + d + e)
    ensures a + b + c + d + e == (b + c) + (a + d + e)
    ensures a + b + c + d + e == (c + d) + (a + b + e)
    ensures a + b + c + d + e == (b + e) + (a + c + d)
    ensures a + b + c + d + e == (c + e) + (a + b + d)
  {
  }

  lemma {:induction false} RegroupState(s: State)
    ensures var a := Squares(s.rest); var b := Bag(s.squares, Held); var c := Bag(s.outputs, Held);
            var d := multiset(s.delivered); var e := s.dropped; var all := a + b + c + d + e;
      && all == (a + b) + (c + d + e) && all == (b + c) + (a + d + e) && all == (c + d) + (a + b + e)
      && all == (b + e) + (a + c + d) && all == (c + e) + (a + b + d)
  {
    Regroup(Squares(s.rest), Bag(s.squares, Held), Bag(s.outputs, Held), multiset(s.delivered), s.dropped);
  }

  /** A value that leaves one place and enters another stays in their sum. */
  lemma {:induction false} Move(
    from: multiset<int>, from': multiset<int>, to: multiset<int>, to': multiset<int>, h: multiset<int>)
    requires from' + h == from && to' == to + h
    ensures from' + to' == from + to
  {
  }

  lemma {:induction false} FeedMoves(s: State, i: nat)
    requires Sized(s) && Enabled(s, Feed(i))
    ensures var t := Do(s, Feed(i));
      Squares(t.rest) + Bag(t.squares, Held) == Squares(s.rest) + Bag(s.squares, Held)
  {
    var t := Do(s, Feed(i));
    var v := SquareOf(s.rest[0]);
    SquareHolds(s, i, Sending(v));
    Move(Squares(s.rest), Squares(t.rest), Bag(s.squares, Held), Bag(t.squares, Held), multiset{v});
  }

  lemma {:induction false} FeedConserved(s: State, i: nat)
    requires Sized(s) && Conserved(s) && Enabled(s, Feed(i))
    ensures Conserved(Do(s, Feed(i)))
  {
    var t := Do(s, Feed(i));
    FeedMoves(s, i);
    RegroupState(s);
    RegroupState(t);
  }

  lemma {:induction false} PassOnConserved(s: State, i: nat)
    requires Sized(s) && Conserved(s) && Enabled(s, PassOn(i))
    ensures Conserved(Do(s, PassOn(i)))
  {
    var t := Do(s, PassOn(i));
    SquareHolds(s, i, Receiving);
    OutputHolds(s, i, s.squares[i]);
    Move(Bag(s.squares, Held), Bag(t.squares, Held), Bag(s.outputs, Held), Bag(t.outputs, Held), Held(s.squares[i]));
    RegroupState(s);
    RegroupState(t);
  }

  lemma {:induction false} DeliverConserved(s: State, i: nat)
    requires Sized(s) && Conserved(s) && Enabled(s, Deliver(i))
    ensures Conserved(Do(s, Deliver(i)))
  {
    var t := Do(s, Deliver(i));
    OutputHolds(s, i, Receiving);
    Move(Bag(s.outputs, Held), Bag(t.outputs, Held), multiset(s.delivered), multiset(t.delivered), Held(s.outputs[i]));
    RegroupState(s);
    RegroupState(t);
  }

  /** A worker that leaves drops what it holds, if anything. */
  lemma {:induction false} SquareLeavesConserved(s: State, i: nat, g: Stage, t: State)
    requires Conserved(s) && i < |s.squares| && Held(g) == multiset{}
    requires t == s.(squares := s.squares[i := g], dropped := s.dropped + Held(s.squares[i]), midCloses := t.midCloses)
    ensures Conserved(t)
  {
    SquareHolds(s, i, g);
    Move(Bag(s.squares, Held), Bag(t.squares, Held), s.dropped, t.dropped, Held(s.squares[i]));
    RegroupState(s);
    RegroupState(t);
  }

  lemma {:induction false} OutputLeavesConserved(s: State, i: nat, g: Stage, t: State)
    requires Conserved(s) && i < |s.outputs| && Held(g) == multiset{}
    requires t == s.(outputs := s.outputs[i := g], dropped := s.dropped + Held(s.outputs[i]), group := t.group)
    ensures Conserved(t)
  {
    OutputHolds(s, i, g);
    Move(Bag(s.outputs, Held), Bag(t.outputs, Held), s.dropped, t.dropped, Held(s.outputs[i]));
    RegroupState(s);
    RegroupState(t);
  }

  predicate SquareLeaves(p: Step) {
    p.SquareCancelled? || p.SquareSeesClose? || p.SquareCloses?
  }

  predicate OutputLeaves(p: Step) {
    p.OutputCancelled? || p.OutputSeesClose? || p.OutputLeavesGroup?
  }

  predicate MovesValues(p: Step) {
    p.Feed? || p.PassOn? || p.Deliver? || SquareLeaves(p) || OutputLeaves(p)
  }

  lemma {:induction false} SquareLeavesShape(s: State, p: Step) returns (g: Stage)
    requires Sized(s) && Enabled(s, p) && SquareLeaves(p)
    ensures Held(g) == multiset{}
    ensures Do(s, p) == s.(squares := s.squares[p.i := g], dropped := s.dropped + Held(s.squares[p.i]),
                           midCloses := Do(s, p).midCloses)
  {
    g := if p.SquareCloses? then Exited else Returned;
  }

  lemma {:induction false} OutputLeavesShape(s: State, p: Step) returns (g: Stage)
    requires Sized(s) && Enabled(s, p) && OutputLeaves(p)
    ensures Held(g) == multiset{}
    ensures Do(s, p) == s.(outputs := s.outputs[p.i := g], dropped := s.dropped + Held(s.outputs[p.i]),
                           group := Do(s, p).group)
  {
    g := if p.OutputLeavesGroup? then Exited else Returned;
  }

  lemma {:induction false} OtherStepsMoveNothing(s: State, p: Step)
    requires Sized(s) && Enabled(s, p) && !MovesValues(p)
    ensures var t := Do(s, p);
      && t.input == s.input && t.rest == s.rest && t.squares == s.squares && t.outputs == s.outputs
      && t.delivered == s.delivered && t.dropped == s.dropped
  {
  }

  lemma {:induction false} StepConserved(s: State, p: Step)
    requires Sized(s) && Conserved(s) && Enabled(s, p)
    ensures Conserved(Do(s, p))
  {
    if SquareLeaves(p) {
      var g := SquareLeavesShape(s, p);
      SquareLeavesConserved(s, p.i, g, Do(s, p));
    } else if OutputLeaves(p) {
      var g := OutputLeavesShape(s, p);
      OutputLeavesConserved(s, p.i, g, Do(s, p));
    } else if p.Feed? {
      FeedConserved(s, p.i);
    } else if p.PassOn? {
      PassOnConserved(s, p.i);
    } else if p.Deliver? {
      DeliverConserved(s, p.i);
    } else {
      OtherStepsMoveNothing(s, p);
    }
  }

  /** Without cancellation a worker leaves only when `src` is closed ... */
  lemma {:induction false} SquareLeavesLate(s: State, p: Step, i: nat)
    requires Ownership(s) && Orderly(s) && Enabled(s, p) && !Do(s, p).cancelled
    requires i < |s.squares| && Left(Do(s, p).squares[i])
    ensures Do(s, p).producer == ProducerExited
  {
    ProducerFrame(s, p);
    if SquareStep(p) && p.i == i {
      assert p.SquareSeesClose? || p.SquareCloses?;
    } else {
      SquareFrame(s, p);
      assert Left(s.squares[i]);
    }
  }

  /** ... and a merge goroutine only when its worker's channel is closed. */
  lemma {:induction false} OutputLeavesLate(s: State, p: Step, i: nat)
    requires Ownership(s) && Orderly(s) && Enabled(s, p) && !Do(s, p).cancelled
    requires i < |s.outputs| && i < |Do(s, p).outputs| && Left(Do(s, p).outputs[i])
    ensures Do(s, p).squares[i] == Exited
  {
    SquareFrame(s, p);
    if !Left(s.outputs[i]) {
      assert p.OutputSeesClose? && p.i == i;
    }
  }

  lemma {:induction false} StepOrderly(s: State, p: Step)
    requires Ownership(s) && Orderly(s) && Enabled(s, p)
    ensures Orderly(Do(s, p))
  {
    var t := Do(s, p);
    SquareFrame(s, p);
    StepKeepsShape(s, p);
    if !t.cancelled {
      forall i | 0 <= i < |t.squares| && Left(t.squares[i]) ensures t.producer == ProducerExited {
        SquareLeavesLate(s, p, i);
      }
      forall i | 0 <= i < |t.outputs| && Left(t.outputs[i]) ensures t.squares[i] == Exited {
        OutputLeavesLate(s, p, i);
      }
      NothingDropped(s, p);
    }
  }

  lemma {:induction false} NothingDropped(s: State, p: Step)
    requires Sized(s) && Orderly(s) && Enabled(s, p) && !Do(s, p).cancelled
    ensures Do(s, p).dropped == multiset{} && (Do(s, p).producer != Producing ==> Do(s, p).rest == [])
  {
  }

  predicate ConsumerStep(p: Step) {
    p.Cancel? || p.CloseOut? || p.Deliver? || p.ConsumerSeesClose? || p.ConsumerChecks? || p.ConsumerDrains?
  }

  lemma {:induction false} OtherStepsTeachNothing(s: State, p: Step)
    requires Sized(s) && Enabled(s, p) && !ConsumerStep(p)
    ensures var t := Do(s, p);
      t.policy == s.policy && t.cancelled == s.cancelled && t.consumer == s.consumer
      && t.delivered == s.delivered && t.outCloses == s.outCloses
  {
  }

  lemma {:induction false} DeliverTeaches(s: State, i: nat)
    requires Sized(s) && Searching(s) && Enabled(s, Deliver(i))
    ensures Searching(Do(s, Deliver(i)))
  {
    var t := Do(s, Deliver(i));
    assert t.delivered[..|t.delivered| - 1] == s.delivered;
    assert s.outputs[i].v in t.delivered;
  }

  lemma {:induction false} CheckTeaches(s: State)
    requires Sized(s) && Searching(s) && s.consumer.Holding?
    ensures Searching(Do(s, ConsumerChecks))
  {
    if s.delivered != [] {
      assert s.delivered == s.delivered[..|s.delivered| - 1] + [s.delivered[|s.delivered| - 1]];
    }
  }

  lemma {:induction false} StepSearching(s: State, p: Step)
    requires Sized(s) && Searching(s) && Enabled(s, p)
    ensures Searching(Do(s, p))
  {
    if !ConsumerStep(p) {
      OtherStepsTeachNothing(s, p);
    } else if p.Deliver? {
      DeliverTeaches(s, p.i);
    } else if p.ConsumerChecks? {
      CheckTeaches(s);
    } else {
      RemainingTeach(s, p);
    }
  }

  lemma {:induction false} RemainingTeach(s: State, p: Step)
    requires Sized(s) && Searching(s) && Enabled(s, p)
    requires p.Cancel? || p.CloseOut? || p.ConsumerSeesClose? || p.ConsumerDrains?
    ensures Searching(Do(s, p))
  {
  }

  lemma {:induction false} StepInvariant(s: State, p: Step)
    requires Invariant(s) && Enabled(s, p)
    ensures Invariant(Do(s, p))
  {
    StepOwnership(s, p);
    StepConserved(s, p);
    StepOrderly(s, p);
    StepSearching(s, p);
  }

  lemma {:induction false} StepKeepsShape(s: State, p: Step)
    requires Sized(s) && Enabled(s, p)
    ensures var t := Do(s, p); Sized(t) && t.input == s.input && |t.squares| == |s.squares|
  {
  }

  lemma {:induction false} RunInvariant(s: State, ps: seq<Step>, t: State)
    requires Invariant(s) && Runs(s, ps, t)
    ensures Invariant(t) && t.input == s.input && |t.squares| == |s.squares|
    decreases |ps|
  {
    if ps != [] {
      StepInvariant(s, ps[0]);
      StepKeepsShape(s, ps[0]);
      RunInvariant(Do(s, ps[0]), ps[1..], t);
    }
  }

  /** A state of the pipeline on some schedule. */
  ghost predicate Reachable(input: seq<int>, k: nat, policy: Policy, t: State) {
    exists cancelledBefore, ps :: Runs(Start(input, k, cancelledBefore, policy), ps, t)
  }

  lemma {:induction false} ReachableInvariant(input: seq<int>, k: nat, policy: Policy, t: State)
    requires Reachable(input, k, policy, t)
    ensures Invariant(t) && t.input == input && |t.squares| == k
  {
    var cancelledBefore, ps :| Runs(Start(input, k, cancelledBefore, policy), ps, t);
    StartInvariant(input, k, cancelledBefore, policy);
    RunInvariant(Start(input, k, cancelledBefore, policy), ps, t);
  }

  // ---------- close discipline ----------

  /** On every schedule each channel is closed at most once, only after its last sender has
      left, and nothing is ever sent on a closed channel. */
  lemma {:induction false} NeverPanics(input: seq<int>, k: nat, policy: Policy, t: State)
    requires Reachable(input, k, policy, t)
    ensures Sized(t) && |t.squares| == k && !Panics(t)
    ensures t.srcCloses <= 1 && t.outCloses <= 1 && forall i :: 0 <= i < k ==> t.midCloses[i] <= 1
    ensures t.srcCloses == 1 ==> t.producer == ProducerExited
    ensures forall i :: 0 <= i < k && t.midCloses[i] == 1 ==> t.squares[i] == Exited
    ensures t.outCloses == 1 ==> forall i :: 0 <= i < k ==> t.outputs[i] == Exited
  {
    ReachableInvariant(input, k, policy, t);
    forall i | 0 <= i < k ensures t.outputs[i] != Exited ==> t.group > 0 {
      SumAtLeast(t.outputs, i, StillIn);
    }
  }

  // ---------- exactly once ----------

  lemma {:induction false} EverythingLeft(s: State)
    requires Ownership(s) && Orderly(s) && s.outCloses == 1
    ensures forall i :: 0 <= i < |s.outputs| ==> s.outputs[i] == Exited
    ensures Bag(s.outputs, Held) == multiset{}
    ensures !s.cancelled ==> Bag(s.squares, Held) == multiset{}
    ensures !s.cancelled && |s.squares| > 0 ==> s.rest == []
  {
    forall i | 0 <= i < |s.outputs| ensures s.outputs[i] == Exited {
      SumAtLeast(s.outputs, i, StillIn);
    }
    BagEmpty(s.outputs, Held);
    if !s.cancelled {
      BagEmpty(s.squares, Held);
      if |s.squares| > 0 { assert s.outputs[0] == Exited; }
    }
  }

  /** With or without cancellation the consumer never gets a value twice, nor a value that
      is not a square of the input. Without cancellation, once `out` is closed it has got
      them all, exactly unless there is input but no worker to carry it. */
  lemma {:induction false} DeliversExactlyOnce(input: seq<int>, k: nat, policy: Policy, t: State)
    requires Reachable(input, k, policy, t)
    ensures multiset(t.delivered) <= Squares(input)
    ensures !t.cancelled && t.outCloses > 0 ==>
      (multiset(t.delivered) == Squares(input) <==> k > 0 || input == [])
  {
    ReachableInvariant(input, k, policy, t);
    if !t.cancelled && t.outCloses > 0 {
      EverythingLeft(t);
      if k == 0 && input == [] { EmptyInput(t); }
      if k == 0 && input != [] {
        NoWorkersDeliverNothing(input, policy, t);
        assert SquareOf(input[0]) in Squares(input);
      }
    }
  }

  /** With no workers nothing is ever delivered, on any schedule. */
  lemma {:induction false} NoWorkersDeliverNothing(input: seq<int>, policy: Policy, t: State)
    requires Reachable(input, 0, policy, t)
    ensures t.delivered == []
  {
    var cancelledBefore, ps :| Runs(Start(input, 0, cancelledBefore, policy), ps, t);
    NobodyDelivers(Start(input, 0, cancelledBefore, policy), ps, t);
  }

  lemma {:induction false} NobodyDelivers(s: State, ps: seq<Step>, t: State)
    requires Sized(s) && |s.outputs| == 0 && Runs(s, ps, t)
    ensures t.delivered == s.delivered
    decreases |ps|
  {
    if ps != [] {
      StepKeepsShape(s, ps[0]);
      NobodyDelivers(Do(s, ps[0]), ps[1..], t);
    }
  }

  lemma {:induction false} EmptyInput(s: State)
    requires Invariant(s) && s.input == []
    ensures multiset(s.delivered) == multiset{}
  {
    assert |Squares(s.input)| == 0;
    assert multiset(s.delivered) <= Squares(s.input);
  }

  /** And yet `out` closes, input or not. */
  lemma {:induction false} NoWorkersClose(input: seq<int>, policy: Policy) returns (t: State)
    ensures Reachable(input, 0, policy, t) && !t.cancelled && t.outCloses == 1
  {
    var s := Start(input, 0, false, policy);
    var s1 := Do(s, GroupDone);
    t := Do(s1, CloseOut);
    assert Runs(t, [], t);
    var p1 := [CloseOut];
    assert p1[1..] == [];
    assert Runs(s1, p1, t);
    var p2 := [GroupDone, CloseOut];
    assert p2[1..] == p1;
    assert Runs(s, p2, t);
  }

  // ---------- the consumer's answer ----------

  /** Both searches report a target only if it is a square of the input, and `FindFirst` has then
      cancelled; they report failure without cancellation only if there is none. */
  lemma {:induction false} SearchIsRight(input: seq<int>, k: nat, policy: Policy, t: State)
    requires policy != DrainAll && Reachable(input, k, policy, t) && t.policy == policy && t.consumer.Done?
    ensures t.consumer.found ==> t.consumer.value == policy.target && policy.target in Squares(input)
    ensures t.consumer.found && policy.FindFirst? ==> t.cancelled
    ensures !t.consumer.found && !t.cancelled && (k > 0 || input == []) ==> policy.target !in Squares(input)
  {
    ReachableInvariant(input, k, policy, t);
    DeliversExactlyOnce(input, k, policy, t);
    if t.consumer.found {
      assert policy.target in multiset(t.delivered);
    } else if !t.cancelled {
      assert policy.target !in t.delivered;
    }
  }

  // ---------- shutdown ----------

  ghost predicate ShutDown(s: State) {
    && s.producer == ProducerExited
    && (forall i :: 0 <= i < |s.squares| ==> s.squares[i] == Exited)
    && (forall i :: 0 <= i < |s.outputs| ==> s.outputs[i] == Exited)
    && s.closer == CloserExited && s.outCloses == 1
  }

  /** A step that needs neither the consumer nor another cancellation. */
  predicate OwnStep(p: Step) {
    !p.Cancel? && !p.Deliver? && !p.ConsumerSeesClose? && !p.ConsumerChecks? && !p.ConsumerDrains?
  }

  lemma {:induction false} GroupEmpties(s: State)
    requires Ownership(s) && forall i :: 0 <= i < |s.outputs| ==> s.outputs[i] == Exited
    ensures s.group == 0
  {
    SumConstant(s.outputs, StillIn, 0);
  }

  /** After cancellation, even with no consumer, some goroutine can always take a step until
      all have exited and `out` is closed. */
  lemma {:induction false} CancelledCanAlwaysStep(s: State) returns (p: Step)
    requires Ownership(s) && s.cancelled && !ShutDown(s)
    ensures OwnStep(p) && Enabled(s, p)
  {
    if s.producer != ProducerExited {
      p := if s.producer == ProducerReturned then ProducerCloses
           else if s.rest == [] then ProducerFinished else ProducerCancelled;
    } else if i :| 0 <= i < |s.squares| && s.squares[i] != Exited {
      p := if s.squares[i] == Returned then SquareCloses(i) else SquareCancelled(i);
    } else if i :| 0 <= i < |s.outputs| && s.outputs[i] != Exited {
      p := if s.outputs[i] == Returned then OutputLeavesGroup(i) else OutputCancelled(i);
    } else {
      GroupEmpties(s);
      p := if s.closer == AwaitingGroup then GroupDone else CloseOut;
    }
  }

  /** Without cancellation, a consumer that keeps receiving is enough: some step other than
      `Cancel` is enabled until everything has exited, `out` is closed, and the consumer has
      seen it. */
  lemma {:induction false} ReceivingConsumerKeepsItGoing(s: State) returns (p: Step)
    requires Ownership(s) && |s.squares| > 0 && !s.consumer.Done?
    ensures Enabled(s, p) && !p.Cancel?
  {
    if s.consumer.Holding? {
      p := ConsumerChecks;
    } else if s.outCloses > 0 {
      p := ConsumerSeesClose;
    } else if i :| 0 <= i < |s.outputs| && s.outputs[i] != Exited {
      match s.outputs[i] {
        case Sending(_) => p := Deliver(i);
        case Returned => p := OutputLeavesGroup(i);
        case Receiving =>
          match s.squares[i] {
            case Sending(_) => p := PassOn(i);
            case Returned => p := SquareCloses(i);
            case Exited => p := OutputSeesClose(i);
            case Receiving =>
              match s.producer {
                case ProducerReturned => p := ProducerCloses;
                case ProducerExited => p := SquareSeesClose(i);
                case Producing => p := if s.rest == [] then ProducerFinished else Feed(i);
              }
          }
      }
    } else {
      GroupEmpties(s);
      p := if s.closer == AwaitingGroup then GroupDone else CloseOut;
    }
  }

  ghost function SquareWork(g: Stage): int {
    match g case Receiving => 2 case Sending(_) => 5 case Returned => 1 case Exited => 0
  }

  ghost function OutputWork(g: Stage): int {
    match g case Receiving => 2 case Sending(_) => 4 case Returned => 1 case Exited => 0
  }

  ghost function ConsumerWork(s: State): int {
    (match s.consumer case AwaitingValue => 2 case Holding(_) => 3 case Done(_, _) => 1)
    + (if s.policy == DrainAll then 0 else 5)
  }

  /** Bounds the number of steps left, whoever takes them. */
  ghost function WorkLeft(s: State): int {
    4 * |s.rest| + Sum(s.squares, SquareWork) + Sum(s.outputs, OutputWork)
    + (match s.producer case Producing => 2 case ProducerReturned => 1 case ProducerExited => 0)
    + (match s.closer case AwaitingGroup => 2 case AboutToClose => 1 case CloserExited => 0)
    + ConsumerWork(s) + if s.cancelled then 0 else 1
  }

  lemma {:induction false} SquareStepDoesWork(s: State, p: Step)
    requires Sized(s) && Enabled(s, p)
    requires p.Feed? || p.SquareCancelled? || p.SquareSeesClose? || p.SquareCloses?
    ensures WorkLeft(Do(s, p)) < WorkLeft(s)
  {
    SumUpdate(s.squares, p.i, Do(s, p).squares[p.i], SquareWork);
    assert Do(s, p).squares == s.squares[p.i := Do(s, p).squares[p.i]];
  }

  lemma {:induction false} OutputStepDoesWork(s: State, p: Step)
    requires Sized(s) && Enabled(s, p)
    requires p.Deliver? || p.OutputCancelled? || p.OutputSeesClose? || p.OutputLeavesGroup?
    ensures WorkLeft(Do(s, p)) < WorkLeft(s)
  {
    SumUpdate(s.outputs, p.i, Do(s, p).outputs[p.i], OutputWork);
    assert Do(s, p).outputs == s.outputs[p.i := Do(s, p).outputs[p.i]];
  }

  lemma {:induction false} PassOnDoesWork(s: State, i: nat)
    requires Sized(s) && Enabled(s, PassOn(i))
    ensures WorkLeft(Do(s, PassOn(i))) < WorkLeft(s)
  {
    SumUpdate(s.squares, i, Receiving, SquareWork);
    SumUpdate(s.outputs, i, s.squares[i], OutputWork);
  }

  lemma {:induction false} StepDoesWork(s: State, p: Step)
    requires Sized(s) && Searching(s) && Enabled(s, p)
    ensures WorkLeft(Do(s, p)) < WorkLeft(s)
  {
    match p {
      case Feed(_) => SquareStepDoesWork(s, p);
      case SquareCancelled(_) => SquareStepDoesWork(s, p);
      case SquareSeesClose(_) => SquareStepDoesWork(s, p);
      case SquareCloses(_) => SquareStepDoesWork(s, p);
      case PassOn(i) => PassOnDoesWork(s, i);
      case Deliver(_) => OutputStepDoesWork(s, p);
      case OutputCancelled(_) => OutputStepDoesWork(s, p);
      case OutputSeesClose(_) => OutputStepDoesWork(s, p);
      case OutputLeavesGroup(_) => OutputStepDoesWork(s, p);
      case _ =>
    }
  }

  lemma {:induction false} WorkIsNonNegative(s: State)
    ensures WorkLeft(s) >= 0
  {
    SumNonNegative(s.squares, SquareWork);
    SumNonNegative(s.outputs, OutputWork);
  }

  /** No schedule is longer than the work left at its start: with the two lemmas above, every
      cancelled run shuts down completely, and so does every run with a receiving consumer. */
  lemma {:induction false} RunsAreBounded(s: State, ps: seq<Step>, t: State)
    requires Invariant(s) && Runs(s, ps, t)
    ensures |ps| <= WorkLeft(s) - WorkLeft(t) && WorkLeft(t) >= 0
    decreases |ps|
  {
    if ps == [] {
      WorkIsNonNegative(s);
    } else {
      StepDoesWork(s, ps[0]);
      StepInvariant(s, ps[0]);
      RunsAreBounded(Do(s, ps[0]), ps[1..], t);
    }
  }

  lemma {:induction false} CancelledStays(s: State, ps: seq<Step>, t: State)
    requires Runs(s, ps, t) && s.cancelled
    ensures t.cancelled
    decreases |ps|
  {
    if ps != [] { CancelledStays(Do(s, ps[0]), ps[1..], t); }
  }

  /** Shutdown: whatever happens after a cancellation, once no goroutine can step on its own
      all have exited and `out` is closed; and that point comes after boundedly many steps. */
  lemma {:induction false} CancelledPipelineShutsDown(s: State, ps: seq<Step>, t: State)
    requires Invariant(s) && s.cancelled && Runs(s, ps, t)
    requires Sized(t) && forall p :: OwnStep(p) ==> !Enabled(t, p)
    ensures ShutDown(t) && |ps| <= WorkLeft(s)
  {
    RunInvariant(s, ps, t);
    CancelledStays(s, ps, t);
    RunsAreBounded(s, ps, t);
    if !ShutDown(t) {
      var p := CancelledCanAlwaysStep(t);
    }
  }

  /** Nothing can happen any more, unless somebody cancels or a consumer that has left comes
      back to drain. */
  ghost predicate Quiet(s: State)
    requires Sized(s)
  {
    forall p: Step :: !p.Cancel? && !p.ConsumerDrains? ==> !Enabled(s, p)
  }

  /** Completion: an uncancelled pipeline that has come to rest has closed `out` exactly if
      every square has been delivered, once each; and that is so whenever the consumer, a
      plain loop or a search, has not left early with a find. */
  lemma {:induction false} QuietPipelineHasDelivered(input: seq<int>, k: nat, policy: Policy, t: State)
    requires Reachable(input, k, policy, t) && k > 0 && !t.cancelled && Sized(t) && Quiet(t)
    ensures t.outCloses == 1 <==> multiset(t.delivered) == Squares(input)
    ensures !(t.consumer.Done? && t.consumer.found) ==> t.outCloses == 1
  {
    ReachableInvariant(input, k, policy, t);
    DeliversExactlyOnce(input, k, policy, t);
    if !t.consumer.Done? {
      var p := ReceivingConsumerKeepsItGoing(t);
    }
    if t.outCloses == 0 && multiset(t.delivered) == Squares(input) {
      DeliveredLeavesNothing(t);
      var p := EmptyPipelineCanStep(t);
    }
  }

  /** When everything is delivered nothing is left to send and nobody holds a value. */
  lemma {:induction false} DeliveredLeavesNothing(s: State)
    requires Conserved(s) && multiset(s.delivered) == Squares(s.input)
    ensures s.rest == []
    ensures forall i :: 0 <= i < |s.squares| ==> !s.squares[i].Sending?
    ensures forall i :: 0 <= i < |s.outputs| ==> !s.outputs[i].Sending?
  {
    assert s.rest != [] ==> SquareOf(s.rest[0]) in Squares(s.rest);
    NothingMore(Squares(s.rest), Bag(s.squares, Held), Bag(s.outputs, Held), multiset(s.delivered), s.dropped);
    forall i | 0 <= i < |s.squares| ensures !s.squares[i].Sending? { BagAtLeast(s.squares, i, Held); }
    forall i | 0 <= i < |s.outputs| ensures !s.outputs[i].Sending? { BagAtLeast(s.outputs, i, Held); }
  }

  lemma {:induction false} NothingMore(
    a: multiset<int>, b: multiset<int>, c: multiset<int>, d: multiset<int>, e: multiset<int>)
    requires d == a + b + c + d + e
    ensures a == multiset{} && b == multiset{} && c == multiset{}
  {
    forall x ensures a[x] == 0 && b[x] == 0 && c[x] == 0 {
      assert d[x] == (a + b + c + d + e)[x];
    }
  }

  /** A pipeline without values shuts down by itself. */
  lemma {:induction false} EmptyPipelineCanStep(s: State) returns (p: Step)
    requires Ownership(s) && s.outCloses == 0 && s.rest == []
    requires forall i :: 0 <= i < |s.squares| ==> !s.squares[i].Sending?
    requires forall i :: 0 <= i < |s.outputs| ==> !s.outputs[i].Sending?
    ensures Enabled(s, p) && !p.Cancel? && !p.ConsumerDrains?
  {
    if i :| 0 <= i < |s.outputs| && s.outputs[i] != Exited {
      if s.outputs[i] == Returned {
        p := OutputLeavesGroup(i);
      } else {
        match s.squares[i] {
          case Returned => p := SquareCloses(i);
          case Exited => p := OutputSeesClose(i);
          case Receiving =>
            p := match s.producer
                 case Producing => ProducerFinished
                 case ProducerReturned => ProducerCloses
                 case ProducerExited => SquareSeesClose(i);
        }
      }
    } else {
      GroupEmpties(s);
      p := if s.closer == AwaitingGroup then GroupDone else CloseOut;
    }
  }

  // ---------- the leak ----------

  /** Nobody cancels and the consumer does not come back. */
  ghost predicate Abandoned(ps: seq<Step>) {
    forall i :: 0 <= i < |ps| ==> !ps[i].Cancel? && !ps[i].ConsumerDrains?
  }

  lemma {:induction false} AbandonedStaysQuiet(s: State, ps: seq<Step>, t: State)
    requires Runs(s, ps, t) && Abandoned(ps) && s.consumer.Done? && !s.cancelled
    ensures t.delivered == s.delivered && t.consumer == s.consumer && !t.cancelled
    decreases |ps|
  {
    if ps != [] {
      assert Abandoned(ps[1..]);
      assert !ps[0].Cancel? && !ps[0].ConsumerDrains?;
      AbandonedStaysQuiet(Do(s, ps[0]), ps[1..], t);
    }
  }

  lemma {:induction false} RunsConcatenate(s: State, ps: seq<Step>, m: State, qs: seq<Step>, t: State)
    requires Runs(s, ps, m) && Runs(m, qs, t)
    ensures Runs(s, ps + qs, t)
    decreases |ps|
  {
    if ps == [] {
      assert ps + qs == qs;
    } else {
      assert (ps + qs)[0] == ps[0] && (ps + qs)[1..] == ps[1..] + qs;
      RunsConcatenate(Do(s, ps[0]), ps[1..], m, qs, t);
    }
  }

  /** The leak: if the consumer leaves without cancelling while a value is undelivered, then
      on no continuation is `out` ever closed. */
  lemma {:induction false} LeavingWithoutCancelLeaks(
    input: seq<int>, k: nat, policy: Policy, s: State, ps: seq<Step>, t: State)
    requires Reachable(input, k, policy, s) && k > 0
    requires s.consumer.Done? && !s.cancelled && multiset(s.delivered) != Squares(input)
    requires Runs(s, ps, t) && Abandoned(ps)
    ensures t.outCloses == 0
  {
    AbandonedStaysQuiet(s, ps, t);
    var cancelledBefore, qs :| Runs(Start(input, k, cancelledBefore, policy), qs, s);
    RunsConcatenate(Start(input, k, cancelledBefore, policy), qs, s, ps, t);
    DeliversExactlyOnce(input, k, policy, t);
  }
}
