/** The cancellable fan-out/fan-in pipeline: one producer, k squaring workers, k merge
    goroutines, the goroutine that closes `out`, and a consumer, over unbuffered channels.

    A send and the matching receive are one step. Where a `select` has several ready
    cases, all of them are enabled steps. Closing a channel is a count, so that a second
    close or a send after a close can be expressed, and shown never to happen. */
module Pipeline {
  import opened Sums
  import opened Int64

  /** A goroutine that receives in one `select` and sends in another. `Returned` has left
      its loop but not run its deferred call (a close, or `wg.Done`) yet. */
  datatype Stage = Receiving | Sending(v: int) | Returned | Exited

  datatype Producer = Producing | ProducerReturned | ProducerExited

  datatype Closer = AwaitingGroup | AboutToClose | CloserExited

  /** What the consumer runs: `FindFirst`, `WrongFindFirstLeak`, or a plain range loop. */
  datatype Policy = FindFirst(target: int) | LeaveAt(target: int) | DrainAll

  datatype Consumer = AwaitingValue | Holding(got: int) | Done(value: int, found: bool)

  datatype State = State(
    input: seq<int>,
    cancelled: bool,
    rest: seq<int>, producer: Producer, srcCloses: nat,
    squares: seq<Stage>, midCloses: seq<nat>,
    outputs: seq<Stage>, group: int, closer: Closer, outCloses: nat,
    policy: Policy, consumer: Consumer,
    delivered: seq<int>, dropped: multiset<int>)

  datatype Step =
    | Cancel
    | ProducerCancelled | ProducerFinished | ProducerCloses
    | Feed(i: nat)
    | SquareCancelled(i: nat) | SquareSeesClose(i: nat) | SquareCloses(i: nat)
    | PassOn(i: nat)
    | OutputCancelled(i: nat) | OutputSeesClose(i: nat) | OutputLeavesGroup(i: nat)
    | Deliver(i: nat)
    | GroupDone | CloseOut
    | ConsumerSeesClose | ConsumerChecks | ConsumerDrains

  /** `Produce` called with an already cancelled context starts no goroutine. */
  function Start(input: seq<int>, k: nat, cancelledBefore: bool, policy: Policy): State {
    State(input, cancelledBefore,
          input, if cancelledBefore then ProducerExited else Producing, if cancelledBefore then 1 else 0,
          seq(k, _ => Receiving), seq(k, _ => 0),
          seq(k, _ => Receiving), k, AwaitingGroup, 0,
          policy, AwaitingValue, [], multiset{})
  }

  ghost predicate Sized(s: State) {
    |s.squares| == |s.outputs| == |s.midCloses|
  }

  ghost predicate Enabled(s: State, p: Step)
    requires Sized(s)
  {
    match p
    case Cancel => !s.cancelled
    case ProducerCancelled => s.producer == Producing && s.rest != [] && s.cancelled
    case ProducerFinished => s.producer == Producing && s.rest == []
    case ProducerCloses => s.producer == ProducerReturned
    case Feed(i) => i < |s.squares| && s.producer == Producing && s.rest != [] && s.squares[i] == Receiving
    case SquareCancelled(i) => i < |s.squares| && (s.squares[i] == Receiving || s.squares[i].Sending?) && s.cancelled
    case SquareSeesClose(i) => i < |s.squares| && s.squares[i] == Receiving && s.srcCloses > 0
    case SquareCloses(i) => i < |s.squares| && s.squares[i] == Returned
    case PassOn(i) => i < |s.squares| && s.squares[i].Sending? && s.outputs[i] == Receiving
    case OutputCancelled(i) => i < |s.outputs| && (s.outputs[i] == Receiving || s.outputs[i].Sending?) && s.cancelled
    case OutputSeesClose(i) => i < |s.outputs| && s.outputs[i] == Receiving && s.midCloses[i] > 0
    case OutputLeavesGroup(i) => i < |s.outputs| && s.outputs[i] == Returned
    case Deliver(i) => i < |s.outputs| && s.outputs[i].Sending? && s.consumer == AwaitingValue
    case GroupDone => s.closer == AwaitingGroup && s.group == 0
    case CloseOut => s.closer == AboutToClose
    case ConsumerSeesClose => s.consumer == AwaitingValue && s.outCloses > 0
    case ConsumerChecks => s.consumer.Holding?
    case ConsumerDrains => s.consumer.Done? && s.policy != DrainAll
  }

  /** A product of 64-bit integers wraps around. */
  function SquareOf(x: int): int {
    Wrap(x * x)
  }

  function Held(g: Stage): multiset<int> {
    if g.Sending? then multiset{g.v} else multiset{}
  }

  /** What the consumer does on receiving `v`. */
  function Receive(policy: Policy, v: int): Consumer {
    match policy
    case FindFirst(_) => Holding(v)
    case LeaveAt(target) => if v == target then Done(v, true) else AwaitingValue
    case DrainAll => AwaitingValue
  }

  function Do(s: State, p: Step): State
    requires Sized(s) && Enabled(s, p)
  {
    match p
    case Cancel => s.(cancelled := true)
    case ProducerCancelled => s.(producer := ProducerReturned)
    case ProducerFinished => s.(producer := ProducerReturned)
    case ProducerCloses => s.(producer := ProducerExited, srcCloses := s.srcCloses + 1)
    case Feed(i) => s.(rest := s.rest[1..], squares := s.squares[i := Sending(SquareOf(s.rest[0]))])
    case SquareCancelled(i) => s.(squares := s.squares[i := Returned], dropped := s.dropped + Held(s.squares[i]))
    case SquareSeesClose(i) => s.(squares := s.squares[i := Returned])
    case SquareCloses(i) => s.(squares := s.squares[i := Exited], midCloses := s.midCloses[i := s.midCloses[i] + 1])
    case PassOn(i) => s.(squares := s.squares[i := Receiving], outputs := s.outputs[i := s.squares[i]])
    case OutputCancelled(i) => s.(outputs := s.outputs[i := Returned], dropped := s.dropped + Held(s.outputs[i]))
    case OutputSeesClose(i) => s.(outputs := s.outputs[i := Returned])
    case OutputLeavesGroup(i) => s.(outputs := s.outputs[i := Exited], group := s.group - 1)
    case Deliver(i) =>
      s.(outputs := s.outputs[i := Receiving], delivered := s.delivered + [s.outputs[i].v],
         consumer := Receive(s.policy, s.outputs[i].v))
    case GroupDone => s.(closer := AboutToClose)
    case CloseOut => s.(closer := CloserExited, outCloses := s.outCloses + 1)
    case ConsumerSeesClose => s.(consumer := Done(0, false))
    case ConsumerChecks =>
      if s.cancelled || !s.policy.FindFirst? then s.(consumer := Done(0, false))
      else if s.consumer.got == s.policy.target then s.(cancelled := true, consumer := Done(s.consumer.got, true))
      else s.(consumer := AwaitingValue)
    case ConsumerDrains => s.(policy := DrainAll, consumer := AwaitingValue)
  }

  /** What Go would panic on: a send on a closed channel, a second close, or a WaitGroup
      counter below zero. */
  ghost predicate Panics(s: State)
    requires Sized(s)
  {
    || (s.producer == Producing && s.rest != [] && s.srcCloses > 0)
    || (s.producer == ProducerReturned && s.srcCloses > 0)
    || (exists i :: 0 <= i < |s.squares| && (s.squares[i].Sending? || s.squares[i] == Returned) && s.midCloses[i] > 0)
    || (exists i :: 0 <= i < |s.outputs| && s.outputs[i].Sending? && s.outCloses > 0)
    || (exists i :: 0 <= i < |s.outputs| && s.outputs[i] == Returned && s.group <= 0)
    || (s.closer == AboutToClose && s.outCloses > 0)
  }

  ghost predicate Runs(s: State, ps: seq<Step>, t: State)
    decreases |ps|
  {
    Sized(s) && if ps == [] then t == s else Enabled(s, ps[0]) && Runs(Do(s, ps[0]), ps[1..], t)
  }

  // ---------- invariants ----------

  function Squares(xs: seq<int>): multiset<int> {
    if xs == [] then multiset{} else multiset{SquareOf(xs[0])} + Squares(xs[1..])
  }

  ghost function StillIn(g: Stage): int {
    if g == Exited then 0 else 1
  }

  /** Channel ownership: each channel is closed by the exit of its one owner. */
  ghost predicate Ownership(s: State) {
    && Sized(s)
    && s.srcCloses == (if s.producer == ProducerExited then 1 else 0)
    && (forall i :: 0 <= i < |s.squares| ==> s.midCloses[i] == if s.squares[i] == Exited then 1 else 0)
    && GroupCounts(s)
  }

  /** The WaitGroup counts the merge goroutines that are still in. */
  ghost predicate GroupCounts(s: State) {
    && s.group == Sum(s.outputs, StillIn)
    && s.outCloses == (if s.closer == CloserExited then 1 else 0)
    && (s.closer != AwaitingGroup ==> s.group == 0)
  }

  /** Every input value is still to be sent, held by a goroutine, delivered or dropped. */
  ghost predicate Conserved(s: State) {
    Squares(s.input) ==
      Squares(s.rest) + Bag(s.squares, Held) + Bag(s.outputs, Held) + multiset(s.delivered) + s.dropped
  }

  /** Without cancellation a goroutine leaves only after its upstream has closed. */
  ghost predicate Orderly(s: State) {
    Sized(s) && (!s.cancelled ==>
      && s.dropped == multiset{}
      && (s.producer != Producing ==> s.rest == [])
      && (forall i :: 0 <= i < |s.squares| && Left(s.squares[i]) ==> s.producer == ProducerExited)
      && (forall i :: 0 <= i < |s.outputs| && Left(s.outputs[i]) ==> s.squares[i] == Exited))
  }

  predicate Left(g: Stage) {
    g == Returned || g == Exited
  }

  /** What the consumer's loop has established so far. */
  ghost predicate Searching(s: State) {
    Knows(s.policy, s.cancelled, s.consumer, s.delivered, s.outCloses)
  }

  ghost predicate Knows(policy: Policy, cancelled: bool, consumer: Consumer, delivered: seq<int>, outCloses: nat) {
    && (consumer.Done? && consumer.found ==>
          policy != DrainAll && consumer.value == policy.target && consumer.value in delivered)
    && (policy.FindFirst? && consumer.Done? && consumer.found ==> cancelled)
    && (consumer.Holding? ==> policy.FindFirst? && consumer.got in delivered)
    && (consumer.Done? && !consumer.found && !cancelled ==> outCloses > 0)
    && (!policy.DrainAll? && !cancelled ==>
          match consumer
          case AwaitingValue => policy.target !in delivered
          case Holding(v) => delivered != [] && v == delivered[|delivered| - 1]
              && policy.target !in delivered[..|delivered| - 1]
          case Done(_, found) => found || policy.target !in delivered)
  }

  ghost predicate Invariant(s: State) {
    Ownership(s) && Conserved(s) && Orderly(s) && Searching(s)
  }
}
