# Go concurrency lessons, verified

The repository is a series of Go lessons. This project models the ones that contain a protocol or an
algorithm of their own, and proves what they promise for every input and every interleaving.

| files | what they model |
|---|---|
| `Reachability`, `TriColour`, `TriColourDrain`, `TriColourSafety`, `TriColourModes`, `TriColourScenarios`, `TriColourMachine` | the tri-colour collector of adv027: five write barriers, a mutator stack without barrier, a grey queue |
| `Pipeline`, `PipelineProofs`, `PipelineResults` | the cancellable fan-out/fan-in pipeline of adv020 over unbuffered channels |
| `CondQueue` | the unbounded queue of adv023 with its mutex and condition variable |
| `Semaphore`, `PeakTracking`, `TokenBucket` | the weighted semaphore, the compare-and-swap maximum and the token bucket of adv022 |
| `ErrGroup`, `ErrGroupResults` | the error group of adv021 |
| `OnceDo` | the double-checked `Once` of adv014 |
| `WorkStealing` | the run queues and the hot-task latency scenario of adv002 |
| `Text`, `StackDump` | the goroutine dump parser of adv024 |
| `LinkedList` | the generic linked list of day054 |
| `Sums`, `Int64`, `Wrappers` | sums and bags over the threads of a system, 64-bit wrap-around, optional values |

Two forms are used. Objects whose methods update their fields are classes (`Machine`, `UnboundedQueue`,
`WeightedSemaphore`, `TokenBucketLimiter`, `Proc`, `LinkedList`); each method is proved equal to a function on
the object's abstract value, and the theorems are about those functions. Goroutines that interact are a step
relation: a state, the steps a scheduler may choose among, and a predicate `Runs` for every finite schedule. A
critical section, an atomic operation or a rendezvous on a channel is one step. Progress is stated as "some step
is enabled", together with a measure that bounds every run, so that no fairness is assumed. What a run has done is
read off its schedule (which bodies returned which errors, what each call of `Pop` answered, which tasks were
submitted), not off a record the model keeps for itself.

Every lemma switches Dafny's automatic induction off: each induction is written out.

## How the main results fit together

**Collector.** `Closure` is defined by paths; `Pending` is what draining will still reach from grey objects
through white ones, and `Marked` is that together with the black objects. Draining computes `Marked` whatever
the dequeue order. With a deletion barrier `Marked` only grows; with an insertion barrier no black object ever
points to a white one. The hybrid barrier needs both: the second until the stack scan and the first afterwards.
`Held` is what the mutator can name: whatever it reaches from globals, the stack, or an object allocated in this
cycle. `SafeModes` closes the question of which of the five barriers lose objects.

**Where the code does not do what it seems to promise.** In each case the code is kept as it is, a witness is
given, and the exact condition is proved.

- `startMark` (adv027_gc_tricolor/main.go:159-167) leaves `stackScanned` alone, so a hybrid cycle begun with a
  stale flag can lose a live object (`SafeModes`, `GreyStackLoses`).
- The loop test of `acquire` (adv022_rate_limiting/main.go:50-60) adds in 64 bits and admits any request whose sum wraps
  (`TestIsExactWithoutWrap`, `HugeRequestIsAdmitted`). Over whole runs the counter stays right if and only if no weight
  is negative and the largest fits in 64 bits on top of a full semaphore (`CounterIsHeldWeight`).
- The token bucket forgets the debt of a caller it puts to sleep (adv022_rate_limiting/main.go:114-120). Its comment at line
  91 claims the principle of `x/time/rate`, but a sequential caller can get twice the rate
  (`AdmittedWithinTwiceTheRate`, `TwiceTheRateIsReached`), and the only buckets that hold every caller to the rate are
  those that hold nothing (`RateIsKeptIff`). The 500 ms spacing announced at line 225 does not
  hold: the fifth request does not wait at all (`FifthRequestDoesNotWait`).
- A clock that leaves the bucket's time and comes back makes tokens out of no time, exactly unless the bucket is full
  (`ClockGoingBackGrantsTwice`), and only a bucket that holds nothing needs no forward clock (`ClockConditionIsNeeded`).
- A limited error group can block itself: bodies that hold all the tokens may all be waiting in `Go` for another
  (adv021_errgroup/main.go:50-57). `NeverBlocksIff` says from the limit, the number of tasks and the number of
  bodies that call `Go` when this can happen.
- `parseStacks` (adv024_goroutine_leak/main.go:76-77) compares the place of `]` relative to `[` with the place of
  `[` in the line, so the state is lost when the text before the bracket is longer than the state
  (`StateIsReadIff`, `LongHeaderLosesState`); and cutting a frame at its first parenthesis (lines 89-94) cuts the name
  of a method with a pointer receiver (`FunctionIsReadIff`, `PointerReceiverIsCut`).
- A pipeline with input but no worker closes `out` without having delivered anything (`NoWorkersDeliverNothing`,
  `NoWorkersClose`); `DeliversExactlyOnce` says that this is the only exception.

## Model

| member | source | states |
|---|---|---|
| `TriColourSafety.HybridNeverLoses` | adv027_gc_tricolor/main.go:109-214 | hybrid barrier, flag cleared: for every honest interleaving of heap stores, stack stores, allocations and marking steps with a stack scan anywhere in it, no reachable object ends white and nothing stays grey |
| `TriColourSafety.InsertRescanNeverLoses` | adv027_gc_tricolor/main.go:131-214 | insertion with rescan: the same for every schedule at all, even of a mutator that conjures references, scanned before or not; one more stack scan is counted |
| `TriColourSafety.OldGarbageIsCollected` | adv027_gc_tricolor/main.go:131-214 | in all five modes an object unreachable when marking starts and not allocated since ends white: floating garbage never predates the cycle |
| `TriColourSafety.SnapshotIsExact` | adv027_gc_tricolor/main.go:131-214 | deletion or hybrid barrier, stack scanned before the mutator moves: the survivors are exactly what was reachable at the start and what was allocated since |
| `TriColourSafety.InsertLosesByStackOnly` | adv027_gc_tricolor/main.go:131-214 | insertion without rescan: on every schedule an object is lost if and only if some stack slot holds a white object in the end |
| `TriColourSafety.MarkedFirstNeverLoses` | adv027_gc_tricolor/main.go:277-295 | if marking with a stack scan ends before the mutator's first step, then in every mode, also none, every honest schedule after that loses nothing |
| `TriColourModes.SafeModes` | adv027_gc_tricolor/main.go:55-82 | a mode never loses a live object on any honest schedule with a stack scan if and only if it is insertion with rescan, or hybrid with the scan flag cleared at the start |
| `TriColourModes.GreyStackLoses` | adv027_gc_tricolor/main.go:320-337 | scenario S3: with no barrier, with deletion only, or with hybrid and a stale flag, an object moved off the grey stack ends white though reachable |
| `TriColourModes.BlackStackLoses` | adv027_gc_tricolor/main.go:339-358 | scenario S4: with no barrier or insertion only, an object moved onto the scanned stack ends white though reachable |
| `TriColourScenarios.HeapHazardVerdicts` | adv027_gc_tricolor/main.go:297-318 | scenario S2 in all five modes: lost if and only if there is no barrier |
| `TriColourScenarios.GreyStackVerdicts` | adv027_gc_tricolor/main.go:320-337 | scenario S3 in all five modes: lost if and only if none or deletion |
| `TriColourScenarios.BlackStackVerdicts` | adv027_gc_tricolor/main.go:339-358 | scenario S4 in all five modes: lost if and only if none or insertion |
| `TriColourScenarios.ScheduleInAnyMode` | adv027_gc_tricolor/main.go:131-153 | a schedule of one mode is a schedule of every mode and leaves the same graph |
| `TriColourSafety.ApplyKeepsStrong` | adv027_gc_tricolor/main.go:131-190 | no operation makes a black object point to a white one while the stored value is shaded |
| `TriColourSafety.ApplyMarksMore` | adv027_gc_tricolor/main.go:131-190 | with a deletion barrier no operation shrinks what will have been marked in the end |
| `TriColourSafety.ApplyKeepsHybrid` | adv027_gc_tricolor/main.go:131-190 | the two-phase invariant of the hybrid barrier is kept by every operation |
| `TriColour.ApplyCollecting` | adv027_gc_tricolor/main.go:109-190 | every operation keeps the queue equal to the set of grey objects without duplicates, and objects allocated during marking black |
| `TriColour.StepEffect` | adv027_gc_tricolor/main.go:178-190 | one marking step turns the scanned object black and exactly its white children grey |
| `TriColour.BarrierEffect` | adv027_gc_tricolor/main.go:131-147 | for every mode, what the barrier does and does not do: an object changes colour exactly if it is white and one of the references this mode shades; one call for each of these that is not nil; the newly grey are queued, the overwritten one first |
| `TriColour.StoreHeapEffect` | adv027_gc_tricolor/main.go:131-149 | a heap store changes the one slot and otherwise only that; in mode none nothing but the slot |
| `TriColour.UnbarrieredEffect` | adv027_gc_tricolor/main.go:109-116 | allocation and stack stores shade nothing; a new object is black exactly while collecting |
| `TriColour.StartMarkCalls` | adv027_gc_tricolor/main.go:159-167 | each global that is not nil is shaded once; the queue and the scan flag are kept |
| `TriColour.ScanStackCalls` | adv027_gc_tricolor/main.go:169-175 | each stack slot that is not nil is shaded once, and exactly the white objects named turn grey |
| `TriColour.StepCalls` | adv027_gc_tricolor/main.go:178-190 | each slot that is not nil is shaded once, from any state |
| `TriColourDrain.AnyOrderDrainsTheClosure` | adv027_gc_tricolor/main.go:178-203 | any dequeue order that empties the queue blackens exactly the greys and what they reach through whites, and scans each of those once |
| `TriColourDrain.DrainAllIsClosure` | adv027_gc_tricolor/main.go:200-203 | `drainAll` terminates with exactly that result |
| `TriColourDrain.DequeueOrderIsIrrelevant` | adv027_gc_tricolor/main.go:178-203 | colours and number of scans are those of `drainAll` in every dequeue order |
| `TriColourDrain.DrainInPieces` | adv027_gc_tricolor/main.go:192-203 | any `drainN` followed by `drainAll` gives the very state of `drainAll` |
| `TriColourDrain.DrainNScans` | adv027_gc_tricolor/main.go:192-198 | `drainN` scans `limit` objects, or fewer and the queue is empty |
| `TriColourDrain.StepKeepsMarked` | adv027_gc_tricolor/main.go:178-190 | scanning an object does not change what will have been marked in the end |
| `TriColourDrain.StepShrinksNonBlack` | adv027_gc_tricolor/main.go:178-190 | each step blackens exactly one object that was not black: the reason draining terminates |
| `TriColourDrain.StepFits` | adv027_gc_tricolor/main.go:178-190 | on any queue, whatever its entries, a step leaves fewer white objects and queue entries together |
| `TriColourDrain.DrainAllEmpties` | adv027_gc_tricolor/main.go:200-203 | draining ends with an empty queue from every state, as `startMark` does not empty it |
| `TriColourMachine.Machine.Alloc` | adv027_gc_tricolor/main.go:109-116 | a new object, black while collecting, with one empty slot; everything else as before |
| `TriColourMachine.Machine.Shade` | adv027_gc_tricolor/main.go:118-128 | counts the call and queues a white object as grey |
| `TriColourMachine.Machine.WriteBarrier` | adv027_gc_tricolor/main.go:133-147 | the barrier of each of the five modes |
| `TriColourMachine.Machine.StoreHeap` | adv027_gc_tricolor/main.go:131-149 | barrier on the old and new value, then the slot write |
| `TriColourMachine.Machine.StoreStack` | adv027_gc_tricolor/main.go:151-153 | a stack write shades nothing |
| `TriColourMachine.Machine.LoadHeap` | adv027_gc_tricolor/main.go:155-157 | a read returns the slot and changes nothing |
| `TriColourMachine.Machine.StartMark` | adv027_gc_tricolor/main.go:159-167 | all objects white, then the globals shaded in order; queue and scan flag not reset |
| `TriColourMachine.Machine.ScanStack` | adv027_gc_tricolor/main.go:169-175 | the stack shaded in order, flag set, scan counted |
| `TriColourMachine.Machine.Step` | adv027_gc_tricolor/main.go:178-190 | the front of the queue is scanned; false exactly on an empty queue |
| `TriColourMachine.Machine.DrainN` | adv027_gc_tricolor/main.go:192-198 | from any state, also with a queue left over from an unfinished cycle, the loop does `limit` steps or stops at an empty queue |
| `TriColourMachine.Machine.DrainAll` | adv027_gc_tricolor/main.go:200-203 | from any state the loop terminates, in the state the drain theorems describe |
| `TriColourMachine.Machine.FinishMark` | adv027_gc_tricolor/main.go:208-214 | from any state, rescan in the insertion-with-rescan mode, then drain |
| `TriColourMachine.Machine.Walk` | adv027_gc_tricolor/main.go:224-236 | the recursion with the shared seen set terminates on every finite graph, adds only what its argument reaches, and leaves no new object with an unseen child |
| `TriColourMachine.Machine.Reachable` | adv027_gc_tricolor/main.go:224-243 | returns exactly the objects with a path from globals or stack |
| `TriColourMachine.Machine.Verify` | adv027_gc_tricolor/main.go:245-258 | counts exactly the reachable white and the unreachable non-white objects |
| `PipelineProofs.NeverPanics` | adv020_pipeline_shutdown/main.go:15-103 | on every schedule, for any input and any number of workers, each channel is closed at most once, after its last sender left; no send on a closed channel, no negative WaitGroup |
| `PipelineProofs.DeliversExactlyOnce` | adv020_pipeline_shutdown/main.go:15-103 | delivered values are a sub-multiset of the squares; and when `out` is closed without cancellation they are all of them if and only if there is a worker or no input |
| `PipelineResults.DeliversTheSquares` | adv020_pipeline_shutdown/main.go:15-103 | if the squares fit in 64 bits, then with a worker and without cancellation the delivered values are, when `out` closes, exactly the products x * x as a multiset |
| `PipelineResults.DeliversOnlySquares` | adv020_pipeline_shutdown/main.go:37-61 | on every schedule each delivered value is a 64-bit number congruent to x * x modulo 2^64 for some input x |
| `PipelineResults.OneWorkerKeepsOrder` | adv020_pipeline_shutdown/main.go:15-103 | a single worker delivers the squares of a prefix of the input, in order, cancelled or not |
| `PipelineResults.CancelledStartDeliversNothing` | adv020_pipeline_shutdown/main.go:17-20 | a context cancelled before the start starts no producer, so nothing is ever delivered |
| `Int64.WrapRepresents` | adv020_pipeline_shutdown/main.go:55 | 64-bit wrap-around gives the one number in range that is congruent modulo 2^64 |
| `PipelineProofs.StepInvariant` | adv020_pipeline_shutdown/main.go:15-138 | every step conserves remaining, held, delivered and dropped values and keeps the close discipline |
| `PipelineProofs.NoWorkersDeliverNothing` | adv020_pipeline_shutdown/main.go:67-103 | with no worker nothing is delivered on any schedule |
| `PipelineProofs.NoWorkersClose` | adv020_pipeline_shutdown/main.go:93-102 | and yet `out` closes without cancellation |
| `PipelineResults.FindFirstIsRight` | adv020_pipeline_shutdown/main.go:108-138 | a reported target is the 64-bit square of some input, and `FindFirst` has then cancelled; a failure without cancellation means it is of none |
| `PipelineResults.CancelledSearchFails` | adv020_pipeline_shutdown/main.go:108-117 | after a cancellation `FindFirst` reports no target, whatever it receives |
| `PipelineProofs.CancelledCanAlwaysStep` | adv020_pipeline_shutdown/main.go:15-103 | after cancellation, with no consumer at all, some goroutine can step until all have exited and `out` is closed |
| `PipelineProofs.ReceivingConsumerKeepsItGoing` | adv020_pipeline_shutdown/main.go:15-124 | without cancellation a receiving consumer is enough for progress |
| `PipelineProofs.RunsAreBounded` | adv020_pipeline_shutdown/main.go:15-138 | no schedule is longer than the work left at its start |
| `PipelineProofs.CancelledPipelineShutsDown` | adv020_pipeline_shutdown/main.go:15-103 | so every cancelled run ends, within that bound, with every goroutine gone and `out` closed |
| `PipelineProofs.QuietPipelineHasDelivered` | adv020_pipeline_shutdown/main.go:15-138 | an uncancelled pipeline at rest has closed `out` if and only if every square was delivered once; that is so for every consumer, plain loop or search, that did not leave with a find |
| `PipelineProofs.LeavingWithoutCancelLeaks` | adv020_pipeline_shutdown/main.go:130-138 | if the consumer leaves without cancelling while a value is undelivered, `out` is never closed on any continuation |
| `CondQueue.NoLostWakeup` | adv023_backpressure/main.go:34-67 | while anyone sleeps in `Wait`, every buffered value has a woken consumer of its own; after `Close` nobody sleeps |
| `CondQueue.WaitersMakeProgress` | adv023_backpressure/main.go:41-54 | beside a value, or after a close, some consumer inside `Pop` is awake and will not sleep again |
| `CondQueue.StepWaiters` | adv023_backpressure/main.go:34-67 | a consumer begins to wait only by its own call and stops only when it is answered |
| `CondQueue.WakesOneOrAll` | adv023_backpressure/main.go:34-67 | a push wakes exactly one sleeper if there is any, a close every one |
| `CondQueue.QuietQueueHasAnswered` | adv023_backpressure/main.go:41-67 | when no woken consumer is left, every waiter has been answered, unless the queue is open and empty |
| `CondQueue.FirstInFirstOut` | adv023_backpressure/main.go:34-54 | for every schedule, what the calls of `Pop` answered, followed by the buffer, is what was pushed, in lock order |
| `CondQueue.NothingOnlyAtTheEnd` | adv023_backpressure/main.go:41-54 | `Pop` answers false exactly when closed and everything pushed has been answered |
| `CondQueue.ClosedStaysAwake` | adv023_backpressure/main.go:62-67 | after `Close` no consumer is ever put to sleep again |
| `CondQueue.UnboundedQueue.PushLocked` | adv023_backpressure/main.go:34-39 | appends and signals one sleeper |
| `CondQueue.UnboundedQueue.PopLocked` | adv023_backpressure/main.go:41-54 | one pass through the wait loop: sleeps, the head of the buffer, or zero and false |
| `CondQueue.UnboundedQueue.CloseLocked` | adv023_backpressure/main.go:62-67 | closes and wakes all sleepers |
| `Semaphore.CounterIsHeldWeight` | adv022_rate_limiting/main.go:50-67 | for weights from a range that holds 1, every balanced run of any number of threads keeps the counter equal to the weight held, within 0 and the maximum, and lets sleep only what does not fit, if and only if no weight is negative and the largest fits in 64 bits on top of a full semaphore |
| `Semaphore.SleeperAwaitsHolder` | adv022_rate_limiting/main.go:50-67 | a sleeper that could ever be admitted sleeps beside a holder whose release will wake it |
| `Semaphore.ReleaseWakesAll` | adv022_rate_limiting/main.go:62-67 | a release wakes every sleeper, each with its own request, and changes nobody else |
| `Semaphore.EveryRequestIsMet` | adv022_rate_limiting/main.go:50-67 | once nobody can give back or try again, every request for at most the maximum has been met |
| `Semaphore.RunsAreBounded` | adv022_rate_limiting/main.go:50-67 | that takes boundedly many steps unless new requests come in |
| `Semaphore.TestIsExactWithoutWrap` | adv022_rate_limiting/main.go:53-55 | the loop test means "does not fit" if and only if the 64-bit sum does not wrap; if it wraps the request is admitted |
| `Semaphore.HugeRequestIsAdmitted` | adv022_rate_limiting/main.go:50-60 | every weight that does not fit in 64 bits on top of a full semaphore is admitted to one, and the counter turns negative |
| `Semaphore.WeightedSemaphore.AcquireLocked` | adv022_rate_limiting/main.go:50-60 | one pass through the loop of `acquire` |
| `Semaphore.WeightedSemaphore.ReleaseLocked` | adv022_rate_limiting/main.go:62-67 | gives the weight back and wakes every sleeper |
| `PeakTracking.ResultIsThePeak` | adv022_rate_limiting/main.go:132-139 | `active` is the number of jobs that have counted and not uncounted themselves and never above `limit`; when all jobs have finished, each has counted itself once and the compare-and-swap maximum is the largest value `active` had in any state of the run |
| `PeakTracking.SomeJobCanStep` | adv022_rate_limiting/main.go:201-219 | until all jobs have finished some step is enabled |
| `PeakTracking.RunsAreBounded` | adv022_rate_limiting/main.go:132-139 | the compare-and-swap loop terminates in every interleaving |
| `PeakTracking.CompletedRunReturnsPeak` | adv022_rate_limiting/main.go:201-219 | end to end, with a positive limit every job runs once and `runWithWeightedSemaphore` returns the largest value `active` had, at most `limit`, within a bounded number of steps |
| `TokenBucket.StaysInBounds` | adv022_rate_limiting/main.go:92-121 | the bucket stays within 0 and `burst` exactly when a request does not put back more than fits, hence for every non-negative request |
| `TokenBucket.GrantsWithinRate` | adv022_rate_limiting/main.go:92-121 | over any run with a forward clock, tokens granted at once are covered by initial tokens plus rate times elapsed time |
| `TokenBucket.ClockGoingBackGrantsTwice` | adv022_rate_limiting/main.go:96-106 | for every bucket and every time: two empty requests at that time and at the bucket's own make tokens out of nothing, if and only if the times differ and the bucket is not full |
| `TokenBucket.ClockConditionIsNeeded` | adv022_rate_limiting/main.go:92-121 | the bound holds for every sequence of times if and only if the bucket holds nothing |
| `TokenBucket.AdmittedWithinTwiceTheRate` | adv022_rate_limiting/main.go:123-129 | everything a sequential caller of `wait` is admitted by the end of its last sleep is at most initial tokens plus twice rate times elapsed |
| `TokenBucket.RateIsKeptIff` | adv022_rate_limiting/main.go:114-129 | a bucket holds every sequential caller to once the rate if and only if its burst is 0, even if no caller asks for more than the burst |
| `TokenBucket.WaitKeepsLedger` | adv022_rate_limiting/main.go:123-129 | an exact account of every token admitted, left, cut off, refilled, and refilled during a sleep |
| `TokenBucket.TwiceTheRateIsReached` | adv022_rate_limiting/main.go:114-129 | the factor two is attained for every length of run |
| `TokenBucket.ThreeAtOnce` | adv022_rate_limiting/main.go:223-239 | the demo's first three requests do not wait |
| `TokenBucket.FifthRequestDoesNotWait` | adv022_rate_limiting/main.go:223-239 | the fourth waits half a second and the fifth not at all |
| `TokenBucket.TokenBucketLimiter.Reserve` | adv022_rate_limiting/main.go:92-121 | refill, clip, grant or wait |
| `ErrGroupResults.RunningWithinLimit` | adv021_errgroup/main.go:33-77 | with a limit the bodies that have begun and not returned on the schedule, those submitted by other bodies included, are at most the tokens held, which are at most the limit |
| `ErrGroupResults.StartsAtMostOnce` | adv021_errgroup/main.go:50-77 | no body begins twice on any schedule; a submission is dropped only in a limited group whose context is done, and then never begins; a finished one began once |
| `ErrGroupResults.WaitReturnsFirstError` | adv021_errgroup/main.go:50-85 | when `Wait` returns everything submitted before it or by a body during it is over, every token is back and every error a body returned was offered; the answer is nil if and only if no body returned an error, else the error of the body first to offer; the context is done by the parent if the parent cancelled on the schedule, and else with the answer as its cause |
| `ErrGroup.AddDuringWaitIsLegal` | adv021_errgroup/main.go:59-60 | an `Add` during `Wait` finds the WaitGroup's counter above zero and `Wait` not returned |
| `ErrGroup.SomeTaskCanStep` | adv021_errgroup/main.go:50-85 | while a task is not over the group can move by itself, if and only if it is not the case that every token is held by a body waiting in `Go` for another and the context is not done |
| `ErrGroup.SelfBlockedForGood` | adv021_errgroup/main.go:50-85 | a group that has blocked itself stays so and `Wait` does not return unless the parent cancels |
| `ErrGroup.NeverBlocksIff` | adv021_errgroup/main.go:50-77 | n tasks of which c have bodies that call `Go` never block themselves if and only if there is no limit, or c is below it, or n is below twice the limit |
| `ErrGroup.RunsAreBounded` | adv021_errgroup/main.go:50-85 | if every body returns, every run is bounded |
| `ErrGroup.QuietGroupHasReturned` | adv021_errgroup/main.go:79-85 | a run in which nothing but a cancellation by the parent can still happen has returned from `Wait`, if and only if the group has not blocked itself |
| `OnceDo.RunsExactlyOnce` | adv014_waitgroup_once/main.go:136-148 | in every interleaving of n callers `f` is entered and left exactly once, no call returns before it has been left, and the counters are the fast and the slow calls and add up to n |
| `OnceDo.WarmCallsAreFast` | adv014_waitgroup_once/main.go:152-166 | after a completed first call none of n further calls enters `f` and all count as fast |
| `OnceDo.WarmIsAfterOneCall` | adv014_waitgroup_once/main.go:152-156 | the warm state is the one a single call leaves behind |
| `OnceDo.SomeThreadCanStep` | adv014_waitgroup_once/main.go:136-148 | no deadlock |
| `WorkStealing.WorkIsConserved` | adv002_work_stealing/main.go:66-110 | on every run, over any sequence of submissions, runs and steals among any number of processors, the tasks queued and executed are those the schedule submits |
| `WorkStealing.StealSplits` | adv002_work_stealing/main.go:100-110 | a steal takes the head half, rounded up; stolen followed by rest is the old queue; the slot is not stolen |
| `WorkStealing.QueuesKeepOrder` | adv002_work_stealing/main.go:66-110 | in FIFO mode every queue stays in submission order on every run, through any steals |
| `WorkStealing.NewestRunsNext` | adv002_work_stealing/main.go:66-95 | in runnext mode the task just submitted is popped next and the one it displaced is last in the queue |
| `WorkStealing.NewestRunsLast` | adv002_work_stealing/main.go:66-80 | in FIFO mode the task just submitted is last in the queue |
| `WorkStealing.Proc.Put` | adv002_work_stealing/main.go:66-79 | tail of the queue, or the slot with the old occupant pushed to the tail |
| `WorkStealing.Proc.Pop` | adv002_work_stealing/main.go:83-95 | the slot first, then the head |
| `WorkStealing.Proc.GiveHalf` | adv002_work_stealing/main.go:100-110 | the victim's side of `stealHalf` |
| `WorkStealing.LaterTick` | adv002_work_stealing/main.go:163-208 | P1 always has local work left and so cannot steal the hot task first |
| `WorkStealing.FirstSteal` | adv002_work_stealing/main.go:163-208 | what the first steal finds, for every number of seeds |
| `WorkStealing.RunOrSteal` | adv002_work_stealing/main.go:176-207 | P1's part of a tick |
| `WorkStealing.TickRuns` | adv002_work_stealing/main.go:159-210 | in every tick the hot task runs if and only if it is its tick, and only the first tick steals |
| `WorkStealing.RunHotLatency` | adv002_work_stealing/main.go:142-213 | with n seeds and a large enough bound the hot task runs at tick floor(n/2) in FIFO mode and at tick 1 in runnext mode, and ceil(n/2) or floor(n/2) tasks are stolen; -1 without seeds or time |
| `StackDump.ParseStacks` | adv024_goroutine_leak/main.go:57-99 | the index loop computes the records of the text's blocks |
| `StackDump.OneRecordPerHeader` | adv024_goroutine_leak/main.go:57-68 | one record per line starting with the header word, in order, each of that line's block |
| `StackDump.HeadersAreAll` | adv024_goroutine_leak/main.go:60-63 | the header lines are exactly those starting with the word, in ascending order |
| `StackDump.BlocksAreDisjoint` | adv024_goroutine_leak/main.go:64-68 | a block ends no later than the next header begins |
| `StackDump.RawParsesToItself` | adv024_goroutine_leak/main.go:69-97 | parsing a record's raw text gives back that record alone, for every text |
| `StackDump.ParseInvertsPrint` | adv024_goroutine_leak/main.go:57-99 | parsing inverts printing for every list of printable goroutines, with any number of blank lines, also none, after each block |
| `StackDump.StateIsReadIff` | adv024_goroutine_leak/main.go:76-87 | the state is read exactly when it has at least as many bytes as the text before the bracket |
| `StackDump.NoStateWithoutBrackets` | adv024_goroutine_leak/main.go:76-77 | without both brackets in this order there is no state |
| `StackDump.WaitIsCut` | adv024_goroutine_leak/main.go:80-84 | the wait is cut at the first comma, unless that comes first |
| `StackDump.HeaderSplits` | adv024_goroutine_leak/main.go:71-75 | an id followed by a space is read and the rest searched for a state |
| `StackDump.NoIdWithoutSpace` | adv024_goroutine_leak/main.go:71-75 | without a space behind something the id is 0 and the whole rest is searched |
| `StackDump.FrameWithoutCall` | adv024_goroutine_leak/main.go:88-94 | a frame without a parenthesis, or with one in front, is taken whole and trimmed |
| `StackDump.LongHeaderLosesState` | adv024_goroutine_leak/main.go:76-87 | a header with more fields loses its state |
| `StackDump.FunctionIsReadIff` | adv024_goroutine_leak/main.go:88-94 | a frame's function is read exactly when its name holds no parenthesis |
| `StackDump.PointerReceiverIsCut` | adv024_goroutine_leak/main.go:88-94 | a pointer receiver's method loses its name |
| `Text.ParseUintIsExact` | adv024_goroutine_leak/main.go:71-75 | an id of digits is read exactly up to the largest 64-bit number, where it stays |
| `Text.ParseUintOfOtherText` | adv024_goroutine_leak/main.go:73 | an id with a non-digit reads as 0, unless the digits before it overflow first |
| `Text.SplitJoin` | adv024_goroutine_leak/main.go:58 | splitting joined lines gives the lines back |
| `Text.TrimSpaceIsTight` | adv024_goroutine_leak/main.go:93 | trimming removes whole white-space characters of UTF-8 at both ends and nothing else, and leaves none there |
| `LinkedList.SpineIsAcyclic` | day054_linked_list_with_generics/main.go:6-15 | a list whose walk ends never meets a node twice |
| `LinkedList.SpineIsUnique` | day054_linked_list_with_generics/main.go:6-15 | the order of the nodes is determined by the pointers alone |
| `LinkedList.LinkedList.PushBack` | day054_linked_list_with_generics/main.go:23-35 | the walk ends and the value is appended in one new node; all other nodes keep their place |
| `LinkedList.LinkedList.PopBack` | day054_linked_list_with_generics/main.go:39-59 | the last value is removed and returned; the zero value and false on an empty list |
| `LinkedList.LinkedList.PeekFront` | day054_linked_list_with_generics/main.go:61-67 | the first value, unchanged list |
| `LinkedList.LinkedList.Len` | day054_linked_list_with_generics/main.go:70-72 | the stored length is the number of values |
| `LinkedList.LinkedList.ForEach` | day054_linked_list_with_generics/main.go:75-79 | the caller's states follow one another by the callback on each value, once each and in order, from the first to the result |
| `LinkedList.LinkedList.Collect` | day054_linked_list_with_generics/main.go:75-79 | an appending callback collects exactly the contents |
| `LinkedList.LinkedList.PushThenPop` | day054_linked_list_with_generics/main.go:23-59 | popping after a push returns the pushed value and restores the list node by node |

## Left out

- The Go runtime itself: timing, memory, GC pauses, assembly, benchmarks, trace events and printing are observations, not logic of the repository.
- Weak memory and scheduler fairness: locks and atomics are sequentially consistent steps, `select` is a free choice.
- Panics inside callbacks, `recover`, a `Once` whose `f` panics or calls `Do` again, and `Goexit`.
- adv027: object tags and colour dumps; writes to `globals` and a growing stack while marking (the simulator has no operation for them); a second cycle on the same machine, beyond the stale-flag cases of `SafeModes`.
- adv027: in the step relation an object's name is its place in the list of objects; the class `Machine` carries that name as a ghost field.
- adv020: `ProduceWithDone`, which is `Produce` with a plain channel in place of the context; a consumer that mixes policies.
- adv022: `chanSemaphore` and `runWithChanSemaphore`, which are the weight-1 case with the channel's buffer as counter; `runWithoutLimit`; rounding of `float64` and truncation to a `time.Duration`; the theorems for a rate that is not positive.
- adv021: changing the limit while bodies run, and the panic that guards against it; a goroutine outside the group that calls `Go` during `Wait`, because only a running body can be sure that the WaitGroup's counter is above zero, as an `Add` during `Wait` requires; a body that returns before a `Go` call it started elsewhere, or that calls `Wait`.
- adv023: `DropQueue`, `BlockingQueue` and `littleQueueDepth`, which forward to a buffered channel or are one expression.
- adv024: `isOurs`, `takeSnapshot`, `newSince`, which filter the parser's result.
- adv002: the trace of events; the producer of a task is kept but nothing depends on it.
- CondQueue.UnboundedQueue.PopLocked: is one critical section of `Pop`; the blocking loop around it is the `Resume` step, because a Dafny method cannot wait.
- Semaphore.WeightedSemaphore.AcquireLocked: is one critical section of `acquire`, for the same reason.
- WorkStealing.Proc.GiveHalf: is called on the victim, whose fields are the only ones to change; in the source it is a method of the thief.
- TokenBucket.TokenBucketLimiter.Reserve: leaves out the one case of rate zero and a request that does not fit, where the source divides by zero and converts an infinite wait to a `time.Duration`, whose value Go leaves to the implementation.
- LinkedList.LinkedList.ForEach: the callback is a pure step on the caller's state, so a callback that changes the list during the walk is not modelled.
