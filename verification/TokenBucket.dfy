/** The token bucket over exact real time (seconds). */
module TokenBucket {

  datatype Bucket = Bucket(tokens: real, rate: real, burst: int, last: real)

  /** Tokens after the refill at time `now`; a clock that went back counts as no time. */
  function Refilled(b: Bucket, now: real): real {
    var elapsed := if now - b.last < 0.0 then 0.0 else now - b.last;
    var t := b.tokens + elapsed * b.rate;
    if t > b.burst as real then b.burst as real else t
  }

  /** The new bucket and the time to wait; with rate zero there is no time after which a
      request that does not fit would. */
  function ReserveN(b: Bucket, now: real, n: int): (Bucket, real)
    requires b.rate != 0.0 || Refilled(b, now) >= n as real
  {
    var t := Refilled(b, now);
    var need := n as real;
    if t >= need then (b.(tokens := t - need, last := now), 0.0)
    else (b.(tokens := 0.0, last := now), (need - t) / b.rate)
  }

  predicate InBounds(b: Bucket) {
    b.rate > 0.0 && 0.0 <= b.tokens <= b.burst as real
  }

  lemma {:induction false} Times(rate: real, x: real, y: real)
    ensures rate * x + rate * y == rate * (x + y)
  {
  }

  lemma {:induction false} Elapse(rate: real, t0: real, t1: real, t2: real)
    ensures rate * (t1 - t0) + rate * (t2 - t1) == rate * (t2 - t0)
  {
    Times(rate, t1 - t0, t2 - t1);
    assert (t1 - t0) + (t2 - t1) == t2 - t0;
  }

  lemma {:induction false} TimesNonNegative(rate: real, x: real)
    requires rate > 0.0 && x >= 0.0
    ensures rate * x >= 0.0
  {
  }

  lemma {:induction false} RefillInBounds(b: Bucket, now: real)
    requires InBounds(b)
    ensures 0.0 <= Refilled(b, now) <= b.burst as real
  {
    TimesNonNegative(b.rate, if now - b.last < 0.0 then 0.0 else now - b.last);
  }

  /** The bucket stays between empty and `burst` exactly when a negative request does not
      put more back than fits; in particular for every non-negative request. */
  lemma {:induction false} StaysInBounds(b: Bucket, now: real, n: int)
    requires InBounds(b)
    ensures InBounds(ReserveN(b, now, n).0) <==> Refilled(b, now) - n as real <= b.burst as real
    ensures n >= 0 ==> InBounds(ReserveN(b, now, n).0)
  {
    RefillInBounds(b, now);
  }

  // ---------- what is granted at once ----------

  datatype Request = Request(now: real, n: int)

  /** The clock never goes back and nobody asks for a negative number. */
  ghost predicate Forward(last: real, rs: seq<Request>)
    decreases |rs|
  {
    rs == [] || (rs[0].now >= last && rs[0].n >= 0 && Forward(rs[0].now, rs[1..]))
  }

  function After(b: Bucket, rs: seq<Request>): Bucket
    requires b.rate > 0.0
    decreases |rs|
  {
    if rs == [] then b else After(ReserveN(b, rs[0].now, rs[0].n).0, rs[1..])
  }

  /** Tokens granted with no wait. */
  function GrantedAtOnce(b: Bucket, rs: seq<Request>): real
    requires b.rate > 0.0
    decreases |rs|
  {
    if rs == [] then 0.0
    else
      var (c, wait) := ReserveN(b, rs[0].now, rs[0].n);
      (if wait == 0.0 then rs[0].n as real else 0.0) + GrantedAtOnce(c, rs[1..])
  }

  /** What was granted on the way from `b` to `e`, and what is left in `e`, is covered by the
      initial tokens and the refill for the elapsed time. */
  ghost predicate Covered(b: Bucket, granted: real, e: Bucket) {
    && InBounds(e) && e.rate == b.rate && e.last >= b.last
    && granted + e.tokens <= b.tokens + b.rate * (e.last - b.last)
  }

  lemma {:induction false} CoveredTogether(b: Bucket, g: real, c: Bucket, h: real, e: Bucket)
    requires Covered(b, g, c) && Covered(c, h, e)
    ensures Covered(b, g + h, e)
  {
    Elapse(b.rate, b.last, c.last, e.last);
  }

  lemma {:induction false} GrantStep(b: Bucket, now: real, n: int)
    requires InBounds(b) && now >= b.last && n >= 0
    ensures var (c, wait) := ReserveN(b, now, n);
      Covered(b, if wait == 0.0 then n as real else 0.0, c)
  {
    StaysInBounds(b, now, n);
    RefillInBounds(b, now);
    WaitIsPositive(b, now, n);
    assert Refilled(b, now) <= b.tokens + b.rate * (now - b.last);
  }

  /** Over any run, what is granted at once keeps within the rate. */
  lemma {:induction false} GrantsWithinRate(b: Bucket, rs: seq<Request>)
    requires InBounds(b) && Forward(b.last, rs)
    ensures Covered(b, GrantedAtOnce(b, rs), After(b, rs))
    decreases |rs|
  {
    if rs == [] {
      assert b.rate * 0.0 == 0.0;
    } else {
      GrantStep(b, rs[0].now, rs[0].n);
      GrantTail(b, rs);
    }
  }

  lemma {:induction false} GrantTail(b: Bucket, rs: seq<Request>)
    requires InBounds(b) && rs != [] && Forward(b.last, rs)
    requires var (c, wait) := ReserveN(b, rs[0].now, rs[0].n);
      Covered(b, if wait == 0.0 then rs[0].n as real else 0.0, c)
    ensures Covered(b, GrantedAtOnce(b, rs), After(b, rs))
    decreases |rs|, 0
  {
    var (c, wait) := ReserveN(b, rs[0].now, rs[0].n);
    var rest := rs[1..];
    assert Forward(c.last, rest);
    GrantsWithinRate(c, rest);
    CoveredTogether(b, if wait == 0.0 then rs[0].n as real else 0.0, c, GrantedAtOnce(c, rest), After(c, rest));
  }

  /** A request that does not fit has to wait for a positive time. */
  lemma {:induction false} WaitIsPositive(b: Bucket, now: real, n: int)
    requires b.rate > 0.0
    ensures ReserveN(b, now, n).1 == 0.0 <==> Refilled(b, now) >= n as real
    ensures ReserveN(b, now, n).1 >= 0.0
    ensures Refilled(b, now) < n as real ==> b.rate * ReserveN(b, now, n).1 == n as real - Refilled(b, now)
  {
    var d := n as real - Refilled(b, now);
    if d > 0.0 {
      assert b.rate * (d / b.rate) == d;
      assert d / b.rate > 0.0;
    }
  }

  // ---------- a clock that goes back ----------

  /** An excursion of the clock: two calls that ask for nothing, the second at the bucket's
      own time. */
  function Excursion(b: Bucket, t: real): seq<Request> {
    [Request(t, 0), Request(b.last, 0)]
  }

  lemma {:induction false} ExcursionEnds(b: Bucket, t: real)
    requires InBounds(b)
    ensures GrantedAtOnce(b, Excursion(b, t)) == 0.0
    ensures var e := After(b, Excursion(b, t));
      && e.last == b.last && e.rate == b.rate && e.burst == b.burst && InBounds(e)
      && e.tokens == Refilled(b.(tokens := Refilled(b, t), last := t), b.last)
  {
    var rs := Excursion(b, t);
    var c := b.(tokens := Refilled(b, t), last := t);
    RefillInBounds(b, t);
    RefillInBounds(c, b.last);
    var e := c.(tokens := Refilled(c, b.last), last := b.last);
    assert ReserveN(b, t, 0) == (c, 0.0) && ReserveN(c, b.last, 0) == (e, 0.0);
    assert rs[1..] == [rs[1]] && rs[1..][1..] == [];
    assert After(c, rs[1..]) == After(e, []) == e;
    assert GrantedAtOnce(c, rs[1..]) == 0.0 + GrantedAtOnce(e, []);
  }

  /** An excursion, forward or back, creates tokens out of no time, exactly unless the bucket
      is full: the same seconds are counted again on the way back. */
  lemma {:induction false} ClockGoingBackGrantsTwice(b: Bucket, t: real)
    requires InBounds(b)
    ensures Covered(b, GrantedAtOnce(b, Excursion(b, t)), After(b, Excursion(b, t)))
      <==> t == b.last || b.tokens == b.burst as real
  {
    ExcursionEnds(b, t);
    var away := if t < b.last then b.last - t else t - b.last;
    if away > 0.0 { assert away * b.rate > 0.0; }
    assert b.rate * (b.last - b.last) == 0.0;
  }

  /** Nobody asks for a negative number; the clock may do anything. */
  ghost predicate NonNegative(rs: seq<Request>) {
    forall i :: 0 <= i < |rs| ==> rs[i].n >= 0
  }

  /** Whatever the clock does, a run that ends no earlier than it began is covered. */
  ghost predicate ClockProof(b: Bucket)
    requires InBounds(b)
  {
    forall rs :: NonNegative(rs) && After(b, rs).last >= b.last ==>
      Covered(b, GrantedAtOnce(b, rs), After(b, rs))
  }

  /** So the clock condition of `GrantsWithinRate` can be dropped for no bucket but the one
      that never holds anything. */
  lemma {:induction false} ClockConditionIsNeeded(b: Bucket)
    requires InBounds(b)
    ensures ClockProof(b) <==> b.burst == 0
  {
    if b.burst == 0 {
      forall rs | NonNegative(rs) && After(b, rs).last >= b.last
        ensures Covered(b, GrantedAtOnce(b, rs), After(b, rs))
      {
        EmptyBucketGrantsNothing(b, rs);
        TimesNonNegative(b.rate, After(b, rs).last - b.last);
      }
    } else if b.tokens < b.burst as real {
      BrokenByExcursion(b);
    } else {
      BrokenAfterOneToken(b);
    }
  }

  lemma {:induction false} EmptyBucketGrantsNothing(b: Bucket, rs: seq<Request>)
    requires InBounds(b) && b.burst == 0 && NonNegative(rs)
    ensures GrantedAtOnce(b, rs) == 0.0
    ensures var e := After(b, rs); InBounds(e) && e.tokens == 0.0 && e.rate == b.rate && e.burst == 0
    decreases |rs|
  {
    if rs != [] {
      var c := ReserveN(b, rs[0].now, rs[0].n).0;
      RefillInBounds(b, rs[0].now);
      WaitIsPositive(b, rs[0].now, rs[0].n);
      assert NonNegative(rs[1..]);
      EmptyBucketGrantsNothing(c, rs[1..]);
    }
  }

  lemma {:induction false} BrokenByExcursion(b: Bucket)
    requires InBounds(b) && b.tokens < b.burst as real
    ensures !ClockProof(b)
  {
    var rs := Excursion(b, b.last - 1.0);
    ClockGoingBackGrantsTwice(b, b.last - 1.0);
    ExcursionEnds(b, b.last - 1.0);
    assert NonNegative(rs);
  }

  /** A full bucket gives one token first. */
  lemma {:induction false} BrokenAfterOneToken(b: Bucket)
    requires InBounds(b) && b.tokens == b.burst as real && b.burst >= 1
    ensures !ClockProof(b)
  {
    var c := b.(tokens := b.tokens - 1.0);
    var away := b.last - 1.0;
    var rest := Excursion(c, away);
    var rs := [Request(b.last, 1)] + rest;
    assert b.rate * 0.0 == 0.0;
    assert Refilled(b, b.last) == b.tokens && ReserveN(b, b.last, 1) == (c, 0.0);
    assert rs[0] == Request(b.last, 1) && rs[1..] == rest;
    ClockGoingBackGrantsTwice(c, away);
    ExcursionEnds(c, away);
    assert After(b, rs) == After(c, rest) && GrantedAtOnce(b, rs) == 1.0 + GrantedAtOnce(c, rest);
    assert NonNegative(rs);
    assert b.rate * (b.last - b.last) == 0.0;
  }

  // ---------- a sequential caller of wait ----------

  /** One call: pause for `gap` after the last one returned, then wait for `n` tokens. */
  datatype Call = Call(gap: real, n: int)

  /** `clock` is when the last sleep ended; `lost` is refill cut off at `burst`. */
  datatype Caller = Caller(b: Bucket, clock: real, admitted: real, slept: real, lastSleep: real, lost: real)

  function Wait(c: Caller, call: Call): Caller
    requires c.b.rate > 0.0
  {
    var now := c.clock + call.gap;
    var (b, d) := ReserveN(c.b, now, call.n);
    Caller(b, now + d, c.admitted + call.n as real, c.slept + d, d,
           c.lost + (c.b.tokens + c.b.rate * (now - c.b.last) - Refilled(c.b, now)))
  }

  function WaitAll(c: Caller, calls: seq<Call>): Caller
    requires c.b.rate > 0.0
    decreases |calls|
  {
    if calls == [] then c else WaitAll(Wait(c, calls[0]), calls[1..])
  }

  ghost predicate Sensible(calls: seq<Call>) {
    forall i :: 0 <= i < |calls| ==> calls[i].gap >= 0.0 && calls[i].n >= 0
  }

  /** Everything admitted or left in the bucket or cut off was either refilled while the
      clock ran or counted a second time while the caller slept. */
  ghost predicate Ledger(start: Bucket, c: Caller) {
    && InBounds(c.b) && c.b.rate == start.rate
    && c.clock == c.b.last + c.lastSleep
    && c.lastSleep >= 0.0 && c.lost >= 0.0
    && c.b.tokens + c.admitted + c.lost
       == start.tokens + start.rate * (c.b.last - start.last) + start.rate * c.slept
    && c.lastSleep <= c.slept <= c.clock - start.last
  }

  /** What one call hands out and leaves is what was there and what its wait will refill. */
  lemma {:induction false} ReserveBalances(b: Bucket, now: real, n: int)
    requires InBounds(b) && n >= 0
    ensures var (c, d) := ReserveN(b, now, n);
      && InBounds(c) && c.rate == b.rate && c.last == now && d >= 0.0
      && c.tokens + n as real == Refilled(b, now) + b.rate * d
  {
    StaysInBounds(b, now, n);
    WaitIsPositive(b, now, n);
    assert b.rate * 0.0 == 0.0;
  }

  lemma {:induction false} WaitKeepsLedger(start: Bucket, c: Caller, call: Call)
    requires Ledger(start, c) && call.gap >= 0.0 && call.n >= 0
    ensures Ledger(start, Wait(c, call))
  {
    var now := c.clock + call.gap;
    ReserveBalances(c.b, now, call.n);
    RefillLoses(c.b, now);
    LedgerCarries(start, c, Wait(c, call), now, call.n as real, Refilled(c.b, now));
  }

  /** The account over one call, whatever the bucket was refilled to. */
  lemma {:induction false} LedgerCarries(start: Bucket, c: Caller, e: Caller, now: real, n: real, refilled: real)
    requires Ledger(start, c) && now >= c.clock
    requires InBounds(e.b) && e.b.rate == start.rate && e.b.last == now
    requires e.lastSleep >= 0.0 && e.b.tokens + n == refilled + start.rate * e.lastSleep
    requires e.clock == now + e.lastSleep && e.admitted == c.admitted + n && e.slept == c.slept + e.lastSleep
    requires e.lost == c.lost + (c.b.tokens + start.rate * (now - c.b.last) - refilled) && e.lost >= c.lost
    ensures Ledger(start, e)
  {
    Elapse(start.rate, start.last, c.b.last, now);
    Times(start.rate, c.slept, e.lastSleep);
  }

  lemma {:induction false} RefillLoses(b: Bucket, now: real)
    requires InBounds(b) && now >= b.last
    ensures b.tokens + b.rate * (now - b.last) - Refilled(b, now) >= 0.0
  {
  }

  lemma {:induction false} WaitAllKeepsLedger(start: Bucket, c: Caller, calls: seq<Call>)
    requires Ledger(start, c) && Sensible(calls)
    ensures Ledger(start, WaitAll(c, calls))
    decreases |calls|
  {
    if calls != [] {
      WaitKeepsLedger(start, c, calls[0]);
      WaitAllKeepsLedger(start, Wait(c, calls[0]), calls[1..]);
    }
  }

  function Begin(b: Bucket): Caller {
    Caller(b, b.last, 0.0, 0.0, 0.0, 0.0)
  }

  /** At most the initial tokens plus twice the rate for the elapsed time. */
  ghost predicate WithinTwiceTheRate(start: Bucket, c: Caller) {
    c.admitted <= start.tokens + 2.0 * start.rate * (c.clock - start.last)
  }

  /** At most the initial tokens plus the rate for the elapsed time. */
  ghost predicate WithinTheRate(start: Bucket, c: Caller) {
    c.admitted <= start.tokens + start.rate * (c.clock - start.last)
  }

  lemma {:induction false} LedgerPace(start: Bucket, c: Caller)
    requires Ledger(start, c) && start.rate > 0.0
    ensures WithinTwiceTheRate(start, c)
  {
    var elapsed := c.clock - start.last;
    var r := start.rate;
    Times(r, c.b.last - start.last, c.lastSleep);
    assert (c.b.last - start.last) + c.lastSleep == elapsed;
    Times(r, c.slept - c.lastSleep, c.lastSleep);
    assert (c.slept - c.lastSleep) + c.lastSleep == c.slept;
    Times(r, elapsed - c.slept, c.slept);
    assert (elapsed - c.slept) + c.slept == elapsed;
    TimesNonNegative(r, elapsed - c.slept);
    TimesNonNegative(r, c.lastSleep);
    assert 2.0 * r * elapsed == r * elapsed + r * elapsed;
  }

  /** Everything a sequential caller is admitted by the end of its last sleep. */
  lemma {:induction false} AdmittedWithinTwiceTheRate(b: Bucket, calls: seq<Call>)
    requires InBounds(b) && Sensible(calls)
    ensures WithinTwiceTheRate(b, WaitAll(Begin(b), calls))
  {
    BeginKeepsLedger(b);
    WaitAllKeepsLedger(b, Begin(b), calls);
    LedgerPace(b, WaitAll(Begin(b), calls));
  }

  lemma {:induction false} BeginKeepsLedger(b: Bucket)
    requires InBounds(b)
    ensures Ledger(b, Begin(b))
  {
    assert b.rate * 0.0 == 0.0;
  }

  // ---------- when the rate itself is kept ----------

  /** No request is for more than the bucket can hold. */
  ghost predicate Fitting(calls: seq<Call>, burst: int) {
    forall i :: 0 <= i < |calls| ==> calls[i].n <= burst
  }

  ghost predicate AlwaysWithinTheRate(b: Bucket)
    requires InBounds(b)
  {
    forall calls :: Sensible(calls) ==> WithinTheRate(b, WaitAll(Begin(b), calls))
  }

  /** The same for callers that ask for no more than fits. */
  ghost predicate FittingWithinTheRate(b: Bucket)
    requires InBounds(b)
  {
    forall calls :: Sensible(calls) && Fitting(calls, b.burst) ==> WithinTheRate(b, WaitAll(Begin(b), calls))
  }

  /** Sequential callers are held to the rate by exactly those buckets that hold nothing: any
      other bucket lets some caller exceed it, even one whose every request fits. */
  lemma {:induction false} RateIsKeptIff(b: Bucket)
    requires InBounds(b)
    ensures AlwaysWithinTheRate(b) <==> b.burst == 0
    ensures FittingWithinTheRate(b) <==> b.burst == 0
  {
    if b.burst == 0 {
      forall calls | Sensible(calls) ensures WithinTheRate(b, WaitAll(Begin(b), calls)) {
        assert b.rate * 0.0 == 0.0;
        NothingKeptKeepsTheRate(b, Begin(b), calls);
      }
    } else {
      ThreeFullRequestsExceed(b);
    }
  }

  /** A bucket that holds nothing keeps no refill from a sleep for the next caller. */
  lemma {:induction false} NothingKeptKeepsTheRate(start: Bucket, c: Caller, calls: seq<Call>)
    requires start.rate > 0.0 && Sensible(calls) && WithinTheRate(start, c)
    requires InBounds(c.b) && c.b.burst == 0 && c.b.rate == start.rate
    ensures WithinTheRate(start, WaitAll(c, calls))
    decreases |calls|
  {
    if calls != [] {
      var call := calls[0];
      var now := c.clock + call.gap;
      var (b, d) := ReserveN(c.b, now, call.n);
      RefillInBounds(c.b, now);
      WaitIsPositive(c.b, now, call.n);
      Times(start.rate, c.clock - start.last, call.gap + d);
      assert (c.clock - start.last) + (call.gap + d) == now + d - start.last;
      Times(start.rate, call.gap, d);
      TimesNonNegative(start.rate, call.gap);
      assert start.rate * 0.0 == 0.0;
      assert Sensible(calls[1..]);
      NothingKeptKeepsTheRate(start, Wait(c, call), calls[1..]);
    }
  }

  /** A call for the whole bucket, made as soon as the last one returned: it waits for what the
      bucket had and leaves it empty, and during the wait the bucket refills by that amount. */
  lemma {:induction false} FullRequest(c: Caller, have: real)
    requires c.b.rate > 0.0 && Refilled(c.b, c.clock) == have && 0.0 <= have <= c.b.burst as real
    ensures var d := (c.b.burst as real - have) / c.b.rate;
      var e := Wait(c, Call(0.0, c.b.burst));
      && e.b == c.b.(tokens := 0.0, last := c.clock) && e.clock == c.clock + d
      && e.admitted == c.admitted + c.b.burst as real
      && d >= 0.0 && c.b.rate * d == c.b.burst as real - have
      && Refilled(e.b, e.clock) == c.b.burst as real - have
  {
    WaitIsPositive(c.b, c.clock, c.b.burst);
    var d := (c.b.burst as real - have) / c.b.rate;
    assert d * c.b.rate == c.b.burst as real - have;
  }

  function FullThrice(b: Bucket): seq<Call> {
    [Call(0.0, b.burst), Call(0.0, b.burst), Call(0.0, b.burst)]
  }

  lemma {:induction false} WaitThrice(c: Caller, call: Call)
    requires c.b.rate > 0.0
    ensures WaitAll(c, [call, call, call]) == Wait(Wait(Wait(c, call), call), call)
  {
    var calls := [call, call, call];
    assert calls[1..] == [call, call] && [call, call][1..] == [call] && [call][1..] == [];
    var c1 := Wait(c, call);
    var c2 := Wait(c1, call);
    assert WaitAll(c2, [call]) == WaitAll(Wait(c2, call), []);
    assert WaitAll(c1, [call, call]) == WaitAll(c2, [call]);
  }

  /** Three requests for the whole bucket take as long as two full buckets need. */
  lemma {:induction false} FullThriceEnds(b: Bucket)
    requires InBounds(b)
    ensures var e := WaitAll(Begin(b), FullThrice(b));
      && e.admitted == 3.0 * b.burst as real
      && b.rate * (e.clock - b.last) == 2.0 * b.burst as real - b.tokens
  {
    var full := Call(0.0, b.burst);
    var c0 := Begin(b);
    assert b.rate * 0.0 == 0.0;
    FullRequest(c0, b.tokens);
    var c1 := Wait(c0, full);
    FullRequest(c1, b.burst as real - b.tokens);
    var c2 := Wait(c1, full);
    FullRequest(c2, b.tokens);
    var c3 := Wait(c2, full);
    WaitThrice(c0, full);
    ThreeWaits(b.rate, c0.clock, c1.clock, c2.clock, c3.clock);
  }

  lemma {:induction false} ThreeWaits(rate: real, t0: real, t1: real, t2: real, t3: real)
    ensures rate * (t3 - t0) == rate * (t1 - t0) + rate * (t2 - t1) + rate * (t3 - t2)
  {
    Elapse(rate, t0, t1, t2);
    Elapse(rate, t0, t2, t3);
  }

  /** The rate allowed two full buckets, and three were admitted. */
  lemma {:induction false} ThreeFullRequestsExceed(b: Bucket)
    requires InBounds(b) && b.burst >= 1
    ensures !AlwaysWithinTheRate(b) && !FittingWithinTheRate(b)
  {
    var calls := FullThrice(b);
    FullThriceEnds(b);
    assert Sensible(calls) && Fitting(calls, b.burst);
    assert !WithinTheRate(b, WaitAll(Begin(b), calls));
  }

  /** `2k` back-to-back calls for one token each. */
  function BackToBack(k: nat): seq<Call> {
    seq(2 * k, _ => Call(0.0, 1))
  }

  /** The factor two is reached for every `k`: with rate 1 and burst 1, after the first token
      `2k` more are admitted in `k` seconds. */
  lemma {:induction false} TwiceTheRateIsReached(k: nat, t: real, admitted: real, slept: real, lost: real)
    ensures var c := WaitAll(Caller(Bucket(0.0, 1.0, 1, t), t, admitted, slept, 0.0, lost), BackToBack(k));
      c.clock == t + k as real && c.admitted == admitted + 2.0 * k as real
    decreases k
  {
    if k > 0 {
      var calls := BackToBack(k);
      var c0 := Caller(Bucket(0.0, 1.0, 1, t), t, admitted, slept, 0.0, lost);
      var c1 := Wait(c0, calls[0]);
      assert c1 == Caller(Bucket(0.0, 1.0, 1, t), t + 1.0, admitted + 1.0, slept + 1.0, 1.0, lost);
      var c2 := Wait(c1, calls[1]);
      assert c2 == Caller(Bucket(0.0, 1.0, 1, t + 1.0), t + 1.0, admitted + 2.0, slept + 1.0, 0.0, lost);
      assert calls[1..][1..] == BackToBack(k - 1);
      assert calls[1..][0] == calls[1];
      TwiceTheRateIsReached(k - 1, t + 1.0, admitted + 2.0, slept + 1.0, lost);
    }
  }

  /** The demo's bucket: rate 2, burst 3, at time zero. */
  function Demo(tokens: real, admitted: real): Caller {
    Caller(Bucket(tokens, 2.0, 3, 0.0), 0.0, admitted, 0.0, 0.0, 0.0)
  }

  lemma {:induction false} DemoTakesOne(tokens: real, admitted: real)
    requires 1.0 <= tokens <= 3.0
    ensures Wait(Demo(tokens, admitted), Call(0.0, 1)) == Demo(tokens - 1.0, admitted + 1.0)
  {
    assert Refilled(Demo(tokens, admitted).b, 0.0) == tokens;
  }

  lemma {:induction false} ThreeAtOnce()
    ensures Demo(3.0, 0.0) == Begin(Bucket(3.0, 2.0, 3, 0.0))
    ensures var one := Call(0.0, 1); Wait(Wait(Wait(Demo(3.0, 0.0), one), one), one) == Demo(0.0, 3.0)
  {
    DemoTakesOne(3.0, 0.0);
    DemoTakesOne(2.0, 1.0);
    DemoTakesOne(1.0, 2.0);
  }

  /** Called back to back the demo's bucket admits three at once and lets the fourth wait half
      a second, but the fifth does not wait at all: it spends what was refilled while the
      fourth slept. */
  lemma {:induction false} FifthRequestDoesNotWait()
    ensures var fourth := Wait(Demo(0.0, 3.0), Call(0.0, 1));
      fourth == Caller(Bucket(0.0, 2.0, 3, 0.0), 0.5, 4.0, 0.5, 0.5, 0.0)
      && Wait(fourth, Call(0.0, 1)).lastSleep == 0.0
  {
    assert Refilled(Bucket(0.0, 2.0, 3, 0.0), 0.0) == 0.0;
    assert Refilled(Bucket(0.0, 2.0, 3, 0.0), 0.5) == 1.0;
  }

  // ---------- the bucket object ----------

  class TokenBucketLimiter {
    var tokens: real
    const rate: real
    const burst: int
    var last: real

    ghost function Abs(): Bucket
      reads this
    {
      Bucket(tokens, rate, burst, last)
    }

    constructor (rate: real, burst: int, now: real)
      ensures Abs() == Bucket(burst as real, rate, burst, now)
    {
      this.rate := rate;
      this.burst := burst;
      tokens := burst as real;
      last := now;
    }

    method Reserve(now: real, n: int) returns (wait: real)
      requires rate != 0.0 || Refilled(Abs(), now) >= n as real
      modifies this
      ensures (Abs(), wait) == ReserveN(old(Abs()), now, n)
    {
      var elapsed := now - last;
      if elapsed < 0.0 { elapsed := 0.0; }
      tokens := tokens + elapsed * rate;
      if tokens > burst as real { tokens := burst as real; }
      assert tokens == Refilled(old(Abs()), now);
      last := now;
      var need := n as real;
      if tokens >= need {
        tokens := tokens - need;
        return 0.0;
      }
      var deficit := need - tokens;
      wait := deficit / rate;
      tokens := 0.0;
    }
  }
}
