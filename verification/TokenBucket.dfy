/**
  The token bucket that limits enqueueing (internal/controller/token_bucket.go), over
  real numbers: rounding of float64 is not modelled. The clock is a parameter.
 */
module TokenBucket {

  datatype Bucket = Bucket(rate: real, burst: real, tokens: real, last: real)

  function New(ratePerSec: real, now: real): Bucket {
    Bucket(ratePerSec, if ratePerSec <= 0.0 then 1.0 else ratePerSec, ratePerSec, now)
  }

  /** What the bucket holds at `now`, before the decision. */
  function Refilled(b: Bucket, now: real): real {
    var t := b.tokens + (now - b.last) * b.rate;
    if t > b.burst then b.burst else t
  }

  predicate Grants(b: Bucket, now: real) {
    b.rate <= 0.0 || Refilled(b, now) >= 1.0
  }

  function After(b: Bucket, now: real): Bucket {
    if b.rate <= 0.0 then b
    else b.(tokens := Refilled(b, now) - (if Grants(b, now) then 1.0 else 0.0), last := now)
  }

  class Limiter {
    const rate: real
    const burst: real
    var tokens: real
    var lastTime: real

    ghost function State(): Bucket
      reads this
    {
      Bucket(rate, burst, tokens, lastTime)
    }

    constructor (ratePerSec: real, now: real)
      ensures State() == New(ratePerSec, now)
    {
      rate := ratePerSec;
      burst := if ratePerSec <= 0.0 then 1.0 else ratePerSec;
      tokens := ratePerSec;
      lastTime := now;
    }

    method Allow(now: real) returns (ok: bool)
      modifies this
      ensures ok == Grants(old(State()), now)
      ensures State() == After(old(State()), now)
    {
      if rate <= 0.0 {
        return true;
      }
      var elapsed := now - lastTime;
      tokens := tokens + elapsed * rate;
      if tokens > burst {
        tokens := burst;
      }
      assert tokens == Refilled(old(State()), now);
      lastTime := now;
      if tokens >= 1.0 {
        tokens := tokens - 1.0;
        return true;
      }
      return false;
    }
  }

  // ----- the bucket in units of credit: c[i] is what the clock has earned by call i

  function Level(burst: real, tokens: real, start: real, c: seq<real>, n: nat): real
    requires n <= |c|
    decreases n, 0
  {
    if n == 0 then tokens
    else
      var t := Offer(burst, tokens, start, c, n - 1);
      if t >= 1.0 then t - 1.0 else t
  }

  /** What is on offer at call n. */
  function Offer(burst: real, tokens: real, start: real, c: seq<real>, n: nat): real
    requires n < |c|
    decreases n, 1
  {
    var t := Level(burst, tokens, start, c, n) + (c[n] - (if n == 0 then start else c[n - 1]));
    if t > burst then burst else t
  }

  /** How many of the calls lo, .., hi-1 find a whole token on offer. */
  function Passed(burst: real, tokens: real, start: real, c: seq<real>, lo: nat, hi: nat): nat
    requires lo <= hi <= |c|
  {
    if lo == hi then 0
    else Passed(burst, tokens, start, c, lo, hi - 1) + (if Offer(burst, tokens, start, c, hi - 1) >= 1.0 then 1 else 0)
  }

  ghost predicate Earning(burst: real, tokens: real, start: real, c: seq<real>) {
    && 0.0 <= tokens <= burst
    && (forall i :: 0 <= i < |c| ==> start <= c[i])
    && (forall i, j :: 0 <= i <= j < |c| ==> c[i] <= c[j])
  }

  lemma {:induction false} LevelStaysInBounds(burst: real, tokens: real, start: real, c: seq<real>, n: nat)
    requires Earning(burst, tokens, start, c) && n <= |c|
    ensures 0.0 <= Level(burst, tokens, start, c, n) <= burst
    ensures n < |c| ==> 0.0 <= Offer(burst, tokens, start, c, n) <= burst
  {
    if n > 0 {
      LevelStaysInBounds(burst, tokens, start, c, n - 1);
    }
  }

  /** No window has less room than what is on offer. */
  lemma {:induction false} OfferBelowEveryWindow(burst: real, tokens: real, start: real, c: seq<real>, i: nat, n: nat)
    requires Earning(burst, tokens, start, c) && i <= n < |c|
    ensures Offer(burst, tokens, start, c, n) <= burst + c[n] - c[i] - Passed(burst, tokens, start, c, i, n) as real
  {
    if i < n {
      OfferBelowEveryWindow(burst, tokens, start, c, i, n - 1);
    }
  }

  /** If the bucket starts full, some window has exactly that room. */
  lemma {:induction false} SomeWindowIsTight(burst: real, start: real, c: seq<real>, n: nat) returns (i: nat)
    requires Earning(burst, burst, start, c) && n < |c|
    ensures i <= n
    ensures Offer(burst, burst, start, c, n) == burst + c[n] - c[i] - Passed(burst, burst, start, c, i, n) as real
  {
    if n == 0 {
      i := 0;
    } else if Offer(burst, burst, start, c, n) == burst {
      i := n;
    } else {
      i := SomeWindowIsTight(burst, start, c, n - 1);
    }
  }

  lemma AFullTokenEarned(burst: real, tokens: real, start: real, c: seq<real>, n: nat)
    requires Earning(burst, tokens, start, c) && burst >= 1.0 && 0 < n < |c| && c[n] - c[n - 1] >= 1.0
    ensures Offer(burst, tokens, start, c, n) >= 1.0
  {
    LevelStaysInBounds(burst, tokens, start, c, n);
  }

  lemma PassedWithinBudget(burst: real, tokens: real, start: real, c: seq<real>, i: nat, j: nat)
    requires Earning(burst, tokens, start, c) && i <= j < |c|
    ensures Passed(burst, tokens, start, c, i, j + 1) as real <= burst + (c[j] - c[i])
  {
    OfferBelowEveryWindow(burst, tokens, start, c, i, j);
    LevelStaysInBounds(burst, tokens, start, c, j);
  }

  // ----- runs: the i-th call happens at times[i]

  function StateAt(b: Bucket, times: seq<real>, n: nat): Bucket
    requires n <= |times|
  {
    if n == 0 then b else After(StateAt(b, times, n - 1), times[n - 1])
  }

  predicate Granted(b: Bucket, times: seq<real>, n: nat)
    requires n < |times|
  {
    Grants(StateAt(b, times, n), times[n])
  }

  /** How many of the calls lo, .., hi-1 are granted. */
  function Count(b: Bucket, times: seq<real>, lo: nat, hi: nat): nat
    requires lo <= hi <= |times|
  {
    if lo == hi then 0
    else Count(b, times, lo, hi - 1) + (if Granted(b, times, hi - 1) then 1 else 0)
  }

  /** Calls do not go back in time. */
  ghost predicate Ordered(b: Bucket, times: seq<real>) {
    && (forall i :: 0 <= i < |times| ==> b.last <= times[i])
    && (forall i, j :: 0 <= i <= j < |times| ==> times[i] <= times[j])
  }

  ghost predicate InBounds(b: Bucket) {
    0.0 < b.rate && 0.0 <= b.tokens <= b.burst
  }

  /** What the clock earns up to a moment. */
  ghost function Earned(rate: real, at: real): real {
    at * rate
  }

  ghost function EarnedBetween(rate: real, start: real, end: real): real {
    (end - start) * rate
  }

  ghost function Credits(b: Bucket, times: seq<real>): (c: seq<real>)
    ensures |c| == |times| && forall i :: 0 <= i < |c| ==> c[i] == Earned(b.rate, times[i])
  {
    seq(|times|, i requires 0 <= i < |times| => Earned(b.rate, times[i]))
  }

  lemma Distribute(r: real, x: real, y: real)
    ensures (y - x) * r == EarnedBetween(r, x, y) == Earned(r, y) - Earned(r, x)
  {}

  lemma Scale(r: real, x: real, y: real)
    requires 0.0 < r && x <= y
    ensures Earned(r, x) <= Earned(r, y)
  {}

  lemma CreditsEarn(b: Bucket, times: seq<real>)
    requires InBounds(b) && Ordered(b, times)
    ensures Earning(b.burst, b.tokens, Earned(b.rate, b.last), Credits(b, times))
  {
    hide Earned;
    var c := Credits(b, times);
    forall i | 0 <= i < |c| ensures Earned(b.rate, b.last) <= c[i] { Scale(b.rate, b.last, times[i]); }
    forall i, j | 0 <= i <= j < |c| ensures c[i] <= c[j] { Scale(b.rate, times[i], times[j]); }
  }

  /** One call, in credits. */
  lemma CallInCredits(b: Bucket, now: real)
    requires 0.0 < b.rate
    ensures Refilled(b, now) == (var t := b.tokens + (Earned(b.rate, now) - Earned(b.rate, b.last));
                                 if t > b.burst then b.burst else t)
  {
    hide Earned;
    Distribute(b.rate, b.last, now);
  }

  /** The bucket on the clock is the bucket in credits. */
  lemma {:induction false} StateIsLevel(b: Bucket, times: seq<real>, n: nat)
    requires InBounds(b) && n <= |times|
    decreases n, 0
    ensures StateAt(b, times, n)
              == Bucket(b.rate, b.burst, Level(b.burst, b.tokens, Earned(b.rate, b.last), Credits(b, times), n),
                        if n == 0 then b.last else times[n - 1])
  {
    hide Refilled, Earned;
    if n > 0 {
      OfferAt(b, times, n - 1);
    }
  }

  lemma {:induction false} OfferAt(b: Bucket, times: seq<real>, n: nat)
    requires InBounds(b) && n < |times|
    ensures StateAt(b, times, n).rate == b.rate && StateAt(b, times, n).burst == b.burst
    ensures Refilled(StateAt(b, times, n), times[n])
              == Offer(b.burst, b.tokens, Earned(b.rate, b.last), Credits(b, times), n)
    decreases n, 1
  {
    hide Refilled, Earned;
    StateIsLevel(b, times, n);
    CallInCredits(StateAt(b, times, n), times[n]);
  }

  lemma {:induction false} CountIsPassed(b: Bucket, times: seq<real>, lo: nat, hi: nat)
    requires InBounds(b) && lo <= hi <= |times|
    ensures Count(b, times, lo, hi) == Passed(b.burst, b.tokens, Earned(b.rate, b.last), Credits(b, times), lo, hi)
  {
    hide Earned, Refilled, Offer;
    if lo < hi {
      CountIsPassed(b, times, lo, hi - 1);
      OfferAt(b, times, hi - 1);
    }
  }

  /** 0 <= tokens <= burst in every run, at every point. */
  lemma TokensStayInBounds(b: Bucket, times: seq<real>, n: nat)
    requires InBounds(b) && Ordered(b, times) && n <= |times|
    ensures InBounds(StateAt(b, times, n))
  {
    hide Earned, Earning, Level, Offer;
    CreditsEarn(b, times);
    StateIsLevel(b, times, n);
    LevelStaysInBounds(b.burst, b.tokens, Earned(b.rate, b.last), Credits(b, times), n);
  }

  /** Room for one more grant at call n in the window that opens at call i. */
  ghost predicate Room(b: Bucket, times: seq<real>, i: nat, n: nat)
    requires i <= n < |times|
  {
    Count(b, times, i, n) as real + 1.0 <= b.burst + EarnedBetween(b.rate, times[i], times[n])
  }

  lemma RoomInCredits(b: Bucket, times: seq<real>, i: nat, n: nat)
    requires InBounds(b) && i <= n < |times|
    ensures Room(b, times, i, n)
            <==> Passed(b.burst, b.tokens, Earned(b.rate, b.last), Credits(b, times), i, n) as real + 1.0
                   <= b.burst + Credits(b, times)[n] - Credits(b, times)[i]
  {
    hide Earned, EarnedBetween, Passed, Count;
    CountIsPassed(b, times, i, n);
    Distribute(b.rate, times[i], times[n]);
  }

  /** The limiter is exact: a call is granted if and only if granting it keeps every
      window that ends there within burst + rate * span. It never lets more through, and
      never refuses a call it could have let through. */
  lemma GrantedExactlyWhenEveryWindowHasRoom(b: Bucket, times: seq<real>, n: nat)
    requires InBounds(b) && b.tokens == b.burst && Ordered(b, times) && n < |times|
    ensures Granted(b, times, n) <==> forall i :: 0 <= i <= n ==> Room(b, times, i, n)
  {
    hide Refilled, Room, Earned, Offer, Passed;
    CreditsEarn(b, times);
    OfferAt(b, times, n);
    forall i | 0 <= i <= n ensures Granted(b, times, n) ==> Room(b, times, i, n) {
      RoomInCredits(b, times, i, n);
      OfferBelowEveryWindow(b.burst, b.tokens, Earned(b.rate, b.last), Credits(b, times), i, n);
    }
    var i := SomeWindowIsTight(b.burst, Earned(b.rate, b.last), Credits(b, times), n);
    RoomInCredits(b, times, i, n);
    assert Room(b, times, i, n) ==> Granted(b, times, n);
  }

  /** From the start of a limiter, with its numbers: r per second, and never more than r at once. */
  lemma FreshLimiterIsExact(ratePerSec: real, start: real, times: seq<real>, n: nat)
    requires 0.0 < ratePerSec && n < |times|
    requires forall i :: 0 <= i < |times| ==> start <= times[i]
    requires forall i, j :: 0 <= i <= j < |times| ==> times[i] <= times[j]
    ensures Granted(New(ratePerSec, start), times, n)
            <==> forall i :: 0 <= i <= n ==>
                   Count(New(ratePerSec, start), times, i, n) as real + 1.0
                     <= ratePerSec + (times[n] - times[i]) * ratePerSec
  {
    hide Granted, Count, Room;
    var b := New(ratePerSec, start);
    GrantedExactlyWhenEveryWindowHasRoom(b, times, n);
    forall i | 0 <= i <= n
      ensures Room(b, times, i, n)
              <==> Count(b, times, i, n) as real + 1.0 <= ratePerSec + (times[n] - times[i]) * ratePerSec
    {
      RoomInNumbers(b, times, i, n);
    }
  }

  lemma RoomInNumbers(b: Bucket, times: seq<real>, i: nat, n: nat)
    requires i <= n < |times|
    ensures Room(b, times, i, n)
            <==> Count(b, times, i, n) as real + 1.0 <= b.burst + (times[n] - times[i]) * b.rate
  {
    hide Count;
  }

  /** A rate that is not positive is no limit: every call in every run is granted. */
  lemma {:induction false} NoRateNoLimit(ratePerSec: real, start: real, times: seq<real>, n: nat)
    requires ratePerSec <= 0.0 && n < |times|
    ensures Granted(New(ratePerSec, start), times, n)
    ensures StateAt(New(ratePerSec, start), times, n) == New(ratePerSec, start)
  {
    if n > 0 {
      NoRateNoLimit(ratePerSec, start, times, n - 1);
    }
  }

  /** Any run of consecutive calls i..j grants at most burst + rate * span. */
  lemma WindowBound(b: Bucket, times: seq<real>, i: nat, j: nat)
    requires InBounds(b) && Ordered(b, times) && i <= j < |times|
    ensures Count(b, times, i, j + 1) as real <= b.burst + (times[j] - times[i]) * b.rate
  {
    hide Refilled, Level, Offer, Passed, Earning, Count, Granted, Earned;
    CreditsEarn(b, times);
    CountIsPassed(b, times, i, j + 1);
    PassedWithinBudget(b.burst, b.tokens, Earned(b.rate, b.last), Credits(b, times), i, j);
    Distribute(b.rate, times[i], times[j]);
  }

  /** With rate >= 1 a call at least 1/rate seconds after the previous one gets through. */
  lemma SpacedCallsAreGranted(ratePerSec: real, start: real, times: seq<real>, n: nat)
    requires ratePerSec >= 1.0 && Ordered(New(ratePerSec, start), times) && 0 < n < |times|
    requires (times[n] - times[n - 1]) * ratePerSec >= 1.0
    ensures Granted(New(ratePerSec, start), times, n)
  {
    var b := New(ratePerSec, start);
    hide Refilled, Earned, Earning, Offer, Level;
    CreditsEarn(b, times);
    OfferAt(b, times, n);
    Distribute(ratePerSec, times[n - 1], times[n]);
    assert Credits(b, times)[n] - Credits(b, times)[n - 1] == (times[n] - times[n - 1]) * ratePerSec;
    AFullTokenEarned(b.burst, b.tokens, Earned(b.rate, b.last), Credits(b, times), n);
  }

  /** Below one token per second the capacity is below one token, and no call in any run
      is ever granted; from one per second on, the first call always is. */
  lemma SlowBucketNeverGrants(ratePerSec: real, start: real, times: seq<real>, n: nat)
    requires 0.0 < ratePerSec && Ordered(New(ratePerSec, start), times) && n < |times|
    ensures ratePerSec < 1.0 ==> !Granted(New(ratePerSec, start), times, n)
    ensures ratePerSec >= 1.0 ==> Granted(New(ratePerSec, start), times, 0)
  {
    var b := New(ratePerSec, start);
    hide Earned, Refilled;
    CreditsEarn(b, times);
    OfferAt(b, times, n);
    LevelStaysInBounds(b.burst, b.tokens, Earned(b.rate, b.last), Credits(b, times), n);
    if ratePerSec >= 1.0 {
      GrantedExactlyWhenEveryWindowHasRoom(b, times, 0);
      assert Room(b, times, 0, 0);
    }
  }
}
