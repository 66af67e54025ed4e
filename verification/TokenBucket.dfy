/**
 The local limiter of golang.org/x/time/rate, which is not part of the repository: a token bucket that starts
 full, refills at `rate` tokens a second up to `burst`, and gives one token to each admitted request.
 Tokens are counted in billionths, so that a refill over whole nanoseconds is an exact integer.
 */
module TokenBucket {
  import opened Common

  const TOKEN := 1_000_000_000

  datatype Bucket = Bucket(tokens: int, last: int)

  function NewBucket(burst: int, now: int): Bucket {
    Bucket(burst * TOKEN, now)
  }

  function Available(b: Bucket, rate: int, burst: int, now: int): int {
    Min(burst * TOKEN, b.tokens + Max(rate, 0) * (now - Min(b.last, now)))
  }

  function Take(b: Bucket, rate: int, burst: int, now: int): (Bucket, bool) {
    var available := Available(b, rate, burst, now);
    if burst >= 1 && available >= TOKEN then (Bucket(available - TOKEN, now), true) else (b, false)
  }

  /** What `bursts` full buckets and `elapsed` nanoseconds of refilling amount to, in billionths of a token. */
  function Supply(rate: int, burst: int, bursts: nat, elapsed: int): int {
    bursts * (Max(burst, 0) * TOKEN) + Max(rate, 0) * elapsed
  }

  /**
   The bucket's potential: `given` requests admitted since `start` fit in the supply together with the tokens left.
   */
  predicate WithinSupply(b: Bucket, rate: int, burst: int, bursts: nat, start: int, given: nat) {
    && start <= b.last
    && TOKEN * given + Max(b.tokens, 0) <= Supply(rate, burst, bursts, b.last - start)
  }

  lemma SupplyGrows(rate: int, burst: int, bursts: nat, e: int, e': int)
    requires e <= e'
    ensures Supply(rate, burst, bursts, e') == Supply(rate, burst, bursts, e) + Max(rate, 0) * (e' - e)
    ensures Supply(rate, burst, bursts, e) <= Supply(rate, burst, bursts, e')
    ensures Supply(rate, burst, bursts + 1, e) == Supply(rate, burst, bursts, e) + Max(burst, 0) * TOKEN
  {
    var r := Max(rate, 0);
    assert r * e' == r * e + r * (e' - e);
    var full := Max(burst, 0) * TOKEN;
    assert (bursts + 1) * full == bursts * full + full;
  }

  lemma NewWithinSupply(rate: int, burst: int, start: int, now: int)
    requires start <= now
    ensures WithinSupply(NewBucket(burst, now), rate, burst, 1, start, 0)
  {
    SupplyGrows(rate, burst, 1, 0, now - start);
  }

  /** Drawing on the bucket keeps its potential, and counts the request if it is admitted. */
  lemma TakeKeepsWithinSupply(b: Bucket, rate: int, burst: int, bursts: nat, now: int, start: int, given: nat)
    requires WithinSupply(b, rate, burst, bursts, start, given) && b.last <= now
    ensures var (b', ok) := Take(b, rate, burst, now);
            WithinSupply(b', rate, burst, bursts, start, if ok then given + 1 else given) && b'.last <= now
  {
    SupplyGrows(rate, burst, bursts, b.last - start, now - start);
  }

  /** What n draws at one instant leave of a bucket. */
  function AfterDraws(b: Bucket, rate: int, burst: int, now: int, n: nat): Bucket {
    if n == 0 then b else Take(AfterDraws(b, rate, burst, now, n - 1), rate, burst, now).0
  }

  lemma {:induction false} TokensAfterDraws(rate: int, burst: int, now: int, n: nat)
    ensures AfterDraws(NewBucket(burst, now), rate, burst, now, n) ==
              Bucket((if burst <= 0 then burst else Max(0, burst - n)) * 1_000_000_000, now)
  {
    if n > 0 {
      TokensAfterDraws(rate, burst, now, n - 1);
      assert Max(rate, 0) * (now - now) == 0;
    }
  }

  /**
   In plain numbers: a new bucket gives exactly `burst` tokens at once; and once empty, its next token is due exactly
   when `rate` tokens a second have made one, counting nanoseconds.
   */
  lemma BucketInPlainTerms(rate: int, burst: int, now: int, n: nat, later: int)
    requires now <= later
    ensures Take(AfterDraws(NewBucket(burst, now), rate, burst, now, n), rate, burst, now).1 <==> n < burst
    ensures n >= burst >= 1 ==>
              (Take(AfterDraws(NewBucket(burst, now), rate, burst, now, n), rate, burst, later).1
               <==> Max(rate, 0) * (later - now) >= 1_000_000_000)
  {
    TokensAfterDraws(rate, burst, now, n);
    assert Max(rate, 0) * (now - now) == 0;
  }

  // ----- Any stretch of time -----

  /** How many of the requests at these times the bucket admits. */
  function Gives(b: Bucket, rate: int, burst: int, times: seq<int>): nat
    decreases times
  {
    if times == [] then 0
    else
      var (after, ok) := Take(b, rate, burst, times[0]);
      (if ok then 1 else 0) + Gives(after, rate, burst, times[1..])
  }

  /** The times lie one after the other between `from` and `to`. */
  predicate Ordered(from: int, times: seq<int>, to: int)
    decreases times
  {
    if times == [] then from <= to else from <= times[0] && Ordered(times[0], times[1..], to)
  }

  /** The tokens at hand at one time, and those of a later time, differ by at most what is refilled in between. */
  lemma AvailableGrows(b: Bucket, rate: int, burst: int, t: int, t': int)
    requires t <= t'
    ensures Available(b, rate, burst, t') <= Available(b, rate, burst, t) + Max(rate, 0) * (t' - t)
  {
    var r := Max(rate, 0);
    assert r * (t' - Min(b.last, t')) <= r * (t - Min(b.last, t)) + r * (t' - t) by {
      assert t' - Min(b.last, t') <= t - Min(b.last, t) + (t' - t);
      assert r * (t - Min(b.last, t) + (t' - t)) == r * (t - Min(b.last, t)) + r * (t' - t);
    }
  }

  lemma RefillAdds(rate: int, a: int, b: int, c: int)
    ensures Max(rate, 0) * (c - a) == Max(rate, 0) * (b - a) + Max(rate, 0) * (c - b)
  {
  }

  lemma {:induction false} GivesAtMost(b: Bucket, rate: int, burst: int, from: int, times: seq<int>, to: int)
    requires Ordered(from, times, to)
    ensures 1_000_000_000 * Gives(b, rate, burst, times)
              <= Max(0, Available(b, rate, burst, from)) + Max(rate, 0) * (to - from)
    decreases times
  {
    OrderedSpan(from, times, to);
    if times == [] {
      RefillPositive(rate, to - from);
    } else {
      var t := times[0];
      var (after, ok) := Take(b, rate, burst, t);
      GivesAtMost(after, rate, burst, t, times[1..], to);
      TakenFromAvailable(b, rate, burst, t);
      OneMore(Available(b, rate, burst, from), Available(b, rate, burst, t), Max(rate, 0) * (t - from),
              Max(rate, 0) * (to - t), Available(after, rate, burst, t), ok, Gives(after, rate, burst, times[1..]));
      AvailableGrows(b, rate, burst, from, t);
      RefillPositive(rate, t - from);
      RefillAdds(rate, from, t, to);
    }
  }

  lemma {:induction false} OrderedSpan(from: int, times: seq<int>, to: int)
    requires Ordered(from, times, to)
    ensures from <= to
    decreases times
  {
    if times != [] {
      OrderedSpan(times[0], times[1..], to);
    }
  }

  lemma RefillPositive(rate: int, elapsed: nat)
    ensures Max(rate, 0) * elapsed >= 0
  {
  }

  /** The arithmetic of one request: what is at hand first, at its time, and after it. */
  lemma OneMore(first: int, here: int, waited: int, left: int, after: int, ok: bool, rest: nat)
    ensures here <= first + waited && waited >= 0
            && (if ok then after == here - 1_000_000_000 && here >= 1_000_000_000 else after == here)
            && 1_000_000_000 * rest <= Max(0, after) + left ==>
              1_000_000_000 * ((if ok then 1 else 0) + rest) <= Max(0, first) + waited + left
  {
  }

  lemma TakenFromAvailable(b: Bucket, rate: int, burst: int, t: int)
    ensures var (after, ok) := Take(b, rate, burst, t);
            if ok then Available(after, rate, burst, t) == Available(b, rate, burst, t) - 1_000_000_000
                       && Available(b, rate, burst, t) >= 1_000_000_000
            else Available(after, rate, burst, t) == Available(b, rate, burst, t)
  {
    assert Max(rate, 0) * (t - Min(t, t)) == 0;
  }

  /**
   In any stretch of time, whatever came before it and however long the bucket was idle, at most burst + rate * length
   requests are admitted; in billionths, with the length in nanoseconds.
   */
  lemma AnyStretch(b: Bucket, rate: int, burst: int, from: int, times: seq<int>, to: int)
    requires Ordered(from, times, to)
    ensures 1_000_000_000 * Gives(b, rate, burst, times)
              <= Max(0, burst) * 1_000_000_000 + Max(rate, 0) * (to - from)
  {
    GivesAtMost(b, rate, burst, from, times, to);
    assert Max(0, Available(b, rate, burst, from)) <= Max(0, burst) * 1_000_000_000;
  }

  /** The limiter as an object. */
  class Limiter {
    const rate: int
    const burst: int
    var state: Bucket

    constructor (rate: int, burst: int, now: int)
      ensures this.rate == rate && this.burst == burst && state == NewBucket(burst, now)
    {
      this.rate, this.burst, this.state := rate, burst, NewBucket(burst, now);
    }

    method Allow(now: int) returns (ok: bool)
      modifies this
      ensures (state, ok) == Take(old(state), rate, burst, now)
    {
      var (after, granted) := Take(state, rate, burst, now);
      state := after;
      ok := granted;
    }
  }
}
