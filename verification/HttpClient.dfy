/**
 The retrying HTTP client: which replies are retried, how long it waits in wrapping 64-bit arithmetic, and how a call
 ends.
 */
module HttpClient {
  import opened Common
  import opened Arithmetic

  const TWO63 := 0x8000_0000_0000_0000
  const TWO64 := 0x1_0000_0000_0000_0000

  predicate Int64(x: int) {
    -TWO63 <= x < TWO63
  }

  /** The int64 with the same low 64 bits. */
  function Wrap64(x: int): (r: int)
    ensures Int64(r)
    ensures Int64(x) ==> r == x
  {
    (x + TWO63) % TWO64 - TWO63
  }

  /** time.Duration(1 << uint(n)). */
  function ShiftOne(n: nat): int {
    if n >= 64 then 0 else Wrap64(Pow2(n))
  }

  /** The wait when the reply names none. */
  function Wait(min: int, max: int, attempt: nat): int {
    var wait := Wrap64(min * ShiftOne(attempt));
    if wait > max then max else wait
  }

  // ----- Replies -----

  /**
   `retryAfter` is the header's duration, if there is one that parses; `body` the number of bytes in the body.  The body
   is read once, into a buffer of the announced length: `ended` says that this one Read reports an error or the end of
   the body along with the bytes it gives.  Reading an empty body gives no bytes and reports its end.
   */
  datatype Reply = ConnectionError | Got(status: int, retryAfter: Option<int>, body: nat, ended: bool) {
    predicate TwoHundred() {
      Got? && 200 <= status < 300
    }

    predicate ReadFails()
      requires Got?
    {
      body == 0 || ended
    }
  }

  /**
   One attempt: its reply, whether the context is done when it is judged, and whether it gets done during the wait
   after it.
   */
  datatype Attempt = Attempt(reply: Reply, ctxDone: bool, cancelledInWait: bool)

  predicate CheckRetry(a: Attempt) {
    && !a.ctxDone
    && (a.reply.ConnectionError? || a.reply.status >= 500 || a.reply.status == 429 || a.reply.status == 408)
  }

  function Backoff(min: int, max: int, attempt: nat, reply: Reply): int {
    if reply.Got? && reply.status == 429 && reply.retryAfter.Some? then reply.retryAfter.value
    else Wait(min, max, attempt)
  }

  // ----- The wrapped product -----

  lemma WrapIsModular(x: int, y: int, k: int)
    requires x == y + k * TWO64
    ensures Wrap64(x) == Wrap64(y)
  {
    ModShift(y + TWO63, k);
  }

  lemma ModShift(a: int, k: int)
    ensures (a + k * TWO64) % TWO64 == a % TWO64
  {
  }

  lemma Power63()
    ensures Pow2(63) == TWO63 && Pow2(64) == TWO64
  {
    SmallPowers();
    Pow2Sum(8, 8);
    Pow2Sum(16, 16);
    Pow2Sum(32, 31);
    Pow2Sum(16, 15);
    Pow2Sum(8, 7);
    assert Pow2(64) == 2 * Pow2(63);
  }

  /** The product the code computes is min * 2^n in the low 64 bits. */
  lemma WrappedProduct(min: int, n: nat)
    ensures Wrap64(min * ShiftOne(n)) == Wrap64(min * Pow2(n))
  {
    Power63();
    if n >= 64 {
      Pow2Sum(64, n - 64);
      Associate(min, TWO64, Pow2(n - 64));
      Associate(min, Pow2(n - 64), TWO64);
      WrapIsModular(min * Pow2(n), 0, min * Pow2(n - 64));
    } else if n == 63 {
      assert ShiftOne(63) == -TWO63;
      assert min * Pow2(63) == min * -TWO63 + min * TWO64;
      WrapIsModular(min * Pow2(63), min * -TWO63, min);
    } else {
      Pow2Monotone(n, 62);
      assert Pow2(63) == 2 * Pow2(62);
    }
  }

  /**
   Waiting is capped doubling exactly while the product fits in 63 bits, or when the wrapped product happens to reach
   the cap.
   */
  lemma WaitIsCappedDoublingIff(min: int, max: int, n: nat)
    requires 0 <= min < TWO63 && Int64(max)
    ensures Wait(min, max, n) == Min(min * Pow2(n), max) <==> min * Pow2(n) < TWO63 || Wrap64(min * Pow2(n)) >= max
    ensures min * Pow2(n) < TWO63 ==> Wait(min, max, n) == Min(min * Pow2(n), max)
  {
    WrappedProduct(min, n);
    MulMonotone(0, min, Pow2(n));
  }

  /**
   From shift 63 on: zero, or the most negative duration for an odd minimum at exactly 63; only the cap can lower it
   further.
   */
  lemma WaitWhenShiftedOut(min: int, max: int, n: nat)
    requires n >= 63 && Int64(max)
    ensures Wait(min, max, n) == if n == 63 && min % 2 == 1 then -TWO63 else Min(0, max)
  {
    if n == 63 {
      Power63();
      assert ShiftOne(63) == -TWO63;
      var h := min / 2;
      if min % 2 == 1 {
        assert min * -TWO63 == -TWO63 + (-h) * TWO64;
        WrapIsModular(min * -TWO63, -TWO63, -h);
      } else {
        assert min * -TWO63 == 0 + (-h) * TWO64;
        WrapIsModular(min * -TWO63, 0, -h);
      }
    }
  }

  /** As long as nothing overflows, later attempts wait at least as long. */
  lemma WaitsGrow(min: int, max: int, n: nat, m: nat)
    requires 0 <= min < TWO63 && Int64(max) && n <= m && min * Pow2(m) < TWO63
    ensures Wait(min, max, n) <= Wait(min, max, m)
  {
    Pow2Monotone(n, m);
    MulMonotone(Pow2(n), Pow2(m), min);
    WaitIsCappedDoublingIff(min, max, n);
    WaitIsCappedDoublingIff(min, max, m);
  }

  // ----- Totals -----

  function Sum(waits: seq<int>): int {
    if waits == [] then 0 else Sum(waits[..|waits| - 1]) + waits[|waits| - 1]
  }

  lemma WaitBounds(min: int, max: int, n: nat)
    requires 0 <= min < TWO63 && Int64(max)
    ensures Wait(min, max, n) <= max
    ensures Wait(min, max, n) <= min * Pow2(n)
  {
    WaitIsCappedDoublingIff(min, max, n);
  }

  /**
   No run of waits without Retry-After exceeds the number of waits times the cap, nor the geometric sum; overflow
   included.
   */
  lemma {:induction false} TotalWaitBounds(min: int, max: int, waits: seq<int>)
    requires 0 <= min < TWO63 && Int64(max)
    requires forall i :: 0 <= i < |waits| ==> waits[i] == Wait(min, max, i)
    ensures Sum(waits) <= |waits| * max
    ensures Sum(waits) <= min * (Pow2(|waits|) - 1)
  {
    if waits != [] {
      var n := |waits| - 1;
      TotalWaitBounds(min, max, waits[..n]);
      WaitBounds(min, max, n);
      Distribute(n, 1, max);
      Distribute(Pow2(n) - 1, Pow2(n), min);
    }
  }

  predicate NamesNoWait(reply: Reply) {
    reply.Got? && reply.status == 429 ==> reply.retryAfter.None?
  }

  /** The waits of one call, when no 429 reply named its own. */
  predicate DefaultWaits(min: int, max: int, attempts: seq<Attempt>, n: nat) {
    && 0 <= min < TWO63 && Int64(max)
    && n <= |attempts| && forall i :: 0 <= i < n ==> NamesNoWait(attempts[i].reply)
  }

  lemma CallWaitBounds(min: int, max: int, attempts: seq<Attempt>, waits: seq<int>)
    requires |waits| <= |attempts|
    requires forall i :: 0 <= i < |waits| ==> waits[i] == Backoff(min, max, i, attempts[i].reply)
    ensures DefaultWaits(min, max, attempts, |waits|) ==>
              Sum(waits) <= |waits| * max && Sum(waits) <= min * (Pow2(|waits|) - 1)
  {
    if DefaultWaits(min, max, attempts, |waits|) {
      TotalWaitBounds(min, max, waits);
    }
  }

  // ----- One call -----

  /**
   A reply after which another attempt is due while the context lasts: a failed connection, a server error, too many
   requests, or a request timeout.
   */
  predicate AsksForRetry(a: Attempt) {
    && !a.ctxDone
    && match a.reply
       case ConnectionError => true
       case Got(status, _, _, _) => status in {408, 429} || status > 499
  }

  /** The wait is what a 429 reply names, or else the capped doubling of the minimum while that does not overflow. */
  predicate IsDue(wait: int, min: int, max: int, attempt: nat, reply: Reply) {
    match reply
    case Got(429, Some(named), _, _) => wait == named
    case _ =>
      0 <= min && Int64(max) && min * Pow2(attempt) < 0x8000_0000_0000_0000 ==> wait == Min(min * Pow2(attempt), max)
  }

  predicate WaitsAreDue(min: int, max: int, attempts: seq<Attempt>, waits: seq<int>)
    requires |waits| <= |attempts|
  {
    forall i :: 0 <= i < |waits| ==> IsDue(waits[i], min, max, i, attempts[i].reply)
  }

  lemma BackoffIsDue(min: int, max: int, attempt: nat, reply: Reply)
    ensures IsDue(Backoff(min, max, attempt, reply), min, max, attempt, reply)
  {
    if 0 <= min && Int64(max) && min * Pow2(attempt) < TWO63 {
      AtMostProduct(min, Pow2(attempt));
      WaitIsCappedDoublingIff(min, max, attempt);
    }
  }

  lemma RetryIsAskedFor(a: Attempt)
    ensures CheckRetry(a) <==> AsksForRetry(a)
  {
  }

  lemma WaitsOfBackoff(min: int, max: int, attempts: seq<Attempt>, waits: seq<int>)
    requires |waits| <= |attempts|
    requires forall i :: 0 <= i < |waits| ==> waits[i] == Backoff(min, max, i, attempts[i].reply)
    ensures WaitsAreDue(min, max, attempts, waits)
  {
    forall i | 0 <= i < |waits|
      ensures IsDue(waits[i], min, max, i, attempts[i].reply)
    {
      BackoffIsDue(min, max, i, attempts[i].reply);
    }
  }

  lemma AtMostProduct(a: nat, b: nat)
    requires b > 0
    ensures a <= a * b
  {
    MulMonotone(1, b, a);
  }

  /**
   The function handed to the breaker: the whole retry loop behind one outcome.  `attempts` are the replies the network
   would give, in order; `ok` is the outcome, `made` how many attempts it took.
   */
  method Perform(min: int, max: int, retryMax: int, attempts: seq<Attempt>)
    returns (ok: bool, made: nat, waits: seq<int>, cancelled: bool)
    requires |attempts| > Max(retryMax, 0)
    ensures 1 <= made <= Max(retryMax, 0) + 1
    ensures forall i :: 0 <= i < made - 1 ==> AsksForRetry(attempts[i]) && !attempts[i].cancelledInWait
    ensures made <= retryMax ==> !AsksForRetry(attempts[made - 1]) || attempts[made - 1].cancelledInWait
    ensures cancelled <==> made <= retryMax && AsksForRetry(attempts[made - 1])
    ensures var last := attempts[made - 1];
            ok <==> !last.ctxDone && last.reply.Got? && 200 <= last.reply.status < 300
                    && last.reply.body > 0 && !last.reply.ended
    ensures |waits| == if cancelled then made else made - 1
    ensures WaitsAreDue(min, max, attempts, waits)
    ensures DefaultWaits(min, max, attempts, |waits|) ==>
              Sum(waits) <= |waits| * max && Sum(waits) <= min * (Pow2(|waits|) - 1)
  {
    made, waits, cancelled := 0, [], false;
    while true
      invariant 0 <= made <= Max(retryMax, 0) && |waits| == made && !cancelled
      invariant forall i :: 0 <= i < made ==> AsksForRetry(attempts[i]) && !attempts[i].cancelledInWait
      invariant forall i :: 0 <= i < made ==> waits[i] == Backoff(min, max, i, attempts[i].reply)
      decreases Max(retryMax, 0) - made
    {
      var attempt := attempts[made];
      if !CheckRetry(attempt) || retryMax - made <= 0 {
        made := made + 1;
        break;
      }
      waits := waits + [Backoff(min, max, made, attempt.reply)];
      made := made + 1;
      if attempt.cancelledInWait {
        cancelled := true;
        break;
      }
    }
    var last := attempts[made - 1];
    ok := false;
    if !last.ctxDone && last.reply.TwoHundred() {
      ok := !last.reply.ReadFails();
    }
    CallWaitBounds(min, max, attempts, waits);
    WaitsOfBackoff(min, max, attempts, waits);
  }

  /**
   How the call gets past the breaker: not at all when its context is done at entry, or when the breaker turns it away.
   */
  datatype Admission = ContextDone | TurnedAway | Accepted

  /**
   One call as its caller and the breaker see it.  `left` says that the caller's select takes the context's arm before
   the result arrives; the attempts go on without it, and their outcome is still recorded.
   */
  method Do(admission: Admission, left: bool, min: int, max: int, retryMax: int, attempts: seq<Attempt>)
    returns (success: bool, recorded: Option<bool>, made: nat, waits: seq<int>)
    requires |attempts| > Max(retryMax, 0)
    ensures |waits| <= made <= Max(retryMax, 0) + 1 && |waits| <= Max(retryMax, 0)
    ensures made > 0 <==> admission.Accepted?
    ensures made == 0 ==> recorded == None
    ensures made > 0 ==>
              var last := attempts[made - 1];
              recorded == Some(!last.ctxDone && last.reply.Got? && 200 <= last.reply.status < 300
                               && last.reply.body > 0 && !last.reply.ended)
    ensures success <==> recorded == Some(true) && !left
    ensures forall i :: 0 <= i < made - 1 ==> AsksForRetry(attempts[i]) && !attempts[i].cancelledInWait
    ensures 0 < made <= retryMax ==> !AsksForRetry(attempts[made - 1]) || attempts[made - 1].cancelledInWait
    ensures WaitsAreDue(min, max, attempts, waits)
    ensures DefaultWaits(min, max, attempts, |waits|) ==>
              Sum(waits) <= |waits| * max && Sum(waits) <= min * (Pow2(|waits|) - 1)
  {
    success, recorded, made, waits := false, None, 0, [];
    if admission.Accepted? {
      var ok, cancelled;
      ok, made, waits, cancelled := Perform(min, max, retryMax, attempts);
      recorded := Some(ok);
      success := ok && !left;
    } else {
      CallWaitBounds(min, max, attempts, waits);
    }
  }
}
