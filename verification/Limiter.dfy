/** The limiter object of one gateway, and why each of its calls is a run of the protocol. */
module Limiter {
  import opened Common
  import opened Keys
  import opened Redis
  import TokenBucket
  import opened RateLimit
  import opened RateLimitTotals

  /**
   One call served without interruption: the new store, the gateway's bucket for the tier, and the verdict.
   `incr` and `expire` say how the two round trips to the server go.
   */
  function Serve(store: Store, bucket: TokenBucket.Bucket, now: int, mono: int, name: string, rps: int, burst: int,
                 wall: int, incr: Link, expire: Link): (Store, TokenBucket.Bucket, bool)
  {
    var key := RateKey(name, TruncDiv(wall / SECOND, 60));
    var counted := if incr.Refused? then store else Incr(store, key, now).0;
    var answer := if incr.Up? then Incr(store, key, now).1 else None;
    match answer
    case None =>
      var (b, ok) := TokenBucket.Take(bucket, rps, burst, mono);
      (counted, b, ok)
    case Some(n) =>
      var kept := if n == 1 && !expire.Refused? then Expire(counted, key, now, COUNTER_TTL) else counted;
      (kept, bucket, n <= rps * 60)
  }

  /** The protocol steps of that call, given the answer its INCR gets. */
  function CallSteps(r: nat, gateway: nat, tier: Tier, wall: int, incr: Link, expire: Link, answer: Option<int>)
    : seq<Action>
  {
    [Read(r, gateway, tier, wall)] +
    match incr
    case Refused => FallbackSteps(r)
    case ReplyLost => [Stray(r)] + FallbackSteps(r)
    case Up => [Answer(r)] + AnsweredSteps(r, expire, answer)
  }

  function FallbackSteps(r: nat): seq<Action> {
    [Fault(r)] + [Local(r)]
  }

  function AnsweredSteps(r: nat, expire: Link, answer: Option<int>): seq<Action> {
    match answer
    case None => [Local(r)]
    case Some(n) =>
      if n != 1 then [Decide(r)]
      else if expire.Refused? then SettledSteps(r)
      else [Land(r)] + SettledSteps(r)
  }

  function SettledSteps(r: nat): seq<Action> {
    [Quit(r)] + ([Proceed(r)] + [Decide(r)])
  }

  /**
   The run ends with this store and this bucket, the request decided this way and its EXPIRE settled, and no other
   request moved.
   */
  ghost predicate Yields(c: Config, s: State, run: seq<Action>, r: nat, gateway: nat, tier: Tier,
                         result: (Store, TokenBucket.Bucket, bool))
  {
    && Valid(c, s, run)
    && var s' := Final(c, s, run);
       && s'.store == result.0
       && BucketOf(c, s', gateway, tier) == result.1
       && r in s'.reqs && s'.reqs - {r} == s.reqs - {r}
       && (s'.reqs[r].phase.ByRedis? || s'.reqs[r].phase.ByBucket?) && s'.reqs[r].phase.ok == result.2
       && !s'.reqs[r].expiring
  }

  lemma Prepend(c: Config, s: State, a: Action, run: seq<Action>, r: nat, gateway: nat, tier: Tier,
                result: (Store, TokenBucket.Bucket, bool))
    requires Enabled(c, s, a) && !a.Tick? && a.r == r && Yields(c, Step(c, s, a), run, r, gateway, tier, result)
    ensures Yields(c, s, [a] + run, r, gateway, tier, result)
  {
    StepThen(c, s, a, run);
    assert Step(c, s, a).reqs - {r} == s.reqs - {r};
  }

  lemma LocalCall(c: Config, s: State, r: nat)
    requires r in s.reqs && s.reqs[r].phase.Faulted? && !s.reqs[r].expiring
    ensures var q := s.reqs[r];
            var (b, ok) := TokenBucket.Take(BucketOf(c, s, q.gateway, q.tier), c.Rps(q.tier), c.Burst(q.tier), s.now);
            Yields(c, s, [Local(r)], r, q.gateway, q.tier, (s.store, b, ok))
  {
    assert [Local(r)][1..] == [];
    assert Step(c, s, Local(r)).reqs - {r} == s.reqs - {r};
  }

  lemma DecidedCall(c: Config, s: State, r: nat)
    requires r in s.reqs && s.reqs[r].phase.Checked? && !s.reqs[r].expiring
    ensures var q := s.reqs[r];
            Yields(c, s, [Decide(r)], r, q.gateway, q.tier,
                   (s.store, BucketOf(c, s, q.gateway, q.tier), q.phase.count <= c.Budget(q.tier)))
  {
    assert [Decide(r)][1..] == [];
    assert Step(c, s, Decide(r)).reqs - {r} == s.reqs - {r};
  }

  lemma FaultedCall(c: Config, s: State, r: nat)
    requires r in s.reqs && s.reqs[r].phase.Keyed? && !s.reqs[r].expiring
    ensures var q := s.reqs[r];
            var (b, ok) := TokenBucket.Take(BucketOf(c, s, q.gateway, q.tier), c.Rps(q.tier), c.Burst(q.tier), s.now);
            Yields(c, s, FallbackSteps(r), r, q.gateway, q.tier, (s.store, b, ok))
  {
    var q := s.reqs[r];
    var (b, ok) := TokenBucket.Take(BucketOf(c, s, q.gateway, q.tier), c.Rps(q.tier), c.Burst(q.tier), s.now);
    LocalCall(c, Step(c, s, Fault(r)), r);
    Prepend(c, s, Fault(r), [Local(r)], r, q.gateway, q.tier, (s.store, b, ok));
  }

  lemma SettledCall(c: Config, s: State, r: nat)
    requires r in s.reqs && s.reqs[r].phase.Counted? && s.reqs[r].expiring
    ensures var q := s.reqs[r];
            Yields(c, s, SettledSteps(r), r, q.gateway, q.tier,
                   (s.store, BucketOf(c, s, q.gateway, q.tier), q.phase.count <= c.Budget(q.tier)))
  {
    var q := s.reqs[r];
    var result := (s.store, BucketOf(c, s, q.gateway, q.tier), q.phase.count <= c.Budget(q.tier));
    var s1 := Step(c, s, Quit(r));
    DecidedCall(c, Step(c, s1, Proceed(r)), r);
    Prepend(c, s1, Proceed(r), [Decide(r)], r, q.gateway, q.tier, result);
    Prepend(c, s, Quit(r), [Proceed(r)] + [Decide(r)], r, q.gateway, q.tier, result);
  }

  lemma CountedCall(c: Config, s: State, r: nat, expire: Link)
    requires r in s.reqs && s.reqs[r].phase == Counted(1) && s.reqs[r].expiring
    ensures var q := s.reqs[r];
            var store := if expire.Refused? then s.store else Expire(s.store, q.Key(), s.now, COUNTER_TTL);
            Yields(c, s, AnsweredSteps(r, expire, Some(1)), r, q.gateway, q.tier,
                   (store, BucketOf(c, s, q.gateway, q.tier), 1 <= c.Budget(q.tier)))
  {
    if expire.Refused? {
      SettledCall(c, s, r);
    } else {
      var q := s.reqs[r];
      var s1 := Step(c, s, Land(r));
      SettledCall(c, s1, r);
      Prepend(c, s, Land(r), SettledSteps(r), r, q.gateway, q.tier,
              (s1.store, BucketOf(c, s, q.gateway, q.tier), 1 <= c.Budget(q.tier)));
    }
  }

  /** The call from its INCR on: the result is the one the specification gives. */
  lemma IncrCall(c: Config, s: State, r: nat, wall: int, expire: Link)
    requires r in s.reqs && s.reqs[r].phase.Keyed? && !s.reqs[r].expiring && s.now <= s.reqs[r].readAt + c.lag
    requires s.reqs[r].second == wall / SECOND
    ensures var q := s.reqs[r];
            Yields(c, s, [Answer(r)] + AnsweredSteps(r, expire, Incr(s.store, q.Key(), s.now).1), r, q.gateway, q.tier,
                   Serve(s.store, BucketOf(c, s, q.gateway, q.tier), s.now, s.now, TierName(q.tier),
                         c.Rps(q.tier), c.Burst(q.tier), wall, Up, expire))
  {
    var q := s.reqs[r];
    var answer := Incr(s.store, q.Key(), s.now).1;
    var s1 := Step(c, s, Answer(r));
    assert s1.reqs[r] == q.(phase := AfterIncr(answer), expiring := answer == Some(1));
    if answer == None {
      LocalCall(c, s1, r);
    } else if answer != Some(1) {
      DecidedCall(c, s1, r);
    } else {
      CountedCall(c, s1, r, expire);
    }
    Prepend(c, s, Answer(r), AnsweredSteps(r, expire, answer), r, q.gateway, q.tier,
            Serve(s.store, BucketOf(c, s, q.gateway, q.tier), s.now, s.now, TierName(q.tier),
                  c.Rps(q.tier), c.Burst(q.tier), wall, Up, expire));
  }

  /**
   A call without interruption is one of the interleavings: from every state, its steps are a valid run to its result.
   */
  lemma ServeIsARun(c: Config, s: State, r: nat, gateway: nat, tier: Tier, wall: int, incr: Link, expire: Link)
    requires r !in s.reqs && s.now - c.skew <= wall <= s.now + c.skew
    ensures var key := RateKey(TierName(tier), TruncDiv(wall / SECOND, 60));
            Yields(c, s, CallSteps(r, gateway, tier, wall, incr, expire, Incr(s.store, key, s.now).1), r, gateway, tier,
                   Serve(s.store, BucketOf(c, s, gateway, tier), s.now, s.now, TierName(tier),
                         c.Rps(tier), c.Burst(tier), wall, incr, expire))
  {
    var read := Read(r, gateway, tier, wall);
    var result := Serve(s.store, BucketOf(c, s, gateway, tier), s.now, s.now, TierName(tier),
                        c.Rps(tier), c.Burst(tier), wall, incr, expire);
    var s1 := Step(c, s, read);
    var answer := Incr(s.store, s1.reqs[r].Key(), s.now).1;
    match incr {
      case Refused =>
        FaultedCall(c, s1, r);
        Prepend(c, s, read, FallbackSteps(r), r, gateway, tier, result);
      case ReplyLost =>
        FaultedCall(c, Step(c, s1, Stray(r)), r);
        Prepend(c, s1, Stray(r), FallbackSteps(r), r, gateway, tier, result);
        Prepend(c, s, read, [Stray(r)] + FallbackSteps(r), r, gateway, tier, result);
      case Up =>
        IncrCall(c, s1, r, wall, expire);
        Prepend(c, s, read, [Answer(r)] + AnsweredSteps(r, expire, answer), r, gateway, tier, result);
    }
  }

  /**
   At every moment of every run: a call that starts a minute's counter leaves it in Redis for good exactly when its
   INCR took effect but the answer was lost, or the EXPIRE was refused, whose error the code discards.
   */
  lemma FirstCallNeverExpiresIff(c: Config, start: int, run: seq<Action>, r: nat, gateway: nat, tier: Tier, wall: int,
                                 incr: Link, expire: Link)
    requires Valid(c, Init(start), run)
    requires var s := Final(c, Init(start), run);
             var m := TruncDiv(wall / SECOND, 60);
             && r !in s.reqs && s.now - c.skew <= wall <= s.now + c.skew
             && !Live(s.store, RateKey(TierName(tier), m), s.now) && NothingExpiring(s, tier, m)
    ensures var s := Final(c, Init(start), run);
            var call := CallSteps(r, gateway, tier, wall, incr, expire, Some(1));
            && Valid(c, s, call)
            && NeverExpires(c, Final(c, s, call), tier, TruncDiv(wall / SECOND, 60))
                 == (incr.ReplyLost? || (incr.Up? && expire.Refused?))
  {
    var s := Final(c, Init(start), run);
    var call := CallSteps(r, gateway, tier, wall, incr, expire, Some(1));
    ServeIsARun(c, s, r, gateway, tier, wall, incr, expire);
    RunsCompose(c, Init(start), run, call);
    NeverExpiresIff(c, start, run + call, tier, TruncDiv(wall / SECOND, 60));
    NothingExpiringAfter(s, Final(c, s, call), r, tier, TruncDiv(wall / SECOND, 60));
  }

  lemma NothingExpiringAfter(s: State, s': State, r: nat, tier: Tier, m: int)
    requires NothingExpiring(s, tier, m) && r in s'.reqs && s'.reqs - {r} == s.reqs - {r} && !s'.reqs[r].expiring
    ensures NothingExpiring(s', tier, m)
  {
    forall q | q in s'.reqs && OnKey(s'.reqs[q], tier, m)
      ensures !s'.reqs[q].expiring
    {
      if q != r {
        assert q in s'.reqs - {r};
        assert s.reqs[q] == s'.reqs[q];
      }
    }
  }

  /** So from an empty store, one call is enough either way. */
  lemma OneCallOrphans(c: Config, gateway: nat, tier: Tier, wall: int, incr: Link, expire: Link)
    requires incr.ReplyLost? || (incr.Up? && expire.Refused?)
    ensures var call := CallSteps(0, gateway, tier, wall, incr, expire, Some(1));
            Valid(c, Init(wall), call) && NeverExpires(c, Final(c, Init(wall), call), tier, TruncDiv(wall / SECOND, 60))
  {
    assert Valid(c, Init(wall), []) && Final(c, Init(wall), []) == Init(wall);
    FirstCallNeverExpiresIff(c, wall, [], 0, gateway, tier, wall, incr, expire);
  }

  class Limiter {
    const globalLimiter: TokenBucket.Limiter
    const adminLimiter: TokenBucket.Limiter
    const cache: RedisCache?
    const distributed: bool

    ghost predicate Valid() {
      globalLimiter != adminLimiter
    }

    constructor (globalRps: int, adminRps: int, burst: int, cache: RedisCache?, distributed: bool, now: int)
      ensures Valid() && fresh(globalLimiter) && fresh(adminLimiter)
      ensures this.cache == cache && this.distributed == distributed
      ensures (globalLimiter.rate, globalLimiter.burst) == (globalRps, burst)
      ensures (adminLimiter.rate, adminLimiter.burst) == (adminRps, TruncDiv(burst, 2))
      ensures globalLimiter.state == TokenBucket.NewBucket(burst, now)
      ensures adminLimiter.state == TokenBucket.NewBucket(TruncDiv(burst, 2), now)
    {
      var g := new TokenBucket.Limiter(globalRps, burst, now);
      var a := new TokenBucket.Limiter(adminRps, TruncDiv(burst, 2), now);
      this.globalLimiter, this.adminLimiter, this.cache, this.distributed := g, a, cache, distributed;
    }

    function OwnLimiter(tier: string): TokenBucket.Limiter {
      if tier == "admin" then adminLimiter else globalLimiter
    }

    method AllowDistributed(tier: string, limit: int, wall: int, mono: int, incr: Link, expire: Link) returns (ok: bool)
      requires Valid() && cache != null && limit == OwnLimiter(tier).rate
      modifies cache`store, OwnLimiter(tier)
      ensures var own := OwnLimiter(tier);
              (cache.store, own.state, ok) ==
                Serve(old(cache.store), old(own.state), cache.now, mono, tier, own.rate, own.burst, wall, incr, expire)
    {
      var key := RateKey(tier, TruncDiv(wall / SECOND, 60));
      var count := cache.Increment(key, incr);
      if count == None {
        if tier == "admin" {
          ok := adminLimiter.Allow(mono);
        } else {
          ok := globalLimiter.Allow(mono);
        }
        return;
      }
      if count.value == 1 {
        var _ := cache.ExpireKey(key, COUNTER_TTL, expire);
      }
      ok := count.value <= limit * 60;
    }

    /** Both tiers: the shared counter when there is one, the local bucket otherwise; never the other tier's bucket. */
    method Allow(tier: Tier, wall: int, mono: int, incr: Link, expire: Link) returns (ok: bool)
      requires Valid()
      modifies if cache != null then {cache} else {}, OwnLimiter(TierName(tier))
      ensures cache != null ==> cache.now == old(cache.now)
      ensures var own := OwnLimiter(TierName(tier));
              if distributed && cache != null then
                (cache.store, own.state, ok) ==
                  Serve(old(cache.store), old(own.state), cache.now, mono, TierName(tier), own.rate, own.burst,
                        wall, incr, expire)
              else
                && (own.state, ok) == TokenBucket.Take(old(own.state), own.rate, own.burst, mono)
                && (cache != null ==> cache.store == old(cache.store))
    {
      var name := TierName(tier);
      if distributed && cache != null {
        ok := AllowDistributed(name, OwnLimiter(name).rate, wall, mono, incr, expire);
      } else if tier.Admin? {
        ok := adminLimiter.Allow(mono);
      } else {
        ok := globalLimiter.Allow(mono);
      }
    }
  }

  /** The object was built from the settings of the protocol. */
  predicate BuiltFrom(l: Limiter, c: Config) {
    && l.globalLimiter.rate == c.globalRps && l.globalLimiter.burst == c.burst
    && l.adminLimiter.rate == c.adminRps && l.adminLimiter.burst == TruncDiv(c.burst, 2)
  }

  /** So a call on such an object, with the tier's own limiter, is a run of the protocol with the same result. */
  lemma ObjectCallIsARun(l: Limiter, c: Config, s: State, r: nat, gateway: nat, tier: Tier, wall: int,
                         incr: Link, expire: Link)
    requires BuiltFrom(l, c) && r !in s.reqs && s.now - c.skew <= wall <= s.now + c.skew
    ensures var key := RateKey(TierName(tier), TruncDiv(wall / SECOND, 60));
            var own := l.OwnLimiter(TierName(tier));
            Yields(c, s, CallSteps(r, gateway, tier, wall, incr, expire, Incr(s.store, key, s.now).1), r, gateway, tier,
                   Serve(s.store, BucketOf(c, s, gateway, tier), s.now, s.now, TierName(tier),
                         own.rate, own.burst, wall, incr, expire))
  {
    TierNameInjective(tier, Admin);
    ServeIsARun(c, s, r, gateway, tier, wall, incr, expire);
  }
}
