/**
 The distributed limiter in plain numbers: nanoseconds, requests and the texts of keys, none of the model's own units.
 */
module RateLimitPlain {
  import opened Common
  import opened Arithmetic
  import opened Keys
  import opened Redis
  import opened TokenBucket
  import opened RateLimit
  import opened RateLimitTotals
  import Limiter

  /** The key of the readings of second u of the clock. */
  function PlainKey(tier: Tier, u: int): string {
    (if tier.Admin? then "ratelimit:admin:" else "ratelimit:global:") + Decimal(if u >= 0 then u / 60 else -((-u) / 60))
  }

  /** Which key a request forms: u is the second its clock reading falls into. */
  lemma KeyInPlainTerms(c: Config, s: State, r: nat, gateway: nat, tier: Tier, wall: int, u: int)
    requires Enabled(c, s, Read(r, gateway, tier, wall)) && 1_000_000_000 * u <= wall < 1_000_000_000 * (u + 1)
    ensures Step(c, s, Read(r, gateway, tier, wall)).reqs[r].Key() == PlainKey(tier, u)
  {
    SecondOf(wall, u);
    KeyText(tier, u);
    assert Step(c, s, Read(r, gateway, tier, wall)).reqs[r] == Request(gateway, tier, u, s.now, Keyed, false);
  }

  lemma SecondOf(wall: int, u: int)
    requires 1_000_000_000 * u <= wall < 1_000_000_000 * (u + 1)
    ensures wall / SECOND == u
  {
  }

  lemma KeyText(tier: Tier, u: int)
    ensures RateKey(TierName(tier), TruncDiv(u, 60)) == PlainKey(tier, u)
  {
    assert "ratelimit:" + "admin" + ":" == "ratelimit:admin:";
    assert "ratelimit:" + "global" + ":" == "ratelimit:global:";
  }

  /** EXPIRE gives a counter two minutes from its execution. */
  lemma ExpireInPlainTerms(c: Config, s: State, r: nat)
    requires Enabled(c, s, Land(r)) && Live(s.store, s.reqs[r].Key(), s.now)
    ensures var key := s.reqs[r].Key();
            Step(c, s, Land(r)).store == s.store[key := Entry(s.store[key].value, Some(s.now + 120_000_000_000))]
  {
  }

  /**
   One call in the second u of its clock.  If INCR is answered, the verdict is the count against 60 requests a second:
   a missing counter starts at 1 and, unless EXPIRE is refused, gets two minutes; a live one goes up by 1 and keeps its
   deadline; the local bucket is not touched.  If not, the local bucket decides.
   */
  lemma CallInPlainTerms(store: Store, bucket: Bucket, now: int, mono: int, tier: Tier, rps: int, burst: int,
                         wall: int, u: int, incr: Link, expire: Link)
    requires 1_000_000_000 * u <= wall < 1_000_000_000 * (u + 1)
    ensures var key := PlainKey(tier, u);
            var (after, b, ok) :=
              Limiter.Serve(store, bucket, now, mono, TierName(tier), rps, burst, wall, incr, expire);
            var deadline := if expire.Refused? then None else Some(now + 120_000_000_000);
            && (incr.Up? && key !in store ==>
                  after == store[key := Entry(Counter(1), deadline)] && b == bucket && (ok <==> 1 <= 60 * rps))
            && (incr.Up? && Live(store, key, now) && store[key].value.Counter?
                && 1 <= store[key].value.n < 0x7fff_ffff_ffff_ffff ==>
                  var n := store[key].value.n + 1;
                  && after == store[key := Entry(Counter(n), store[key].deadline)]
                  && b == bucket && (ok <==> n <= 60 * rps))
            && (incr.Refused? ==> after == store)
            && (incr.ReplyLost? && key !in store ==> after == store[key := Entry(Counter(1), None)])
            && (!incr.Up? ==> (b, ok) == Take(bucket, rps, burst, mono))
  {
    KeyText(tier, u);
    SecondOf(wall, u);
  }

  // ----- What a run of given length admits -----

  /** Seconds of the clock readings so far. */
  ghost predicate SecondsWithin(c: Config, s: State) {
    && s.start <= s.now
    && forall r :: r in s.reqs ==>
         (s.start - c.skew) / 1_000_000_000 <= s.reqs[r].second <= (s.now + c.skew) / 1_000_000_000
  }

  lemma DivMonotone(a: int, b: int)
    requires a <= b
    ensures a / 1_000_000_000 <= b / 1_000_000_000
  {
  }

  lemma StepKeepsSeconds(c: Config, s: State, a: Action)
    requires SecondsWithin(c, s) && Enabled(c, s, a)
    ensures SecondsWithin(c, Step(c, s, a)) && Step(c, s, a).start == s.start
  {
    DivMonotone(s.now + c.skew, Step(c, s, a).now + c.skew);
    if a.Read? {
      DivMonotone(s.start - c.skew, a.wall);
      DivMonotone(a.wall, s.now + c.skew);
    }
  }

  lemma {:induction false} RunKeepsSeconds(c: Config, s: State, run: seq<Action>)
    requires SecondsWithin(c, s) && Valid(c, s, run)
    ensures SecondsWithin(c, Final(c, s, run)) && Final(c, s, run).start == s.start
    decreases run
  {
    if run != [] {
      StepKeepsSeconds(c, s, run[0]);
      RunKeepsSeconds(c, Step(c, s, run[0]), run[1..]);
    }
  }

  /** The run's clock readings take `seconds` seconds at most, and the two-minute expiry outlasts their keys. */
  predicate ShortRun(c: Config, start: int, now: int, seconds: nat) {
    && now - start + 2 * c.skew <= 1_000_000_000 * seconds
    && (c.lag + 2 * c.skew <= 1_000_000_000
        || (start - c.skew >= 60_000_000_000 && c.lag + 2 * c.skew <= 60_000_000_000))
  }

  lemma ShortRunOutlived(c: Config, start: int, now: int, seconds: nat)
    requires ShortRun(c, start, now, seconds) && start <= now
    ensures var first := (start - c.skew) / 1_000_000_000;
            var length := (now + c.skew) / 1_000_000_000 - first + 1;
            1 <= length <= seconds + 1 && WindowOutlived(c, first, length)
  {
    DivMonotone(start - c.skew, now + c.skew);
    DivMonotone(now + c.skew, start - c.skew + 1_000_000_000 * seconds);
    assert (start - c.skew + 1_000_000_000 * seconds) / 1_000_000_000 == (start - c.skew) / 1_000_000_000 + seconds;
  }

  /** The shared counters admit at most (ceil(seconds / 60) + 1) * 60 * rps requests of a tier on such a run. */
  lemma CountersInPlainTerms(c: Config, start: int, run: seq<Action>, tier: Tier, seconds: nat)
    requires Valid(c, Init(start), run) && ShortRun(c, start, Final(c, Init(start), run).now, seconds)
    ensures var rps := if tier.Admin? then c.adminRps else c.globalRps;
            |AdmittedByRedis(Final(c, Init(start), run), tier)| <= (CeilDiv(seconds, 60) + 1) * (60 * Max(0, rps))
  {
    var s := Final(c, Init(start), run);
    RunKeepsSeconds(c, Init(start), run);
    ShortRunOutlived(c, start, s.now, seconds);
    var first := (start - c.skew) / 1_000_000_000;
    var length := (s.now + c.skew) / 1_000_000_000 - first + 1;
    assert AdmittedByRedis(s, tier) == AdmittedInWindow(s, tier, first, length);
    SlidingWindow(c, start, run, tier, first, length);
    CeilDivMonotone(length - 1, seconds);
    MulMonotone(CeilDiv(length - 1, 60) + 1, CeilDiv(seconds, 60) + 1, Max(0, c.Budget(tier)));
  }

  lemma CeilDivMonotone(a: nat, b: nat)
    requires a <= b
    ensures CeilDiv(a, 60) <= CeilDiv(b, 60)
  {
  }

  /** A gateway's own bucket gives at most burst + rps * seconds requests of a tier on a run of that length. */
  lemma FallbackInPlainTerms(c: Config, start: int, run: seq<Action>, gateway: nat, tier: Tier, seconds: nat)
    requires Valid(c, Init(start), run) && Final(c, Init(start), run).now - start <= 1_000_000_000 * seconds
    ensures var rps := if tier.Admin? then c.adminRps else c.globalRps;
            var burst := if tier.Admin? then TruncDiv(c.burst, 2) else c.burst;
            |GivenBy(Final(c, Init(start), run), gateway, tier)| <= Max(0, burst) + Max(0, rps) * seconds
  {
    var s := Final(c, Init(start), run);
    GatewaySupply(c, start, run, gateway, tier);
    var rps := Max(c.Rps(tier), 0);
    MulMonotone(s.now - start, 1_000_000_000 * seconds, rps);
    Associate(rps, 1_000_000_000, seconds);
  }

  /**
   With exact clocks, a run of a minute admits at most 120 * rps requests by the counters, and burst + 60 * rps by each
   gateway's own bucket.
   */
  lemma MinuteInPlainTerms(c: Config, start: int, run: seq<Action>, gateway: nat, tier: Tier)
    requires Valid(c, Init(start), run) && c.lag == 0 && c.skew == 0
    requires Final(c, Init(start), run).now - start <= 60_000_000_000
    ensures var s := Final(c, Init(start), run);
            var rps := if tier.Admin? then c.adminRps else c.globalRps;
            var burst := if tier.Admin? then TruncDiv(c.burst, 2) else c.burst;
            && |AdmittedByRedis(s, tier)| <= 120 * Max(0, rps)
            && |GivenBy(s, gateway, tier)| <= Max(0, burst) + 60 * Max(0, rps)
  {
    CountersInPlainTerms(c, start, run, tier, 60);
    FallbackInPlainTerms(c, start, run, gateway, tier, 60);
  }
}
