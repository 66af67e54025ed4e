/** What a whole run of the distributed limiter admits: all keys, all gateways, and any stretch of clock readings. */
module RateLimitTotals {
  import opened Common
  import opened Arithmetic
  import opened TokenBucket
  import opened Keys
  import opened Redis
  import opened RateLimit

  /** Requests of the tier the shared counter let through. */
  function AdmittedByRedis(s: State, tier: Tier): set<nat> {
    set r | r in s.reqs && s.reqs[r].tier == tier && s.reqs[r].phase.ByRedis? && s.reqs[r].phase.ok
  }

  /** Requests of the tier let through by some gateway's own bucket. */
  function AdmittedByBucket(s: State, tier: Tier): set<nat> {
    set r | r in s.reqs && s.reqs[r].tier == tier && s.reqs[r].phase.ByBucket? && s.reqs[r].phase.ok
  }

  function GivenBy(s: State, gateway: nat, tier: Tier): set<nat> {
    set r | r in s.reqs && s.reqs[r].gateway == gateway && s.reqs[r].tier == tier
            && s.reqs[r].phase.ByBucket? && s.reqs[r].phase.ok
  }

  function Admitted(s: State, tier: Tier): set<nat> {
    set r | r in s.reqs && s.reqs[r].tier == tier
            && (s.reqs[r].phase.ByRedis? || s.reqs[r].phase.ByBucket?) && s.reqs[r].phase.ok
  }

  function Minutes(s: State, tier: Tier): set<int> {
    set r | r in s.reqs && s.reqs[r].tier == tier :: s.reqs[r].Minute()
  }

  function Gateways(s: State, tier: Tier): set<nat> {
    set r | r in s.reqs && s.reqs[r].tier == tier :: s.reqs[r].gateway
  }

  ghost predicate BucketInv(c: Config, s: State, gateway: nat, tier: Tier) {
    var b := BucketOf(c, s, gateway, tier);
    && b.last <= s.now
    && WithinSupply(b, c.Rps(tier), c.Burst(tier), 1, s.start, |GivenBy(s, gateway, tier)|)
  }

  lemma LocalKeepsBucketInv(c: Config, s: State, a: Action, gateway: nat, tier: Tier)
    requires BucketInv(c, s, gateway, tier) && Enabled(c, s, a) && a.Local?
    requires s.reqs[a.r].gateway == gateway && s.reqs[a.r].tier == tier
    ensures BucketInv(c, Step(c, s, a), gateway, tier)
  {
    LocalGives(c, s, a, gateway, tier);
    TakeKeepsWithinSupply(BucketOf(c, s, gateway, tier), c.Rps(tier), c.Burst(tier), 1, s.now, s.start,
                          |GivenBy(s, gateway, tier)|);
  }

  lemma LocalGives(c: Config, s: State, a: Action, gateway: nat, tier: Tier)
    requires Enabled(c, s, a) && a.Local? && s.reqs[a.r].gateway == gateway && s.reqs[a.r].tier == tier
    ensures var s' := Step(c, s, a);
            var (b, ok) := Take(BucketOf(c, s, gateway, tier), c.Rps(tier), c.Burst(tier), s.now);
            && BucketOf(c, s', gateway, tier) == b && s'.now == s.now && s'.start == s.start
            && |GivenBy(s', gateway, tier)| == |GivenBy(s, gateway, tier)| + if ok then 1 else 0
  {
    var s' := Step(c, s, a);
    var given := GivenBy(s, gateway, tier);
    assert GivenBy(s', gateway, tier) == if s'.reqs[a.r].phase.ok then given + {a.r} else given;
  }

  lemma OtherStepsGiveNothing(c: Config, s: State, a: Action, gateway: nat, tier: Tier)
    requires Enabled(c, s, a)
    requires a.Local? ==> s.reqs[a.r].gateway != gateway || s.reqs[a.r].tier != tier
    ensures GivenBy(Step(c, s, a), gateway, tier) == GivenBy(s, gateway, tier)
    ensures BucketOf(c, Step(c, s, a), gateway, tier) == BucketOf(c, s, gateway, tier)
  {
  }

  /** Only a fallback of this gateway and tier touches this bucket, and it gives out at most one token. */
  lemma StepKeepsBucketInv(c: Config, s: State, a: Action, gateway: nat, tier: Tier)
    requires BucketInv(c, s, gateway, tier) && Enabled(c, s, a)
    ensures BucketInv(c, Step(c, s, a), gateway, tier)
  {
    if a.Local? && s.reqs[a.r].gateway == gateway && s.reqs[a.r].tier == tier {
      LocalKeepsBucketInv(c, s, a, gateway, tier);
    } else {
      OtherStepsGiveNothing(c, s, a, gateway, tier);
    }
  }

  lemma {:induction false} RunKeepsBucketInv(c: Config, s: State, run: seq<Action>, gateway: nat, tier: Tier)
    requires BucketInv(c, s, gateway, tier) && Valid(c, s, run)
    ensures BucketInv(c, Final(c, s, run), gateway, tier)
    ensures Final(c, s, run).start == s.start
    decreases run
  {
    if run != [] {
      StepKeepsBucketInv(c, s, run[0], gateway, tier);
      RunKeepsBucketInv(c, Step(c, s, run[0]), run[1..], gateway, tier);
    }
  }

  /** One gateway's fallbacks over a run stay within its burst plus its rate times the elapsed time. */
  lemma GatewaySupply(c: Config, start: int, run: seq<Action>, gateway: nat, tier: Tier)
    requires Valid(c, Init(start), run)
    ensures var s := Final(c, Init(start), run);
            TOKEN * |GivenBy(s, gateway, tier)| <= Supply(c.Rps(tier), c.Burst(tier), 1, s.now - start)
  {
    assert GivenBy(Init(start), gateway, tier) == {};
    RunKeepsBucketInv(c, Init(start), run, gateway, tier);
    var s := Final(c, Init(start), run);
    SupplyGrows(c.Rps(tier), c.Burst(tier), 1, BucketOf(c, s, gateway, tier).last - start, s.now - start);
  }

  lemma FallbackTotal(c: Config, start: int, run: seq<Action>, tier: Tier)
    requires Valid(c, Init(start), run)
    ensures var s := Final(c, Init(start), run);
            TOKEN * |AdmittedByBucket(s, tier)| <=
              |Gateways(s, tier)| * Supply(c.Rps(tier), c.Burst(tier), 1, s.now - start)
  {
    var s := Final(c, Init(start), run);
    var owner := map r | r in s.reqs :: s.reqs[r].gateway;
    var supply := Supply(c.Rps(tier), c.Burst(tier), 1, s.now - start);
    forall g | g in Gateways(s, tier)
      ensures TOKEN * |Fiber(AdmittedByBucket(s, tier), owner, g)| <= supply
    {
      assert Fiber(AdmittedByBucket(s, tier), owner, g) == GivenBy(s, g, tier);
      GatewaySupply(c, start, run, g, tier);
    }
    FiberBound(AdmittedByBucket(s, tier), owner, Gateways(s, tier), TOKEN, supply);
  }

  /** Requests let through by counters of the minutes `ms` number at most one budget a minute. */
  lemma CounterTotal(c: Config, start: int, run: seq<Action>, tier: Tier, some: set<nat>, ms: set<int>)
    requires Valid(c, Init(start), run)
    requires some <= AdmittedByRedis(Final(c, Init(start), run), tier)
    requires forall r :: r in some ==> Final(c, Init(start), run).reqs[r].Minute() in ms
    requires forall m :: m in ms ==> OutlivesWindow(c, m)
    ensures |some| <= |ms| * Max(0, c.Budget(tier))
  {
    var s := Final(c, Init(start), run);
    var minute := map r | r in s.reqs :: s.reqs[r].Minute();
    forall m | m in ms
      ensures 1 * |Fiber(some, minute, m)| <= Max(0, c.Budget(tier))
    {
      BudgetHoldsWhenOutlived(c, tier, m);
      var all := AdmittedOnKey(s, tier, m);
      assert Fiber(some, minute, m) <= all;
      SubsetSize(Fiber(some, minute, m), all);
    }
    FiberBound(some, minute, ms, 1, Max(0, c.Budget(tier)));
  }

  lemma {:induction false} SubsetSize(a: set<nat>, b: set<nat>)
    requires a <= b
    ensures |a| <= |b|
  {
    assert |b| == |a| + |b - a|;
  }

  /**
   Whatever INCRs fail, get lost or are resent: a run admits at most one budget for each minute key it touches,
   plus burst + rate * elapsed for each gateway.  Both sides are in billionths of a request.
   */
  lemma RunBudget(c: Config, start: int, run: seq<Action>, tier: Tier)
    requires Valid(c, Init(start), run)
    requires forall m :: m in Minutes(Final(c, Init(start), run), tier) ==> OutlivesWindow(c, m)
    ensures var s := Final(c, Init(start), run);
            TOKEN * |Admitted(s, tier)| <=
              TOKEN * (|Minutes(s, tier)| * Max(0, c.Budget(tier)))
              + |Gateways(s, tier)| * Supply(c.Rps(tier), c.Burst(tier), 1, s.now - start)
  {
    var s := Final(c, Init(start), run);
    CounterTotal(c, start, run, tier, AdmittedByRedis(s, tier), Minutes(s, tier));
    FallbackTotal(c, start, run, tier);
    assert Admitted(s, tier) == AdmittedByRedis(s, tier) + AdmittedByBucket(s, tier);
    assert AdmittedByRedis(s, tier) !! AdmittedByBucket(s, tier);
  }

  function AdmittedInWindow(s: State, tier: Tier, first: int, length: nat): set<nat> {
    set r | r in AdmittedByRedis(s, tier) && first <= s.reqs[r].second < first + length
  }

  function CeilDiv(a: nat, b: nat): nat
    requires b > 0
  {
    (a + b - 1) / b
  }

  /** `length` consecutive seconds meet at most ceil((length - 1) / 60) + 1 minute keys. */
  lemma MinutesOfWindow(first: int, length: nat)
    requires length >= 1
    ensures TruncDiv(first + length - 1, 60) - TruncDiv(first, 60) <= CeilDiv(length - 1, 60)
    ensures forall x :: first <= x < first + length ==>
              TruncDiv(first, 60) <= TruncDiv(x, 60) <= TruncDiv(first + length - 1, 60)
  {
  }

  /** The expiry outlasts the window of every key that `length` seconds from `first` on can meet. */
  predicate WindowOutlived(c: Config, first: int, length: nat) {
    forall m :: TruncDiv(first, 60) <= m <= TruncDiv(first + length - 1, 60) ==> OutlivesWindow(c, m)
  }

  lemma WindowKeys(c: Config, s: State, tier: Tier, first: int, length: nat) returns (ms: set<int>)
    requires length >= 1 && WindowOutlived(c, first, length)
    ensures forall r :: r in AdmittedInWindow(s, tier, first, length) ==> s.reqs[r].Minute() in ms
    ensures forall m :: m in ms ==> OutlivesWindow(c, m)
    ensures |ms| <= CeilDiv(length - 1, 60) + 1
  {
    ms := Range(TruncDiv(first, 60), TruncDiv(first + length - 1, 60));
    MinutesOfWindow(first, length);
  }

  /** In any stretch of `length` seconds of clock readings the shared counters admit so many requests. */
  lemma SlidingWindow(c: Config, start: int, run: seq<Action>, tier: Tier, first: int, length: nat)
    requires Valid(c, Init(start), run) && length >= 1 && WindowOutlived(c, first, length)
    ensures |AdmittedInWindow(Final(c, Init(start), run), tier, first, length)|
              <= (CeilDiv(length - 1, 60) + 1) * Max(0, c.Budget(tier))
  {
    var s := Final(c, Init(start), run);
    var ms := WindowKeys(c, s, tier, first, length);
    CounterTotal(c, start, run, tier, AdmittedInWindow(s, tier, first, length), ms);
    MulMonotone(|ms|, CeilDiv(length - 1, 60) + 1, Max(0, c.Budget(tier)));
  }

  lemma MinuteProduct(c: Config, tier: Tier)
    ensures CeilDiv(59, 60) + 1 == 2 && 2 * Max(0, c.Budget(tier)) == 120 * Max(0, c.Rps(tier))
  {
  }

  /** So at most 120 * rps in any 60 seconds. */
  lemma SlidingMinute(c: Config, start: int, run: seq<Action>, tier: Tier, first: int)
    requires Valid(c, Init(start), run) && WindowOutlived(c, first, 60)
    ensures |AdmittedInWindow(Final(c, Init(start), run), tier, first, 60)| <= 120 * Max(0, c.Rps(tier))
  {
    SlidingWindow(c, start, run, tier, first, 60);
    MinuteProduct(c, tier);
  }

  // ----- A counter that never expires -----

  predicate WithoutDeadline(s: State, tier: Tier, m: int) {
    var key := RateKey(TierName(tier), m);
    key in s.store && s.store[key].deadline == None
  }

  /** No EXPIRE for this counter can still execute. */
  predicate NothingExpiring(s: State, tier: Tier, m: int) {
    forall r :: r in s.reqs && OnKey(s.reqs[r], tier, m) ==> !s.reqs[r].expiring
  }

  /** The counter exists without a deadline, and nothing can give it one any more. */
  predicate Orphaned(s: State, tier: Tier, m: int) {
    WithoutDeadline(s, tier, m) && NothingExpiring(s, tier, m)
  }

  predicate Counting(s: State, tier: Tier, m: int) {
    var key := RateKey(TierName(tier), m);
    key in s.store && s.store[key].value.Counter? && s.store[key].value.n >= 1
  }

  lemma StepKeepsOrphaned(c: Config, s: State, a: Action, tier: Tier, m: int)
    requires Orphaned(s, tier, m) && Counting(s, tier, m) && Enabled(c, s, a)
    ensures Orphaned(Step(c, s, a), tier, m) && Counting(Step(c, s, a), tier, m)
    ensures Seen(Step(c, s, a), tier, m) >= Seen(s, tier, m)
  {
    if !a.Tick? && a.r in s.reqs {
      KeyApart(s.reqs[a.r], tier, m);
    }
  }

  lemma {:induction false} OrphanedForever(c: Config, s: State, run: seq<Action>, tier: Tier, m: int)
    requires Orphaned(s, tier, m) && Counting(s, tier, m) && Valid(c, s, run)
    ensures Orphaned(Final(c, s, run), tier, m) && Seen(Final(c, s, run), tier, m) >= Seen(s, tier, m)
    decreases run
  {
    if run != [] {
      StepKeepsOrphaned(c, s, run[0], tier, m);
      OrphanedForever(c, Step(c, s, run[0]), run[1..], tier, m);
    }
  }

  /** In every continuation the counter is still there and has no deadline. */
  ghost predicate NeverExpires(c: Config, s: State, tier: Tier, m: int) {
    forall run: seq<Action> :: Valid(c, s, run) ==> WithoutDeadline(Final(c, s, run), tier, m)
  }

  lemma LandGivesDeadline(c: Config, s: State, r: nat)
    requires r in s.reqs && s.reqs[r].expiring && WithoutDeadline(s, s.reqs[r].tier, s.reqs[r].Minute())
    ensures Valid(c, s, [Land(r)]) && !WithoutDeadline(Final(c, s, [Land(r)]), s.reqs[r].tier, s.reqs[r].Minute())
  {
    assert [Land(r)][1..] == [];
  }

  /**
   At every moment of every run, a counter stays in Redis for good exactly when it has no deadline and no EXPIRE
   for it can still execute.
   */
  lemma NeverExpiresIff(c: Config, start: int, run: seq<Action>, tier: Tier, m: int)
    requires Valid(c, Init(start), run)
    ensures NeverExpires(c, Final(c, Init(start), run), tier, m) <==> Orphaned(Final(c, Init(start), run), tier, m)
  {
    RunKeepsCountsPositive(c, Init(start), run);
    var s := Final(c, Init(start), run);
    if Orphaned(s, tier, m) {
      forall more: seq<Action> | Valid(c, s, more)
        ensures WithoutDeadline(Final(c, s, more), tier, m)
      {
        OrphanedForever(c, s, more, tier, m);
      }
    }
    if NeverExpires(c, s, tier, m) {
      assert Valid(c, s, []) && Final(c, s, []) == s;
      forall r | r in s.reqs && OnKey(s.reqs[r], tier, m)
        ensures !s.reqs[r].expiring
      {
        if s.reqs[r].expiring {
          LandGivesDeadline(c, s, r);
        }
      }
    }
  }
}
