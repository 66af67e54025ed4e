/**
 The distributed rate limiter as a protocol.  Any number of gateways share one Redis counter per tier and
 minute; every request is several separate steps, and steps of different requests interleave freely.
 */
module RateLimit {
  import opened Common
  import opened Keys
  import opened Redis
  import opened TokenBucket

  const SECOND := 1_000_000_000

  /** The two minutes given to EXPIRE. */
  const COUNTER_TTL := 120 * SECOND

  datatype Tier = Global | Admin

  function TierName(tier: Tier): string {
    if tier.Admin? then "admin" else "global"
  }

  lemma TierNameInjective(t: Tier, u: Tier)
    ensures TierName(t) == TierName(u) ==> t == u
  {
    assert "global"[0] != "admin"[0];
  }

  /**
   What a run may assume.  `lag` bounds the time from a gateway's clock reading to its INCR reaching the
   server, `skew` bounds how far a gateway's clock is from the server's.
   */
  datatype Config = Config(lag: nat, skew: nat, globalRps: int, adminRps: int, burst: int) {
    function Rps(tier: Tier): int {
      if tier.Admin? then adminRps else globalRps
    }
    function Burst(tier: Tier): int {
      if tier.Admin? then TruncDiv(burst, 2) else burst
    }
    function Budget(tier: Tier): int {
      Rps(tier) * 60
    }
  }

  datatype Phase =
    | Keyed                          // clock read, key formed
    | Counted(count: int)            // INCR answered 1: EXPIRE is still to be sent
    | Checked(count: int)            // only the comparison is left
    | Faulted                        // INCR failed for the client: on to the local bucket
    | ByRedis(count: int, ok: bool)  // decided by the counter
    | ByBucket(ok: bool)             // decided by the gateway's own bucket
  {
    predicate HasCount() {
      Counted? || Checked? || ByRedis?
    }
  }

  /** `expiring` says that an EXPIRE of the request may still execute. */
  datatype Request = Request(gateway: nat, tier: Tier, second: int, readAt: int, phase: Phase, expiring: bool) {
    function Minute(): int {
      TruncDiv(second, 60)
    }
    function Key(): string {
      RateKey(TierName(tier), Minute())
    }
  }

  /** `now` is the server's clock, `start` its value when the run began. */
  datatype State = State(start: int, now: int, store: Store, buckets: map<(nat, Tier), Bucket>, reqs: map<nat, Request>)

  function Init(start: int): State {
    State(start, start, map[], map[], map[])
  }

  function BucketOf(c: Config, s: State, gateway: nat, tier: Tier): Bucket {
    if (gateway, tier) in s.buckets then s.buckets[(gateway, tier)] else NewBucket(c.Burst(tier), s.start)
  }

  datatype Action =
    | Tick(dt: nat)
    | Read(r: nat, gateway: nat, tier: Tier, wall: int)  // the gateway's clock shows `wall`
    | Answer(r: nat)    // INCR executes and its answer arrives
    | Stray(r: nat)     // an INCR sent for r executes, but that answer never counts: lost, or resent by the client
    | Fault(r: nat)     // the client sees an error instead of an answer
    | Land(r: nat)      // an EXPIRE sent for r executes
    | Quit(r: nat)      // no EXPIRE of r will execute from here on: it is done, was refused, or was never sent
    | Proceed(r: nat)   // the client goes on after EXPIRE, whatever became of it
    | Decide(r: nat)    // compare the count with the budget
    | Local(r: nat)     // draw on the local bucket

  predicate Enabled(c: Config, s: State, a: Action) {
    match a
    case Tick(_) => true
    case Read(r, _, _, wall) => r !in s.reqs && s.now - c.skew <= wall <= s.now + c.skew
    case Answer(r) => r in s.reqs && s.reqs[r].phase.Keyed? && s.now <= s.reqs[r].readAt + c.lag
    case Stray(r) => r in s.reqs && s.now <= s.reqs[r].readAt + c.lag
    case Fault(r) => r in s.reqs && s.reqs[r].phase.Keyed?
    case Land(r) => r in s.reqs && s.reqs[r].expiring
    case Quit(r) => r in s.reqs && s.reqs[r].expiring
    case Proceed(r) => r in s.reqs && s.reqs[r].phase.Counted?
    case Decide(r) => r in s.reqs && s.reqs[r].phase.Checked?
    case Local(r) => r in s.reqs && s.reqs[r].phase.Faulted?
  }

  function Moved(s: State, r: nat, phase: Phase, expiring: bool): State
    requires r in s.reqs
  {
    s.(reqs := s.reqs[r := s.reqs[r].(phase := phase, expiring := expiring)])
  }

  function AfterIncr(answer: Option<int>): Phase {
    match answer
    case None => Faulted
    case Some(n) => if n == 1 then Counted(n) else Checked(n)
  }

  function Step(c: Config, s: State, a: Action): State
    requires Enabled(c, s, a)
  {
    match a
    case Tick(dt) => s.(now := s.now + dt)
    case Read(r, g, tier, wall) => s.(reqs := s.reqs[r := Request(g, tier, wall / SECOND, s.now, Keyed, false)])
    case Answer(r) =>
      var (store, answer) := Incr(s.store, s.reqs[r].Key(), s.now);
      Moved(s, r, AfterIncr(answer), answer == Some(1)).(store := store)
    case Stray(r) => s.(store := Incr(s.store, s.reqs[r].Key(), s.now).0)
    case Fault(r) => Moved(s, r, Faulted, s.reqs[r].expiring)
    case Land(r) => s.(store := Expire(s.store, s.reqs[r].Key(), s.now, COUNTER_TTL))
    case Quit(r) => Moved(s, r, s.reqs[r].phase, false)
    case Proceed(r) => Moved(s, r, Checked(s.reqs[r].phase.count), s.reqs[r].expiring)
    case Decide(r) =>
      var n := s.reqs[r].phase.count;
      Moved(s, r, ByRedis(n, n <= c.Budget(s.reqs[r].tier)), s.reqs[r].expiring)
    case Local(r) =>
      var q := s.reqs[r];
      var (b, ok) := Take(BucketOf(c, s, q.gateway, q.tier), c.Rps(q.tier), c.Burst(q.tier), s.now);
      Moved(s, r, ByBucket(ok), q.expiring).(buckets := s.buckets[(q.gateway, q.tier) := b])
  }

  predicate Valid(c: Config, s: State, run: seq<Action>)
    decreases run
  {
    run == [] || (Enabled(c, s, run[0]) && Valid(c, Step(c, s, run[0]), run[1..]))
  }

  function Final(c: Config, s: State, run: seq<Action>): State
    requires Valid(c, s, run)
    decreases run
  {
    if run == [] then s else Final(c, Step(c, s, run[0]), run[1..])
  }

  // ----- The window of clock readings that share a key -----

  /** Readings with key `m` are those in [WindowStart(m), WindowEnd(m)). */
  function WindowStart(m: int): int {
    (if m > 0 then 60 * m else 60 * m - 59) * SECOND
  }

  function WindowEnd(m: int): int {
    (if m >= 0 then 60 * m + 60 else 60 * m + 1) * SECOND
  }

  /** Go's division truncates, so key 0 serves 119 seconds around the epoch and every other key serves 60. */
  lemma WindowOfKey(wall: int, m: int)
    ensures TruncDiv(wall / SECOND, 60) == m <==> WindowStart(m) <= wall < WindowEnd(m)
    ensures WindowEnd(m) - WindowStart(m) == (if m == 0 then 119 else 60) * SECOND
  {
  }

  /** The two-minute expiry outlasts everything that can still reach the key. */
  predicate OutlivesWindow(c: Config, m: int) {
    WindowEnd(m) - WindowStart(m) + c.lag + 2 * c.skew <= COUNTER_TTL
  }

  predicate OnKey(q: Request, tier: Tier, m: int) {
    q.tier == tier && q.Minute() == m
  }

  /** Requests of the tier that the counter of minute `m` let through. */
  function AdmittedOnKey(s: State, tier: Tier, m: int): set<nat> {
    set r | r in s.reqs && OnKey(s.reqs[r], tier, m) && s.reqs[r].phase.ByRedis? && s.reqs[r].phase.ok
  }

  // ----- The invariant of one counter -----

  ghost predicate CounterInv(c: Config, s: State, tier: Tier, m: int) {
    var key := RateKey(TierName(tier), m);
    key in s.store ==>
      && s.store[key].value.Counter?
      && (s.store[key].deadline.Some? ==> s.store[key].deadline.value >= WindowStart(m) - c.skew + COUNTER_TTL)
  }

  /** How many INCRs the counter has seen since it was last created. */
  function Seen(s: State, tier: Tier, m: int): int {
    var key := RateKey(TierName(tier), m);
    if key in s.store && s.store[key].value.Counter? then s.store[key].value.n else 0
  }

  ghost predicate RequestInv(c: Config, s: State, q: Request, m: int) {
    && q.readAt <= s.now
    && WindowStart(m) - c.skew <= q.readAt < WindowEnd(m) + c.skew
    && (q.phase.HasCount() ==> 1 <= q.phase.count <= Seen(s, q.tier, m))
    && (q.phase.ByRedis? ==> q.phase.ok == (q.phase.count <= c.Budget(q.tier)))
  }

  ghost predicate KeyInv(c: Config, s: State, tier: Tier, m: int) {
    && CounterInv(c, s, tier, m)
    && Seen(s, tier, m) >= 0
    && (forall r :: r in s.reqs && OnKey(s.reqs[r], tier, m) ==> RequestInv(c, s, s.reqs[r], m))
    && (forall r, r' :: r in s.reqs && r' in s.reqs && r != r'
          && OnKey(s.reqs[r], tier, m) && OnKey(s.reqs[r'], tier, m)
          && s.reqs[r].phase.HasCount() && s.reqs[r'].phase.HasCount()
          ==> s.reqs[r].phase.count != s.reqs[r'].phase.count)
  }

  /** No INCR that can still happen finds its key expired. */
  lemma IncrFindsKeyLive(c: Config, s: State, r: nat)
    requires r in s.reqs && KeyInv(c, s, s.reqs[r].tier, s.reqs[r].Minute())
    requires OutlivesWindow(c, s.reqs[r].Minute())
    requires s.now <= s.reqs[r].readAt + c.lag
    ensures s.reqs[r].Key() in s.store ==> Live(s.store, s.reqs[r].Key(), s.now)
  {
    assert OnKey(s.reqs[r], s.reqs[r].tier, s.reqs[r].Minute());
  }

  lemma KeyApart(q: Request, tier: Tier, m: int)
    ensures q.Key() == RateKey(TierName(tier), m) <==> OnKey(q, tier, m)
  {
    TierNameInjective(q.tier, tier);
    RateKeyInjective(TierName(q.tier), q.Minute(), TierName(tier), m);
  }

  /** A request that only moves on, keeping its count or dropping it, disturbs nothing. */
  lemma MoveKeepsKeyInv(c: Config, s: State, r: nat, phase: Phase, expiring: bool, tier: Tier, m: int)
    requires KeyInv(c, s, tier, m) && r in s.reqs
    requires phase.HasCount() ==> s.reqs[r].phase.HasCount() && phase.count == s.reqs[r].phase.count
    requires phase.ByRedis? ==> phase == s.reqs[r].phase || phase.ok == (phase.count <= c.Budget(s.reqs[r].tier))
    ensures KeyInv(c, Moved(s, r, phase, expiring), tier, m)
  {
  }

  lemma OwnMoveKeepsKeyInv(c: Config, s: State, a: Action, tier: Tier, m: int)
    requires KeyInv(c, s, tier, m) && Enabled(c, s, a) && (a.Fault? || a.Quit? || a.Proceed? || a.Decide? || a.Local?)
    ensures KeyInv(c, Step(c, s, a), tier, m)
  {
    var q := Step(c, s, a).reqs[a.r];
    MoveKeepsKeyInv(c, s, a.r, q.phase, q.expiring, tier, m);
    assert Step(c, s, a).reqs == Moved(s, a.r, q.phase, q.expiring).reqs;
  }

  lemma ReadKeepsKeyInv(c: Config, s: State, a: Action, tier: Tier, m: int)
    requires KeyInv(c, s, tier, m) && a.Read? && Enabled(c, s, a)
    ensures KeyInv(c, Step(c, s, a), tier, m)
  {
    WindowOfKey(a.wall, m);
  }

  /** INCR on this key: the counter goes up by one, and every count handed out so far is below it. */
  lemma StrayKeepsKeyInv(c: Config, s: State, a: Action, tier: Tier, m: int)
    requires KeyInv(c, s, tier, m) && OutlivesWindow(c, m) && a.Stray? && Enabled(c, s, a)
    ensures KeyInv(c, Step(c, s, a), tier, m)
    ensures var answer := Incr(s.store, s.reqs[a.r].Key(), s.now).1;
            var s' := Step(c, s, a);
            OnKey(s.reqs[a.r], tier, m) && answer.Some? ==> answer.value == Seen(s', tier, m) == Seen(s, tier, m) + 1
    ensures Seen(Step(c, s, a), tier, m) >= Seen(s, tier, m)
  {
    KeyApart(s.reqs[a.r], tier, m);
    if OnKey(s.reqs[a.r], tier, m) {
      IncrFindsKeyLive(c, s, a.r);
    }
  }

  lemma AnswerKeepsKeyInv(c: Config, s: State, a: Action, tier: Tier, m: int)
    requires KeyInv(c, s, tier, m) && OutlivesWindow(c, m) && a.Answer? && Enabled(c, s, a)
    ensures KeyInv(c, Step(c, s, a), tier, m)
  {
    StrayKeepsKeyInv(c, s, Stray(a.r), tier, m);
    var answer := Incr(s.store, s.reqs[a.r].Key(), s.now).1;
    CountKeepsKeyInv(c, s, Step(c, s, Stray(a.r)), a.r, AfterIncr(answer), answer == Some(1), tier, m);
    assert Step(c, s, a) == Moved(Step(c, s, Stray(a.r)), a.r, AfterIncr(answer), answer == Some(1));
  }

  /** A request that takes the counter's newest count differs from all that hold older ones. */
  lemma CountKeepsKeyInv(c: Config, s: State, s': State, r: nat, phase: Phase, expiring: bool, tier: Tier, m: int)
    requires KeyInv(c, s, tier, m) && KeyInv(c, s', tier, m) && s'.reqs == s.reqs && r in s.reqs
    requires !phase.ByRedis?
    requires OnKey(s.reqs[r], tier, m) && phase.HasCount() ==> phase.count == Seen(s', tier, m) == Seen(s, tier, m) + 1
    ensures KeyInv(c, Moved(s', r, phase, expiring), tier, m)
  {
  }

  lemma LandKeepsKeyInv(c: Config, s: State, a: Action, tier: Tier, m: int)
    requires KeyInv(c, s, tier, m) && a.Land? && Enabled(c, s, a)
    ensures KeyInv(c, Step(c, s, a), tier, m)
  {
    KeyApart(s.reqs[a.r], tier, m);
  }

  lemma StepKeepsKeyInv(c: Config, s: State, a: Action, tier: Tier, m: int)
    requires KeyInv(c, s, tier, m) && OutlivesWindow(c, m) && Enabled(c, s, a)
    ensures KeyInv(c, Step(c, s, a), tier, m)
  {
    match a
    case Tick(_) =>
    case Read(_, _, _, _) => ReadKeepsKeyInv(c, s, a, tier, m);
    case Answer(_) => AnswerKeepsKeyInv(c, s, a, tier, m);
    case Stray(_) => StrayKeepsKeyInv(c, s, a, tier, m);
    case Land(_) => LandKeepsKeyInv(c, s, a, tier, m);
    case Fault(_) => OwnMoveKeepsKeyInv(c, s, a, tier, m);
    case Quit(_) => OwnMoveKeepsKeyInv(c, s, a, tier, m);
    case Proceed(_) => OwnMoveKeepsKeyInv(c, s, a, tier, m);
    case Decide(_) => OwnMoveKeepsKeyInv(c, s, a, tier, m);
    case Local(_) => OwnMoveKeepsKeyInv(c, s, a, tier, m);
  }

  lemma {:induction false} RunKeepsKeyInv(c: Config, s: State, run: seq<Action>, tier: Tier, m: int)
    requires KeyInv(c, s, tier, m) && OutlivesWindow(c, m) && Valid(c, s, run)
    ensures KeyInv(c, Final(c, s, run), tier, m)
    decreases run
  {
    if run != [] {
      StepKeepsKeyInv(c, s, run[0], tier, m);
      RunKeepsKeyInv(c, Step(c, s, run[0]), run[1..], tier, m);
    }
  }

  lemma BudgetOfKey(c: Config, s: State, tier: Tier, m: int)
    requires KeyInv(c, s, tier, m)
    ensures |AdmittedOnKey(s, tier, m)| <= Max(0, c.Budget(tier))
  {
    var admitted := AdmittedOnKey(s, tier, m);
    var rank := map r | r in admitted :: s.reqs[r].phase.count;
    InjectiveBound(admitted, rank, c.Budget(tier));
  }

  // ----- The budget of one minute key, and exactly when it holds -----

  /** On every run of every length, the counter of this minute lets through at most its budget. */
  ghost predicate BudgetHolds(c: Config, tier: Tier, m: int) {
    forall start: int, run: seq<Action> :: Valid(c, Init(start), run) ==>
      |AdmittedOnKey(Final(c, Init(start), run), tier, m)| <= Max(0, c.Budget(tier))
  }

  lemma BudgetHoldsWhenOutlived(c: Config, tier: Tier, m: int)
    requires OutlivesWindow(c, m)
    ensures BudgetHolds(c, tier, m)
  {
    forall start: int, run: seq<Action> | Valid(c, Init(start), run)
      ensures |AdmittedOnKey(Final(c, Init(start), run), tier, m)| <= Max(0, c.Budget(tier))
    {
      RunKeepsKeyInv(c, Init(start), run, tier, m);
      BudgetOfKey(c, Final(c, Init(start), run), tier, m);
    }
  }

  /** Counts are positive, so a tier without a budget admits nothing, expiry or not. */
  ghost predicate CountsArePositive(c: Config, s: State) {
    && (forall k :: k in s.store ==> s.store[k].value.Counter? && s.store[k].value.n >= 1)
    && (forall r :: r in s.reqs ==>
          && (s.reqs[r].phase.HasCount() ==> s.reqs[r].phase.count >= 1)
          && (s.reqs[r].phase.ByRedis? ==> s.reqs[r].phase.ok == (s.reqs[r].phase.count <= c.Budget(s.reqs[r].tier))))
  }

  lemma StepKeepsCountsPositive(c: Config, s: State, a: Action)
    requires CountsArePositive(c, s) && Enabled(c, s, a)
    ensures CountsArePositive(c, Step(c, s, a))
  {
  }

  lemma {:induction false} RunKeepsCountsPositive(c: Config, s: State, run: seq<Action>)
    requires CountsArePositive(c, s) && Valid(c, s, run)
    ensures CountsArePositive(c, Final(c, s, run))
    decreases run
  {
    if run != [] {
      StepKeepsCountsPositive(c, s, run[0]);
      RunKeepsCountsPositive(c, Step(c, s, run[0]), run[1..]);
    }
  }

  /**
   The state a burst of `k` admitted requests leaves: one live counter at `k`, due to expire two minutes after `s.now`.
   */
  ghost predicate BurstState(c: Config, s: State, tier: Tier, m: int, k: nat) {
    && s.now == WindowStart(m) - c.skew
    && (forall r :: r in s.reqs ==> r < k)
    && |AdmittedOnKey(s, tier, m)| == k
    && var key := RateKey(TierName(tier), m);
       if k == 0 then key !in s.store
       else key in s.store && s.store[key] == Entry(Counter(k), Some(s.now + COUNTER_TTL))
  }

  /** The steps of one request that is served without delay. */
  function Prompt(r: nat, tier: Tier, wall: int, first: bool): seq<Action> {
    [Read(r, 0, tier, wall), Answer(r)] + if first then [Land(r), Proceed(r), Decide(r)] else [Decide(r)]
  }

  lemma {:induction false} RunsCompose(c: Config, s: State, run: seq<Action>, more: seq<Action>)
    requires Valid(c, s, run) && Valid(c, Final(c, s, run), more)
    ensures Valid(c, s, run + more)
    ensures Final(c, s, run + more) == Final(c, Final(c, s, run), more)
    decreases run
  {
    if run == [] {
      assert run + more == more;
    } else {
      RunsCompose(c, Step(c, s, run[0]), run[1..], more);
      assert (run + more)[0] == run[0] && (run + more)[1..] == run[1..] + more;
    }
  }

  lemma StepThen(c: Config, s: State, a: Action, run: seq<Action>)
    requires Enabled(c, s, a) && Valid(c, Step(c, s, a), run)
    ensures Valid(c, s, [a] + run) && Final(c, s, [a] + run) == Final(c, Step(c, s, a), run)
  {
    assert ([a] + run)[1..] == run;
  }

  lemma RunOfTwo(c: Config, s: State, a: Action, a': Action)
    requires Enabled(c, s, a) && Enabled(c, Step(c, s, a), a')
    ensures Valid(c, s, [a, a']) && Final(c, s, [a, a']) == Step(c, Step(c, s, a), a')
  {
    StepThen(c, Step(c, s, a), a', []);
    StepThen(c, s, a, [a'] + []);
    assert [a] + ([a'] + []) == [a, a'];
  }

  lemma RunOfThree(c: Config, s: State, a: Action, a': Action, a'': Action)
    requires Enabled(c, s, a) && Enabled(c, Step(c, s, a), a') && Enabled(c, Step(c, Step(c, s, a), a'), a'')
    ensures Valid(c, s, [a, a', a''])
    ensures Final(c, s, [a, a', a'']) == Step(c, Step(c, Step(c, s, a), a'), a'')
  {
    RunOfTwo(c, Step(c, s, a), a', a'');
    StepThen(c, s, a, [a', a'']);
    assert [a] + [a', a''] == [a, a', a''];
  }

  lemma AdmitOne(s: State, s': State, r: nat, tier: Tier, m: int)
    requires r !in s.reqs && r in s'.reqs && s'.reqs == s.reqs[r := s'.reqs[r]]
    requires OnKey(s'.reqs[r], tier, m) && s'.reqs[r].phase.ByRedis? && s'.reqs[r].phase.ok
    ensures |AdmittedOnKey(s', tier, m)| == |AdmittedOnKey(s, tier, m)| + 1
  {
    assert AdmittedOnKey(s', tier, m) == AdmittedOnKey(s, tier, m) + {r};
  }

  lemma BurstGrows(c: Config, s: State, s': State, tier: Tier, m: int, k: nat)
    requires BurstState(c, s, tier, m, k) && s'.now == s.now
    requires k in s'.reqs && s'.reqs == s.reqs[k := s'.reqs[k]]
    requires OnKey(s'.reqs[k], tier, m) && s'.reqs[k].phase == ByRedis(k + 1, true)
    requires var key := RateKey(TierName(tier), m);
             key in s'.store && s'.store[key] == Entry(Counter(k + 1), Some(s.now + COUNTER_TTL))
    ensures BurstState(c, s', tier, m, k + 1)
  {
    AdmitOne(s, s', k, tier, m);
  }

  /** The first INCR of a minute answers 1. */
  lemma FirstAnswer(c: Config, s: State, read: Action, q: Request)
    requires read.Read? && Enabled(c, s, read) && q.Key() !in s.store
    requires q == Request(read.gateway, read.tier, read.wall / SECOND, s.now, Counted(1), true)
    ensures var run := [read, Answer(read.r)];
            Valid(c, s, run) && Final(c, s, run) ==
              s.(store := s.store[q.Key() := Entry(Counter(1), None)], reqs := s.reqs[read.r := q])
  {
    assert Step(c, s, read).reqs[read.r].Key() == q.Key();
    RunOfTwo(c, s, read, Answer(read.r));
  }

  /** After which its key gets a deadline, and the request is let through. */
  lemma FirstAdmitted(c: Config, s: State, r: nat)
    requires r in s.reqs && s.reqs[r].phase == Counted(1) && s.reqs[r].expiring && c.Budget(s.reqs[r].tier) >= 1
    requires s.reqs[r].Key() in s.store && s.store[s.reqs[r].Key()] == Entry(Counter(1), None)
    ensures var run := [Land(r), Proceed(r), Decide(r)];
            Valid(c, s, run) && Final(c, s, run) ==
              s.(store := s.store[s.reqs[r].Key() := Entry(Counter(1), Some(s.now + COUNTER_TTL))],
                 reqs := s.reqs[r := s.reqs[r].(phase := ByRedis(1, true))])
  {
    var key := s.reqs[r].Key();
    var s1 := s.(store := s.store[key := Entry(Counter(1), Some(s.now + COUNTER_TTL))]);
    assert Step(c, s, Land(r)) == s1;
    Compared(c, s1, r);
    StepThen(c, s, Land(r), [Proceed(r), Decide(r)]);
    assert [Land(r)] + [Proceed(r), Decide(r)] == [Land(r), Proceed(r), Decide(r)];
  }

  /** After EXPIRE the count is compared with the budget. */
  lemma Compared(c: Config, s: State, r: nat)
    requires r in s.reqs && s.reqs[r].phase == Counted(1) && c.Budget(s.reqs[r].tier) >= 1
    ensures var run := [Proceed(r), Decide(r)];
            Valid(c, s, run) && Final(c, s, run) == s.(reqs := s.reqs[r := s.reqs[r].(phase := ByRedis(1, true))])
  {
    RunOfTwo(c, s, Proceed(r), Decide(r));
  }

  lemma FirstServed(c: Config, s: State, read: Action, q: Request)
    requires read.Read? && Enabled(c, s, read) && q.Key() !in s.store && c.Budget(q.tier) >= 1
    requires q == Request(read.gateway, read.tier, read.wall / SECOND, s.now, Counted(1), true)
    ensures var r := read.r;
            var run := [read, Answer(r)] + [Land(r), Proceed(r), Decide(r)];
            Valid(c, s, run) && Final(c, s, run) ==
              s.(store := s.store[q.Key() := Entry(Counter(1), Some(s.now + COUNTER_TTL))],
                 reqs := s.reqs[r := q.(phase := ByRedis(1, true))])
  {
    var r := read.r;
    FirstAnswer(c, s, read, q);
    FirstAdmitted(c, s.(store := s.store[q.Key() := Entry(Counter(1), None)], reqs := s.reqs[r := q]), r);
    RunsCompose(c, s, [read, Answer(r)], [Land(r), Proceed(r), Decide(r)]);
  }

  lemma BurstFirst(c: Config, s: State, tier: Tier, m: int)
    requires BurstState(c, s, tier, m, 0) && 0 < c.Budget(tier)
    ensures var run := Prompt(0, tier, WindowStart(m), true);
            Valid(c, s, run) && BurstState(c, Final(c, s, run), tier, m, 1)
  {
    WindowOfKey(WindowStart(m), m);
    var read := Read(0, 0, tier, WindowStart(m));
    var q := Request(0, tier, WindowStart(m) / SECOND, s.now, Counted(1), true);
    assert q.Key() == RateKey(TierName(tier), m);
    FirstServed(c, s, read, q);
    BurstGrows(c, s, Final(c, s, Prompt(0, tier, WindowStart(m), true)), tier, m, 0);
  }

  /** A later request of the burst takes the next count. */
  lemma NextAdmitted(c: Config, s: State, read: Action, k: nat, deadline: int)
    requires read.Read? && Enabled(c, s, read) && 0 < k < c.Budget(read.tier) && k < MAX_INT64 && s.now < deadline
    requires var key := RateKey(TierName(read.tier), TruncDiv(read.wall / SECOND, 60));
             key in s.store && s.store[key] == Entry(Counter(k), Some(deadline))
    ensures var run := [read, Answer(read.r), Decide(read.r)];
            var key := RateKey(TierName(read.tier), TruncDiv(read.wall / SECOND, 60));
            Valid(c, s, run) && Final(c, s, run) ==
              s.(store := s.store[key := Entry(Counter(k + 1), Some(deadline))],
                 reqs := s.reqs[read.r := Request(read.gateway, read.tier, read.wall / SECOND, s.now,
                                                  ByRedis(k + 1, true), false)])
  {
    RunOfThree(c, s, read, Answer(read.r), Decide(read.r));
  }

  lemma BurstNext(c: Config, s: State, tier: Tier, m: int, k: nat)
    requires BurstState(c, s, tier, m, k) && 0 < k < c.Budget(tier) && k < MAX_INT64
    ensures var run := Prompt(k, tier, WindowStart(m), false);
            Valid(c, s, run) && BurstState(c, Final(c, s, run), tier, m, k + 1)
  {
    WindowOfKey(WindowStart(m), m);
    var read := Read(k, 0, tier, WindowStart(m));
    NextAdmitted(c, s, read, k, s.now + COUNTER_TTL);
    assert Prompt(k, tier, WindowStart(m), false) == [read, Answer(k), Decide(k)];
    BurstGrows(c, s, Final(c, s, Prompt(k, tier, WindowStart(m), false)), tier, m, k);
  }

  lemma {:induction false} Burst(c: Config, s: State, tier: Tier, m: int, k: nat) returns (run: seq<Action>)
    requires BurstState(c, s, tier, m, k) && k <= c.Budget(tier) <= MAX_INT64
    ensures Valid(c, s, run) && BurstState(c, Final(c, s, run), tier, m, c.Budget(tier))
    decreases c.Budget(tier) - k
  {
    if k == c.Budget(tier) {
      run := [];
    } else {
      var one := Prompt(k, tier, WindowStart(m), k == 0);
      if k == 0 { BurstFirst(c, s, tier, m); } else { BurstNext(c, s, tier, m, k); }
      var rest := Burst(c, Final(c, s, one), tier, m, k + 1);
      RunsCompose(c, s, one, rest);
      run := one + rest;
    }
  }

  /** A gateway whose clock is behind by `skew` reads the window's last instant; its INCR is late by `lag`. */
  function Straggler(c: Config, s: State, r: nat, tier: Tier, m: int): seq<Action>
    requires s.now == WindowStart(m) - c.skew
  {
    WindowOfKey(0, m);
    [Tick(WindowEnd(m) - 1 + c.skew - s.now), Read(r, 1, tier, WindowEnd(m) - 1), Tick(c.lag)]
    + [Answer(r), Proceed(r), Decide(r)]
  }

  /** An INCR that finds its counter expired starts it again at one, and the request is let through. */
  lemma LateIncrAdmitted(c: Config, s: State, r: nat)
    requires r in s.reqs && Enabled(c, s, Answer(r)) && !Live(s.store, s.reqs[r].Key(), s.now)
    requires c.Budget(s.reqs[r].tier) >= 1
    ensures var run := [Answer(r), Proceed(r), Decide(r)];
            && Valid(c, s, run)
            && Final(c, s, run).reqs == s.reqs[r := s.reqs[r].(phase := ByRedis(1, true), expiring := true)]
  {
    Compared(c, Step(c, s, Answer(r)), r);
    StepThen(c, s, Answer(r), [Proceed(r), Decide(r)]);
    assert [Answer(r)] + [Proceed(r), Decide(r)] == [Answer(r), Proceed(r), Decide(r)];
  }

  lemma StragglerAdmitted(c: Config, s: State, tier: Tier, m: int)
    requires c.Budget(tier) >= 1 && BurstState(c, s, tier, m, c.Budget(tier))
    requires !OutlivesWindow(c, m)
    ensures var run := Straggler(c, s, c.Budget(tier), tier, m);
            Valid(c, s, run) && |AdmittedOnKey(Final(c, s, run), tier, m)| == c.Budget(tier) + 1
  {
    WindowOfKey(WindowEnd(m) - 1, m);
    var r := c.Budget(tier);
    var wait, read := WindowEnd(m) - 1 + c.skew - s.now, Read(r, 1, tier, WindowEnd(m) - 1);
    LateRead(c, s, wait, r, tier, WindowEnd(m) - 1);
    var s3 := Final(c, s, [Tick(wait), read, Tick(c.lag)]);
    assert s3.reqs[r].Key() == RateKey(TierName(tier), m);
    LateIncrAdmitted(c, s3, r);
    RunsCompose(c, s, [Tick(wait), read, Tick(c.lag)], [Answer(r), Proceed(r), Decide(r)]);
    AdmitOne(s, Final(c, s, Straggler(c, s, r, tier, m)), r, tier, m);
  }

  lemma LateRead(c: Config, s: State, wait: nat, r: nat, tier: Tier, wall: int)
    requires r !in s.reqs && s.now + wait - c.skew <= wall <= s.now + wait + c.skew
    ensures var run := [Tick(wait), Read(r, 1, tier, wall), Tick(c.lag)];
            var q := Request(1, tier, wall / SECOND, s.now + wait, Keyed, false);
            Valid(c, s, run) && Final(c, s, run) == s.(now := s.now + wait + c.lag, reqs := s.reqs[r := q])
  {
    RunOfThree(c, s, Tick(wait), Read(r, 1, tier, wall), Tick(c.lag));
  }

  /**
   The budget of a minute holds on all runs exactly when there is nothing to admit, or the two-minute expiry
   outlasts the key's window plus the lag plus twice the skew: for the ordinary 60-second key, lag + 2 * skew <= 60 s.
   */
  lemma BudgetHoldsIff(c: Config, tier: Tier, m: int)
    requires c.Budget(tier) <= MAX_INT64
    ensures BudgetHolds(c, tier, m) <==> c.Rps(tier) <= 0 || OutlivesWindow(c, m)
    ensures m != 0 ==> (OutlivesWindow(c, m) <==> c.lag + 2 * c.skew <= 60 * SECOND)
  {
    WindowOfKey(0, m);
    if OutlivesWindow(c, m) {
      BudgetHoldsWhenOutlived(c, tier, m);
    } else if c.Rps(tier) <= 0 {
      forall start: int, run: seq<Action> | Valid(c, Init(start), run)
        ensures |AdmittedOnKey(Final(c, Init(start), run), tier, m)| <= Max(0, c.Budget(tier))
      {
        RunKeepsCountsPositive(c, Init(start), run);
        assert AdmittedOnKey(Final(c, Init(start), run), tier, m) == {};
      }
    } else {
      var s := Init(WindowStart(m) - c.skew);
      assert AdmittedOnKey(s, tier, m) == {};
      var burst := Burst(c, s, tier, m, 0);
      var s' := Final(c, s, burst);
      StragglerAdmitted(c, s', tier, m);
      var late := Straggler(c, s', c.Budget(tier), tier, m);
      RunsCompose(c, s, burst, late);
      assert Valid(c, Init(WindowStart(m) - c.skew), burst + late);
    }
  }
}
