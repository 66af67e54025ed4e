/**
 The per-address limiter.  Looking a bucket up and drawing on it are separate steps, so a request may still hold
 a bucket that a cleanup has dropped from the table.
 */
module PerIp {
  import opened Common
  import opened Arithmetic
  import opened TokenBucket

  const MAX_LIMITERS := 10000

  /** A bucket ever made: who for, its state, and how many requests it admitted. */
  datatype Slot = Slot(owner: string, bucket: Bucket, given: nat)

  /** `live` is the table from address to bucket, `held` the buckets requests in flight have looked up. */
  datatype State = State(start: int, now: int, pool: seq<Slot>, live: map<string, nat>, held: map<nat, nat>, fired: nat)

  datatype Config = Config(rate: int, burst: int)

  datatype Action =
    | Tick(dt: nat)
    | Lookup(r: nat, ip: string)
    | Draw(r: nat)
    | Serve(ip: string)  // lookup and draw with nothing in between
    | Cleanup

  function Init(start: int): State {
    State(start, start, [], map[], map[], 0)
  }

  predicate WellFormed(s: State) {
    && (forall ip :: ip in s.live ==> s.live[ip] < |s.pool| && s.pool[s.live[ip]].owner == ip)
    && (forall r :: r in s.held ==> s.held[r] < |s.pool|)
  }

  predicate Enabled(s: State, a: Action) {
    && (a.Lookup? ==> a.r !in s.held)
    && (a.Draw? ==> a.r in s.held)
  }

  /** The address's bucket is in the table afterwards. */
  function Ensured(c: Config, s: State, ip: string): (s': State)
    ensures ip in s'.live
    ensures WellFormed(s) ==> WellFormed(s')
  {
    if ip in s.live then s
    else s.(pool := s.pool + [Slot(ip, NewBucket(c.burst, s.now), 0)], live := s.live[ip := |s.pool|])
  }

  function Drawn(c: Config, slot: Slot, now: int): Slot {
    var (b, ok) := Take(slot.bucket, c.rate, c.burst, now);
    Slot(slot.owner, b, if ok then slot.given + 1 else slot.given)
  }

  function Step(c: Config, s: State, a: Action): (s': State)
    requires WellFormed(s) && Enabled(s, a)
    ensures WellFormed(s')
  {
    match a
    case Tick(dt) => s.(now := s.now + dt)
    case Lookup(r, ip) =>
      var s1 := Ensured(c, s, ip);
      s1.(held := s1.held[r := s1.live[ip]])
    case Draw(r) => s.(pool := s.pool[s.held[r] := Drawn(c, s.pool[s.held[r]], s.now)], held := s.held - {r})
    case Serve(ip) =>
      var s1 := Ensured(c, s, ip);
      s1.(pool := s1.pool[s1.live[ip] := Drawn(c, s1.pool[s1.live[ip]], s1.now)])
    case Cleanup =>
      if |s.live| > MAX_LIMITERS then s.(live := map[], fired := s.fired + 1) else s
  }

  predicate Valid(c: Config, s: State, run: seq<Action>)
    requires WellFormed(s)
    decreases run
  {
    run == [] || (Enabled(s, run[0]) && Valid(c, Step(c, s, run[0]), run[1..]))
  }

  function Final(c: Config, s: State, run: seq<Action>): (s': State)
    requires WellFormed(s) && Valid(c, s, run)
    ensures WellFormed(s')
    decreases run
  {
    if run == [] then s else Final(c, Step(c, s, run[0]), run[1..])
  }

  // ----- Totals over the buckets of one address -----

  function Made(pool: seq<Slot>, ip: string): nat {
    if pool == [] then 0
    else Made(pool[..|pool| - 1], ip) + if pool[|pool| - 1].owner == ip then 1 else 0
  }

  function Given(pool: seq<Slot>, ip: string): nat {
    if pool == [] then 0
    else Given(pool[..|pool| - 1], ip) + if pool[|pool| - 1].owner == ip then pool[|pool| - 1].given else 0
  }

  lemma {:induction false} UpdateSlot(pool: seq<Slot>, i: nat, slot: Slot, ip: string)
    requires i < |pool| && slot.owner == pool[i].owner
    ensures Made(pool[i := slot], ip) == Made(pool, ip)
    ensures Given(pool[i := slot], ip) == Given(pool, ip) + if slot.owner == ip then slot.given - pool[i].given else 0
  {
    var n := |pool| - 1;
    if i < n {
      assert pool[i := slot][..n] == pool[..n][i := slot];
      UpdateSlot(pool[..n], i, slot, ip);
    } else {
      assert pool[i := slot][..n] == pool[..n];
    }
  }

  lemma AppendSlot(pool: seq<Slot>, slot: Slot, ip: string)
    ensures Made(pool + [slot], ip) == Made(pool, ip) + if slot.owner == ip then 1 else 0
    ensures Given(pool + [slot], ip) == Given(pool, ip) + if slot.owner == ip then slot.given else 0
  {
    assert (pool + [slot])[..|pool|] == pool;
  }

  // ----- Every interleaving -----

  ghost predicate SlotsInv(c: Config, s: State) {
    forall i :: 0 <= i < |s.pool| ==>
      s.pool[i].bucket.last <= s.now && WithinSupply(s.pool[i].bucket, c.rate, c.burst, 1, s.start, s.pool[i].given)
  }

  /** Buckets of an address: one for each cleanup that fired, and one more while it is in the table. */
  ghost predicate MadeInv(s: State, ip: string) {
    && Made(s.pool, ip) <= s.fired + (if ip in s.live then 1 else 0)
    && (MAX_LIMITERS + 1) * s.fired + |s.live| <= |s.pool|
    && s.start <= s.now
  }

  lemma EnsuredKeeps(c: Config, s: State, ip: string, who: string)
    requires WellFormed(s) && SlotsInv(c, s) && MadeInv(s, who)
    ensures SlotsInv(c, Ensured(c, s, ip)) && MadeInv(Ensured(c, s, ip), who)
  {
    if ip !in s.live {
      AppendSlot(s.pool, Slot(ip, NewBucket(c.burst, s.now), 0), who);
      NewWithinSupply(c.rate, c.burst, s.start, s.now);
    }
  }

  lemma DrawnKeeps(c: Config, s: State, i: nat, who: string)
    requires i < |s.pool| && SlotsInv(c, s) && MadeInv(s, who)
    ensures var s' := s.(pool := s.pool[i := Drawn(c, s.pool[i], s.now)]); SlotsInv(c, s') && MadeInv(s', who)
  {
    TakeKeepsWithinSupply(s.pool[i].bucket, c.rate, c.burst, 1, s.now, s.start, s.pool[i].given);
    UpdateSlot(s.pool, i, Drawn(c, s.pool[i], s.now), who);
  }

  lemma ServeKeeps(c: Config, s: State, ip: string, who: string)
    requires WellFormed(s) && SlotsInv(c, s) && MadeInv(s, who)
    ensures SlotsInv(c, Step(c, s, Serve(ip))) && MadeInv(Step(c, s, Serve(ip)), who)
  {
    var s1 := Ensured(c, s, ip);
    var i := s1.live[ip];
    EnsuredKeeps(c, s, ip, who);
    DrawnKeeps(c, s1, i, who);
    assert Step(c, s, Serve(ip)) == s1.(pool := s1.pool[i := Drawn(c, s1.pool[i], s1.now)]);
  }

  lemma DrawKeeps(c: Config, s: State, r: nat, who: string)
    requires WellFormed(s) && SlotsInv(c, s) && MadeInv(s, who) && r in s.held
    ensures SlotsInv(c, Step(c, s, Draw(r))) && MadeInv(Step(c, s, Draw(r)), who)
  {
    DrawnKeeps(c, s, s.held[r], who);
  }

  lemma TickKeeps(c: Config, s: State, dt: nat, who: string)
    requires WellFormed(s) && SlotsInv(c, s) && MadeInv(s, who)
    ensures SlotsInv(c, s.(now := s.now + dt)) && MadeInv(s.(now := s.now + dt), who)
  {
  }

  lemma LookupKeeps(c: Config, s: State, r: nat, ip: string, who: string)
    requires WellFormed(s) && SlotsInv(c, s) && MadeInv(s, who) && r !in s.held
    ensures SlotsInv(c, Step(c, s, Lookup(r, ip))) && MadeInv(Step(c, s, Lookup(r, ip)), who)
  {
    EnsuredKeeps(c, s, ip, who);
  }

  lemma CleanupKeeps(c: Config, s: State, who: string)
    requires WellFormed(s) && SlotsInv(c, s) && MadeInv(s, who)
    ensures SlotsInv(c, Step(c, s, Cleanup)) && MadeInv(Step(c, s, Cleanup), who)
  {
  }

  lemma StepKeeps(c: Config, s: State, a: Action, who: string)
    requires WellFormed(s) && Enabled(s, a) && SlotsInv(c, s) && MadeInv(s, who)
    ensures SlotsInv(c, Step(c, s, a)) && MadeInv(Step(c, s, a), who)
  {
    match a
    case Tick(dt) => TickKeeps(c, s, dt, who);
    case Lookup(r, ip) => LookupKeeps(c, s, r, ip, who);
    case Draw(r) => DrawKeeps(c, s, r, who);
    case Serve(ip) => ServeKeeps(c, s, ip, who);
    case Cleanup => CleanupKeeps(c, s, who);
  }

  lemma {:induction false} RunKeeps(c: Config, s: State, run: seq<Action>, who: string)
    requires WellFormed(s) && SlotsInv(c, s) && MadeInv(s, who) && Valid(c, s, run)
    ensures SlotsInv(c, Final(c, s, run)) && MadeInv(Final(c, s, run), who)
    ensures Final(c, s, run).start == s.start
    decreases run
  {
    if run != [] {
      StepKeeps(c, s, run[0], who);
      RunKeeps(c, Step(c, s, run[0]), run[1..], who);
    }
  }

  lemma {:induction false} GivenWithinSupply(c: Config, pool: seq<Slot>, start: int, now: int, ip: string)
    requires forall i :: 0 <= i < |pool| ==>
               pool[i].bucket.last <= now && WithinSupply(pool[i].bucket, c.rate, c.burst, 1, start, pool[i].given)
    ensures TOKEN * Given(pool, ip) <= Made(pool, ip) * Supply(c.rate, c.burst, 1, now - start)
  {
    if pool != [] {
      var last := pool[|pool| - 1];
      GivenWithinSupply(c, pool[..|pool| - 1], start, now, ip);
      SupplyGrows(c.rate, c.burst, 1, last.bucket.last - start, now - start);
      if last.owner == ip {
        Distribute(Made(pool[..|pool| - 1], ip), 1, Supply(c.rate, c.burst, 1, now - start));
      }
    }
  }

  lemma SupplyNonNegative(c: Config, elapsed: nat)
    ensures Supply(c.rate, c.burst, 1, elapsed) >= 0
  {
    assert Max(c.rate, 0) * elapsed >= 0;
  }

  lemma BudgetOfState(c: Config, s: State, ip: string)
    requires SlotsInv(c, s) && MadeInv(s, ip)
    ensures TOKEN * Given(s.pool, ip) <= (s.fired + 1) * Supply(c.rate, c.burst, 1, s.now - s.start)
  {
    GivenWithinSupply(c, s.pool, s.start, s.now, ip);
    SupplyNonNegative(c, s.now - s.start);
    MulMonotone(Made(s.pool, ip), s.fired + 1, Supply(c.rate, c.burst, 1, s.now - s.start));
  }

  /** Steps for other addresses leave this address's bucket alone, unless the whole table is dropped. */
  lemma OthersLeaveBucketAlone(c: Config, s: State, a: Action, ip: string)
    requires WellFormed(s) && Enabled(s, a) && ip in s.live
    requires a.Lookup? || a.Serve? ==> a.ip != ip
    requires a.Draw? ==> s.pool[s.held[a.r]].owner != ip
    ensures var s' := Step(c, s, a);
            || (s'.fired == s.fired + 1 && s'.live == map[])
            || (ip in s'.live && s'.live[ip] == s.live[ip] && s'.pool[s'.live[ip]] == s.pool[s.live[ip]])
  {
  }

  // ----- Draws on buckets that a cleanup has dropped -----

  /** The table no longer holds this bucket. */
  predicate Dropped(s: State, i: nat)
    requires i < |s.pool|
  {
    !(s.pool[i].owner in s.live && s.live[s.pool[i].owner] == i)
  }

  /** The step admits a request of the address from a dropped bucket that it had looked up before. */
  predicate StrayDraw(c: Config, s: State, a: Action, ip: string)
    requires WellFormed(s)
  {
    && a.Draw? && a.r in s.held
    && var i := s.held[a.r];
       s.pool[i].owner == ip && Dropped(s, i) && Drawn(c, s.pool[i], s.now).given > s.pool[i].given
  }

  function Strays(c: Config, s: State, run: seq<Action>, ip: string): nat
    requires WellFormed(s) && Valid(c, s, run)
    decreases run
  {
    if run == [] then 0
    else (if StrayDraw(c, s, run[0], ip) then 1 else 0) + Strays(c, Step(c, s, run[0]), run[1..], ip)
  }

  /** What the address may have been admitted apart from `strays`: the rate counts once, however many cleanups fired. */
  ghost predicate ShareInv(c: Config, s: State, ip: string, strays: nat)
    requires WellFormed(s)
  {
    && s.start <= s.now
    && strays <= Given(s.pool, ip)
    && if ip in s.live then
         var b := s.pool[s.live[ip]].bucket;
         b.last <= s.now && WithinSupply(b, c.rate, c.burst, s.fired + 1, s.start, Given(s.pool, ip) - strays)
       else
         TOKEN * (Given(s.pool, ip) - strays) <= Supply(c.rate, c.burst, s.fired, s.now - s.start)
  }

  lemma EnsuredKeepsShare(c: Config, s: State, ip: string, who: string, strays: nat)
    requires WellFormed(s) && ShareInv(c, s, who, strays)
    ensures ShareInv(c, Ensured(c, s, ip), who, strays)
  {
    if ip !in s.live {
      AppendSlot(s.pool, Slot(ip, NewBucket(c.burst, s.now), 0), who);
      SupplyGrows(c.rate, c.burst, s.fired, s.now - s.start, s.now - s.start);
    }
  }

  lemma DrawnKeepsShare(c: Config, s: State, ip: string, who: string, strays: nat)
    requires WellFormed(s) && ShareInv(c, s, who, strays) && ip in s.live
    ensures ShareInv(c, s.(pool := s.pool[s.live[ip] := Drawn(c, s.pool[s.live[ip]], s.now)]), who, strays)
  {
    var i := s.live[ip];
    UpdateSlot(s.pool, i, Drawn(c, s.pool[i], s.now), who);
    if ip == who {
      TakeKeepsWithinSupply(s.pool[i].bucket, c.rate, c.burst, s.fired + 1, s.now, s.start,
                            Given(s.pool, who) - strays);
    }
  }

  lemma DrawKeepsShare(c: Config, s: State, r: nat, who: string, strays: nat)
    requires WellFormed(s) && ShareInv(c, s, who, strays) && r in s.held
    ensures ShareInv(c, Step(c, s, Draw(r)), who, strays + if StrayDraw(c, s, Draw(r), who) then 1 else 0)
  {
    var i := s.held[r];
    if Dropped(s, i) {
      StrayKeepsShare(c, s, i, who, strays);
    } else {
      DrawnKeepsShare(c, s, s.pool[i].owner, who, strays);
    }
    HeldIsNoShare(c, s.(pool := s.pool[i := Drawn(c, s.pool[i], s.now)]), s.held - {r}, who,
                  strays + if StrayDraw(c, s, Draw(r), who) then 1 else 0);
  }

  lemma HeldIsNoShare(c: Config, s: State, held: map<nat, nat>, who: string, strays: nat)
    requires WellFormed(s) && ShareInv(c, s, who, strays) && WellFormed(s.(held := held))
    ensures ShareInv(c, s.(held := held), who, strays)
  {
  }

  lemma StrayKeepsShare(c: Config, s: State, i: nat, who: string, strays: nat)
    requires WellFormed(s) && ShareInv(c, s, who, strays) && i < |s.pool| && Dropped(s, i)
    ensures var slot := Drawn(c, s.pool[i], s.now);
            ShareInv(c, s.(pool := s.pool[i := slot]), who,
                     strays + if slot.owner == who && slot.given > s.pool[i].given then 1 else 0)
  {
    UpdateSlot(s.pool, i, Drawn(c, s.pool[i], s.now), who);
  }

  lemma TickKeepsShare(c: Config, s: State, dt: nat, who: string, strays: nat)
    requires WellFormed(s) && ShareInv(c, s, who, strays)
    ensures ShareInv(c, s.(now := s.now + dt), who, strays)
  {
    SupplyGrows(c.rate, c.burst, s.fired, s.now - s.start, s.now + dt - s.start);
  }

  lemma CleanupKeepsShare(c: Config, s: State, who: string, strays: nat)
    requires WellFormed(s) && ShareInv(c, s, who, strays)
    ensures ShareInv(c, Step(c, s, Cleanup), who, strays)
  {
    if who in s.live {
      SupplyGrows(c.rate, c.burst, s.fired + 1, s.pool[s.live[who]].bucket.last - s.start, s.now - s.start);
    } else {
      SupplyGrows(c.rate, c.burst, s.fired, s.now - s.start, s.now - s.start);
    }
  }

  lemma ServeKeepsShare(c: Config, s: State, ip: string, who: string, strays: nat)
    requires WellFormed(s) && ShareInv(c, s, who, strays)
    ensures ShareInv(c, Step(c, s, Serve(ip)), who, strays)
  {
    EnsuredKeepsShare(c, s, ip, who, strays);
    DrawnKeepsShare(c, Ensured(c, s, ip), ip, who, strays);
  }

  lemma LookupKeepsShare(c: Config, s: State, r: nat, ip: string, who: string, strays: nat)
    requires WellFormed(s) && ShareInv(c, s, who, strays) && r !in s.held
    ensures ShareInv(c, Step(c, s, Lookup(r, ip)), who, strays)
  {
    var s1 := Ensured(c, s, ip);
    EnsuredKeepsShare(c, s, ip, who, strays);
    HeldIsNoShare(c, s1, s1.held[r := s1.live[ip]], who, strays);
  }

  lemma StepKeepsShare(c: Config, s: State, a: Action, who: string, strays: nat)
    requires WellFormed(s) && ShareInv(c, s, who, strays) && Enabled(s, a)
    ensures ShareInv(c, Step(c, s, a), who, strays + if StrayDraw(c, s, a, who) then 1 else 0)
  {
    match a
    case Tick(dt) => TickKeepsShare(c, s, dt, who, strays);
    case Lookup(r, ip) => LookupKeepsShare(c, s, r, ip, who, strays);
    case Draw(r) => DrawKeepsShare(c, s, r, who, strays);
    case Serve(ip) => ServeKeepsShare(c, s, ip, who, strays);
    case Cleanup => CleanupKeepsShare(c, s, who, strays);
  }

  lemma {:induction false} RunKeepsShare(c: Config, s: State, run: seq<Action>, who: string, strays: nat)
    requires WellFormed(s) && ShareInv(c, s, who, strays) && Valid(c, s, run)
    ensures ShareInv(c, Final(c, s, run), who, strays + Strays(c, s, run, who))
    ensures Final(c, s, run).start == s.start
    decreases run
  {
    if run != [] {
      StepKeepsShare(c, s, run[0], who, strays);
      RunKeepsShare(c, Step(c, s, run[0]), run[1..], who, strays + if StrayDraw(c, s, run[0], who) then 1 else 0);
    }
  }

  lemma ShareOfState(c: Config, s: State, ip: string, strays: nat)
    requires WellFormed(s) && ShareInv(c, s, ip, strays)
    ensures TOKEN * (Given(s.pool, ip) - strays) <= Supply(c.rate, c.burst, s.fired + 1, s.now - s.start)
  {
    if ip in s.live {
      SupplyGrows(c.rate, c.burst, s.fired + 1, s.pool[s.live[ip]].bucket.last - s.start, s.now - s.start);
    } else {
      SupplyGrows(c.rate, c.burst, s.fired, s.now - s.start, s.now - s.start);
    }
  }

  /**
   For every interleaving: with k cleanups that fired, one address is admitted at most (k + 1) * burst + rate * elapsed
   times, plus its admitted draws on buckets already dropped; and never more than (k + 1) * (burst + rate * elapsed)
   times.  Each of those cleanups dropped more than ten thousand buckets.
   */
  lemma AddressBudget(c: Config, start: int, run: seq<Action>, ip: string)
    requires Valid(c, Init(start), run)
    ensures var s := Final(c, Init(start), run);
            && TOKEN * Given(s.pool, ip) <=
                 Supply(c.rate, c.burst, s.fired + 1, s.now - start) + TOKEN * Strays(c, Init(start), run, ip)
            && TOKEN * Given(s.pool, ip) <= (s.fired + 1) * Supply(c.rate, c.burst, 1, s.now - start)
            && 10001 * s.fired <= |s.pool|
  {
    LooseBudget(c, start, run, ip);
    ShareBudget(c, start, run, ip);
  }

  lemma LooseBudget(c: Config, start: int, run: seq<Action>, ip: string)
    requires Valid(c, Init(start), run)
    ensures var s := Final(c, Init(start), run);
            && TOKEN * Given(s.pool, ip) <= (s.fired + 1) * Supply(c.rate, c.burst, 1, s.now - start)
            && 10001 * s.fired <= |s.pool|
  {
    RunKeeps(c, Init(start), run, ip);
    BudgetOfState(c, Final(c, Init(start), run), ip);
  }

  lemma ShareBudget(c: Config, start: int, run: seq<Action>, ip: string)
    requires Valid(c, Init(start), run)
    ensures var s := Final(c, Init(start), run);
            TOKEN * (Given(s.pool, ip) - Strays(c, Init(start), run, ip)) <=
              Supply(c.rate, c.burst, s.fired + 1, s.now - start)
  {
    RunKeepsShare(c, Init(start), run, ip, 0);
    ShareOfState(c, Final(c, Init(start), run), ip, Strays(c, Init(start), run, ip));
  }

  /** Requests that hold one of the address's buckets: dropped ones, or the one in the table. */
  function Holders(s: State, ip: string, dropped: bool): set<nat>
    requires WellFormed(s)
  {
    set r | r in s.held && s.pool[s.held[r]].owner == ip && Dropped(s, s.held[r]) == dropped
  }

  /** Over all cleanups that fire, the requests that held the address's bucket when it was dropped. */
  function Overtaken(c: Config, s: State, run: seq<Action>, ip: string): nat
    requires WellFormed(s) && Valid(c, s, run)
    decreases run
  {
    if run == [] then 0
    else (if run[0].Cleanup? && |s.live| > MAX_LIMITERS then |Holders(s, ip, false)| else 0)
         + Overtaken(c, Step(c, s, run[0]), run[1..], ip)
  }

  lemma StepHolders(c: Config, s: State, a: Action, ip: string)
    requires WellFormed(s) && Enabled(s, a)
    ensures (if StrayDraw(c, s, a, ip) then 1 else 0) + |Holders(Step(c, s, a), ip, true)|
              <= |Holders(s, ip, true)| + if a.Cleanup? && |s.live| > MAX_LIMITERS then |Holders(s, ip, false)| else 0
  {
    match a
    case Tick(_) => assert Holders(Step(c, s, a), ip, true) == Holders(s, ip, true);
    case Lookup(r, other) => LookupHolders(c, s, r, other, ip);
    case Draw(r) => DrawHolders(c, s, r, ip);
    case Serve(other) => ServeHolders(c, s, other, ip);
    case Cleanup => CleanupHolders(c, s, ip);
  }

  lemma EnsuredHolders(c: Config, s: State, other: string, ip: string)
    requires WellFormed(s)
    ensures Holders(Ensured(c, s, other), ip, true) == Holders(s, ip, true)
  {
    forall r | r in s.held
      ensures Dropped(Ensured(c, s, other), s.held[r]) == Dropped(s, s.held[r])
    {
    }
  }

  lemma LookupHolders(c: Config, s: State, r: nat, other: string, ip: string)
    requires WellFormed(s) && r !in s.held
    ensures Holders(Step(c, s, Lookup(r, other)), ip, true) == Holders(s, ip, true)
  {
    EnsuredHolders(c, s, other, ip);
    var s1 := Ensured(c, s, other);
    assert Holders(Step(c, s, Lookup(r, other)), ip, true) == Holders(s1, ip, true);
  }

  lemma ServeHolders(c: Config, s: State, other: string, ip: string)
    requires WellFormed(s)
    ensures Holders(Step(c, s, Serve(other)), ip, true) == Holders(s, ip, true)
  {
    EnsuredHolders(c, s, other, ip);
    var s1 := Ensured(c, s, other);
    assert Holders(Step(c, s, Serve(other)), ip, true) == Holders(s1, ip, true);
  }

  lemma DrawHolders(c: Config, s: State, r: nat, ip: string)
    requires WellFormed(s) && r in s.held
    ensures (if StrayDraw(c, s, Draw(r), ip) then 1 else 0) + |Holders(Step(c, s, Draw(r)), ip, true)|
              <= |Holders(s, ip, true)|
  {
    assert Holders(Step(c, s, Draw(r)), ip, true) == Holders(s, ip, true) - {r};
  }

  lemma CleanupHolders(c: Config, s: State, ip: string)
    requires WellFormed(s)
    ensures |Holders(Step(c, s, Cleanup), ip, true)|
              <= |Holders(s, ip, true)| + if |s.live| > MAX_LIMITERS then |Holders(s, ip, false)| else 0
  {
    if |s.live| > MAX_LIMITERS {
      assert Holders(Step(c, s, Cleanup), ip, true) == Holders(s, ip, true) + Holders(s, ip, false);
    }
  }

  /**
   A request that holds a dropped bucket draws on it once, so there are at most as many strays as overtaken requests.
   */
  lemma {:induction false} StraysAreOvertaken(c: Config, s: State, run: seq<Action>, ip: string)
    requires WellFormed(s) && Valid(c, s, run)
    ensures Strays(c, s, run, ip) <= |Holders(s, ip, true)| + Overtaken(c, s, run, ip)
    decreases run
  {
    if run != [] {
      StepHolders(c, s, run[0], ip);
      StraysAreOvertaken(c, Step(c, s, run[0]), run[1..], ip);
    }
  }

  /** So the bound can be given in requests that a cleanup overtakes between their lookup and their draw. */
  lemma AddressBudgetOvertaken(c: Config, start: int, run: seq<Action>, ip: string)
    requires Valid(c, Init(start), run)
    ensures var s := Final(c, Init(start), run);
            TOKEN * Given(s.pool, ip) <=
              Supply(c.rate, c.burst, s.fired + 1, s.now - start) + TOKEN * Overtaken(c, Init(start), run, ip)
  {
    AddressBudget(c, start, run, ip);
    StraysAreOvertaken(c, Init(start), run, ip);
  }

  predicate Atomic(run: seq<Action>) {
    forall a :: a in run ==> !a.Lookup? && !a.Draw?
  }

  lemma {:induction false} AtomicHasNoStrays(c: Config, s: State, run: seq<Action>, ip: string)
    requires WellFormed(s) && Valid(c, s, run) && Atomic(run)
    ensures Strays(c, s, run, ip) == 0
    decreases run
  {
    if run != [] {
      AtomicHasNoStrays(c, Step(c, s, run[0]), run[1..], ip);
    }
  }

  /** When lookup and draw are one step, k firing cleanups give at most (k + 1) * burst + rate * elapsed. */
  lemma AtomicAddressBudget(c: Config, start: int, run: seq<Action>, ip: string)
    requires Valid(c, Init(start), run) && Atomic(run)
    ensures var s := Final(c, Init(start), run);
            TOKEN * Given(s.pool, ip) <= Supply(c.rate, c.burst, s.fired + 1, s.now - start)
  {
    AddressBudget(c, start, run, ip);
    AtomicHasNoStrays(c, Init(start), run, ip);
  }

  // ----- The object -----

  /** The table as a value: each address in it with the state of its bucket. */
  function View(s: State): map<string, Bucket>
    requires WellFormed(s)
  {
    map ip | ip in s.live :: s.pool[s.live[ip]].bucket
  }

  function LookedUp(c: Config, table: map<string, Bucket>, ip: string, now: int): map<string, Bucket> {
    if ip in table then table else table[ip := NewBucket(c.burst, now)]
  }

  function Served(c: Config, table: map<string, Bucket>, ip: string, now: int): map<string, Bucket> {
    var t := LookedUp(c, table, ip, now);
    t[ip := Take(t[ip], c.rate, c.burst, now).0]
  }

  function CleanedUp(table: map<string, Bucket>): map<string, Bucket> {
    if |table| > MAX_LIMITERS then map[] else table
  }

  lemma EnsuredActsOnView(c: Config, s: State, ip: string)
    requires WellFormed(s)
    ensures View(Ensured(c, s, ip)) == LookedUp(c, View(s), ip, s.now)
  {
  }

  /** The protocol's steps act on the table exactly as the object's methods do. */
  lemma ServeActsOnView(c: Config, s: State, ip: string)
    requires WellFormed(s)
    ensures View(Step(c, s, Serve(ip))) == Served(c, View(s), ip, s.now)
  {
    EnsuredActsOnView(c, s, ip);
    DrawActsOnView(c, Ensured(c, s, ip), ip);
  }

  lemma LookupActsOnView(c: Config, s: State, r: nat, ip: string)
    requires WellFormed(s) && r !in s.held
    ensures View(Step(c, s, Lookup(r, ip))) == LookedUp(c, View(s), ip, s.now)
  {
    EnsuredActsOnView(c, s, ip);
  }

  lemma CleanupActsOnView(c: Config, s: State)
    requires WellFormed(s)
    ensures View(Step(c, s, Cleanup)) == CleanedUp(View(s))
  {
    SameKeysSameSize(View(s), s.live);
  }

  /** In plain numbers: a table of more than 10000 addresses is always emptied, and no smaller one ever is. */
  lemma CleanupInPlainTerms(c: Config, s: State)
    requires WellFormed(s)
    ensures View(Step(c, s, Cleanup)) == if |s.live| > 10000 then map[] else View(s)
    ensures Step(c, s, Cleanup).fired == s.fired + if |s.live| > 10000 then 1 else 0
    ensures Step(c, s, Cleanup).pool == s.pool && Step(c, s, Cleanup).held == s.held
  {
    CleanupActsOnView(c, s);
  }

  /** An address that is not in the table has its whole burst, and no other address notices. */
  lemma NewAddressHasItsBurst(c: Config, table: map<string, Bucket>, ip: string, now: int, n: nat)
    requires ip !in table
    ensures var t := LookedUp(c, table, ip, now);
            && ip in t && t - {ip} == table
            && (Take(AfterDraws(t[ip], c.rate, c.burst, now, n), c.rate, c.burst, now).1 <==> n < c.burst)
  {
    BucketInPlainTerms(c.rate, c.burst, now, n, now);
  }

  lemma DrawActsOnView(c: Config, s: State, ip: string)
    requires WellFormed(s) && ip in s.live
    ensures var s' := s.(pool := s.pool[s.live[ip] := Drawn(c, s.pool[s.live[ip]], s.now)]);
            View(s') == View(s)[ip := Take(View(s)[ip], c.rate, c.burst, s.now).0]
  {
  }

  lemma SameKeysSameSize<K, V, W>(m: map<K, V>, n: map<K, W>)
    requires m.Keys == n.Keys
    ensures |m| == |n|
  {
    assert |m| == |m.Keys| && |n| == |n.Keys|;
  }

  class PerIPLimiter {
    var limiters: map<string, Limiter>
    const rate: int
    const burst: int

    ghost predicate Valid()
      reads this
    {
      && (forall ip :: ip in limiters ==> limiters[ip].rate == rate && limiters[ip].burst == burst)
      && (forall ip, ip' :: ip in limiters && ip' in limiters && ip != ip' ==> limiters[ip] != limiters[ip'])
    }

    ghost function Table(): map<string, Bucket>
      reads this, limiters.Values
    {
      map ip | ip in limiters :: limiters[ip].state
    }

    constructor (rps: int, burst: int)
      ensures Valid() && limiters == map[] && rate == rps && this.burst == burst
    {
      limiters, rate, this.burst := map[], rps, burst;
    }

    method GetLimiter(ip: string, mono: int) returns (limiter: Limiter)
      requires Valid()
      modifies this
      ensures Valid() && ip in limiters && limiters[ip] == limiter
      ensures old(ip in limiters) ==> limiters == old(limiters)
      ensures old(ip !in limiters) ==> fresh(limiter) && limiters == old(limiters)[ip := limiter]
      ensures Table() == LookedUp(Config(rate, burst), old(Table()), ip, mono)
    {
      if ip in limiters {
        limiter := limiters[ip];
      } else {
        limiter := new Limiter(rate, burst, mono);
        limiters := limiters[ip := limiter];
      }
    }

    /** One request through the middleware, with no other request in between. */
    method Handle(ip: string, mono: int) returns (ok: bool)
      requires Valid()
      modifies this, limiters.Values
      ensures Valid()
      ensures Table() == Served(Config(rate, burst), old(Table()), ip, mono)
      ensures ok == Take(LookedUp(Config(rate, burst), old(Table()), ip, mono)[ip], rate, burst, mono).1
    {
      var limiter := GetLimiter(ip, mono);
      ok := limiter.Allow(mono);
    }

    method CleanupStale()
      requires Valid()
      modifies this
      ensures Valid()
      ensures limiters == if |old(limiters)| > 10000 then map[] else old(limiters)
      ensures Table() == CleanedUp(old(Table()))
    {
      SameKeysSameSize(limiters, Table());
      if |limiters| > MAX_LIMITERS {
        limiters := map[];
      }
    }
  }
}
