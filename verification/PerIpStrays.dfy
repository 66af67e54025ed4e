/**
 Why the per-address bound counts draws on dropped buckets: a dropped bucket goes on refilling beside its replacement,
 so without that term the bound holds only for limiters that never refill or never admit.
 */
module PerIpStrays {
  import opened Common
  import opened Arithmetic
  import opened TokenBucket
  import opened PerIp

  /** With k cleanups that fired, the address was admitted at most (k + 1) * burst + rate * elapsed times. */
  predicate PlainBound(c: Config, s: State, start: int, ip: string) {
    TOKEN * Given(s.pool, ip) <= Supply(c.rate, c.burst, s.fired + 1, s.now - start)
  }

  ghost predicate PlainBoundHolds(c: Config) {
    forall start: int, run: seq<Action>, ip: string :: Valid(c, Init(start), run) ==>
      PlainBound(c, Final(c, Init(start), run), start, ip)
  }

  // ----- Composing runs -----

  /** A run together with the states it passes through. */
  datatype Trace = Trace(states: seq<State>, run: seq<Action>)

  ghost predicate Linked(c: Config, t: Trace, i: nat)
    requires i < |t.run| < |t.states|
  {
    WellFormed(t.states[i]) && Enabled(t.states[i], t.run[i]) && Step(c, t.states[i], t.run[i]) == t.states[i + 1]
  }

  ghost predicate Leads(c: Config, t: Trace, s: State, s': State) {
    && |t.states| == |t.run| + 1 && t.states[0] == s && t.states[|t.run|] == s'
    && forall i :: 0 <= i < |t.run| ==> Linked(c, t, i)
  }

  function Nothing(s: State): Trace {
    Trace([s], [])
  }

  function Join(t: Trace, u: Trace): Trace
    requires |u.states| > 0
  {
    Trace(t.states + u.states[1..], t.run + u.run)
  }

  lemma OneStep(c: Config, s: State, a: Action, s': State) returns (t: Trace)
    requires WellFormed(s) && Enabled(s, a) && Step(c, s, a) == s'
    ensures Leads(c, t, s, s')
  {
    t := Trace([s, s'], [a]);
  }

  lemma Joined(c: Config, t: Trace, u: Trace, s: State, s1: State, s2: State)
    requires Leads(c, t, s, s1) && Leads(c, u, s1, s2)
    ensures Leads(c, Join(t, u), s, s2)
  {
    var j, n := Join(t, u), |t.run|;
    assert forall k :: 0 <= k <= |u.run| ==> j.states[n + k] == u.states[k];
    forall i | 0 <= i < |j.run|
      ensures Linked(c, j, i)
    {
      if i < n {
        assert Linked(c, t, i) && j.states[i + 1] == t.states[i + 1];
      } else {
        var k := i - n;
        assert Linked(c, u, k) && j.states[n + k] == u.states[k] && j.states[n + (k + 1)] == u.states[k + 1];
      }
    }
  }

  /** What a trace leads to, its run reaches. */
  lemma {:induction false} TraceIsRun(c: Config, t: Trace, s: State, s': State)
    requires WellFormed(s) && Leads(c, t, s, s')
    ensures Valid(c, s, t.run) && Final(c, s, t.run) == s'
    decreases |t.run|
  {
    if t.run != [] {
      assert Linked(c, t, 0);
      var rest := Trace(t.states[1..], t.run[1..]);
      forall i | 0 <= i < |rest.run|
        ensures Linked(c, rest, i)
      {
        assert Linked(c, t, i + 1);
      }
      TraceIsRun(c, rest, t.states[1], s');
    }
  }

  lemma ServeOld(c: Config, s: State, ip: string)
    requires WellFormed(s) && ip in s.live
    ensures Step(c, s, Serve(ip)) == s.(pool := s.pool[s.live[ip] := Drawn(c, s.pool[s.live[ip]], s.now)])
  {
  }

  lemma ServeNew(c: Config, s: State, ip: string)
    requires WellFormed(s) && ip !in s.live
    ensures Step(c, s, Serve(ip)) ==
              s.(pool := s.pool + [Drawn(c, Slot(ip, NewBucket(c.burst, s.now), 0), s.now)],
                 live := s.live[ip := |s.pool|])
  {
    var slot := Slot(ip, NewBucket(c.burst, s.now), 0);
    var s1 := s.(pool := s.pool + [slot], live := s.live[ip := |s.pool|]);
    assert Ensured(c, s, ip) == s1;
    assert s1.pool[|s.pool| := Drawn(c, slot, s.now)] == s.pool + [Drawn(c, slot, s.now)];
  }

  lemma DrawnWhole(c: Config, slot: Slot, n: nat, now: int)
    requires 1 <= n <= c.burst && slot.bucket == Bucket(n * TOKEN, now)
    ensures Drawn(c, slot, now) == Slot(slot.owner, Bucket((n - 1) * TOKEN, now), slot.given + 1)
  {
    assert Max(c.rate, 0) * (now - now) == 0;
  }

  // ----- Emptying a bucket -----

  /** The state with a new bucket for the address that has k tokens left of its burst. */
  function WithNew(c: Config, s: State, ip: string, k: nat): State
    requires k <= c.burst
  {
    s.(pool := s.pool + [Slot(ip, Bucket(k * TOKEN, s.now), c.burst - k)], live := s.live[ip := |s.pool|])
  }

  lemma FirstOfNew(c: Config, s: State, ip: string)
    requires WellFormed(s) && ip !in s.live && c.burst >= 1
    ensures Step(c, s, Serve(ip)) == WithNew(c, s, ip, c.burst - 1)
  {
    ServeNew(c, s, ip);
    DrawnWhole(c, Slot(ip, NewBucket(c.burst, s.now), 0), c.burst, s.now);
  }

  lemma NextOfNew(c: Config, s: State, ip: string, k: nat)
    requires WellFormed(s) && ip !in s.live && 1 <= k <= c.burst
    ensures WellFormed(WithNew(c, s, ip, k))
    ensures Step(c, WithNew(c, s, ip, k), Serve(ip)) == WithNew(c, s, ip, k - 1)
  {
    var s1 := WithNew(c, s, ip, k);
    ServeOld(c, s1, ip);
    DrawnWhole(c, s1.pool[|s.pool|], k, s.now);
    assert s1.pool[|s.pool| := WithNew(c, s, ip, k - 1).pool[|s.pool|]] == WithNew(c, s, ip, k - 1).pool;
  }

  lemma {:induction false} DrainRest(c: Config, s: State, ip: string, k: nat) returns (t: Trace)
    requires WellFormed(s) && ip !in s.live && k <= c.burst
    ensures Leads(c, t, WithNew(c, s, ip, k), WithNew(c, s, ip, 0))
    decreases k
  {
    if k == 0 {
      t := Nothing(WithNew(c, s, ip, 0));
    } else {
      NextOfNew(c, s, ip, k);
      var one := OneStep(c, WithNew(c, s, ip, k), Serve(ip), WithNew(c, s, ip, k - 1));
      var rest := DrainRest(c, s, ip, k - 1);
      Joined(c, one, rest, WithNew(c, s, ip, k), WithNew(c, s, ip, k - 1), WithNew(c, s, ip, 0));
      t := Join(one, rest);
    }
  }

  /** A new bucket for the address is made by the first of `burst` requests and empty after the last. */
  lemma DrainNew(c: Config, s: State, ip: string) returns (t: Trace)
    requires WellFormed(s) && ip !in s.live && c.burst >= 1
    ensures Leads(c, t, s, WithNew(c, s, ip, 0))
  {
    FirstOfNew(c, s, ip);
    var one := OneStep(c, s, Serve(ip), WithNew(c, s, ip, c.burst - 1));
    var rest := DrainRest(c, s, ip, c.burst - 1);
    Joined(c, one, rest, s, WithNew(c, s, ip, c.burst - 1), WithNew(c, s, ip, 0));
    t := Join(one, rest);
  }

  // ----- Filling the table with other addresses -----

  function Name(length: nat): (name: string)
    ensures |name| == length
  {
    seq(length, _ => 'x')
  }

  /** Requests of other addresses only: the pool grows, and so does the table, and nothing else changes. */
  ghost predicate Filled(s: State, s': State, ip: string, n: nat) {
    && s'.start == s.start && s'.now == s.now && s'.held == s.held && s'.fired == s.fired
    && s.pool <= s'.pool && Given(s'.pool, ip) == Given(s.pool, ip)
    && |s'.live| == |s.live| + n
  }

  lemma DrawnOwner(c: Config, slot: Slot, now: int)
    ensures Drawn(c, slot, now).owner == slot.owner
  {
  }

  lemma FillSlot(s: State, s': State, slot: Slot, ip: string)
    requires slot.owner !in s.live && slot.owner != ip
    requires s' == s.(pool := s.pool + [slot], live := s.live[slot.owner := |s.pool|])
    ensures Filled(s, s', ip, 1) && s'.live.Keys == s.live.Keys + {slot.owner}
  {
    AppendSlot(s.pool, slot, ip);
    assert s'.live.Keys == s.live.Keys + {slot.owner};
    assert |s'.live| == |s'.live.Keys| && |s.live| == |s.live.Keys|;
  }

  lemma FillOne(c: Config, s: State, ip: string, name: string)
    requires WellFormed(s) && name !in s.live && name != ip
    ensures Filled(s, Step(c, s, Serve(name)), ip, 1) && Step(c, s, Serve(name)).live.Keys == s.live.Keys + {name}
  {
    var slot := Slot(name, NewBucket(c.burst, s.now), 0);
    ServeNew(c, s, name);
    DrawnOwner(c, slot, s.now);
    FillSlot(s, Step(c, s, Serve(name)), Drawn(c, slot, s.now), ip);
  }

  lemma {:induction false} Fill(c: Config, s: State, ip: string, n: nat, length: nat) returns (t: Trace, s': State)
    requires WellFormed(s) && |ip| < length && forall a :: a in s.live ==> |a| < length
    ensures Leads(c, t, s, s') && Filled(s, s', ip, n) && WellFormed(s')
    decreases n
  {
    if n == 0 {
      t, s' := Nothing(s), s;
    } else {
      var s1 := Step(c, s, Serve(Name(length)));
      FillOne(c, s, ip, Name(length));
      var one := OneStep(c, s, Serve(Name(length)), s1);
      var rest;
      rest, s' := Fill(c, s1, ip, n - 1, length + 1);
      Joined(c, one, rest, s, s1, s');
      t := Join(one, rest);
    }
  }

  // ----- Rounds: empty a new bucket, keep hold of it, and have the table dropped -----

  /** Requests from..to hold different buckets of the address, all of them empty since the start. */
  ghost predicate HoldEmpty(s: State, ip: string, from: nat, to: nat) {
    && (forall i :: from <= i < to ==>
          && i in s.held && s.held[i] < |s.pool|
          && s.pool[s.held[i]].owner == ip && s.pool[s.held[i]].bucket == Bucket(0, s.start))
    && (forall i, k :: from <= i < k < to ==> s.held[i] != s.held[k])
  }

  ghost predicate AfterRounds(c: Config, s: State, ip: string, n: nat) {
    && s.live == map[] && s.fired == n && s.now == s.start
    && Given(s.pool, ip) == n * c.burst
    && HoldEmpty(s, ip, 0, n)
    && (forall r :: r in s.held ==> r < n)
  }

  /** Empty a new bucket and look it up once more. */
  lemma DrainAndHold(c: Config, s: State, ip: string, n: nat) returns (t: Trace)
    requires WellFormed(s) && ip !in s.live && n !in s.held && c.burst >= 1
    ensures Leads(c, t, s, WithNew(c, s, ip, 0).(held := s.held[n := |s.pool|]))
  {
    var drain := DrainNew(c, s, ip);
    var s1 := WithNew(c, s, ip, 0);
    var s2 := s1.(held := s.held[n := |s.pool|]);
    var hold := OneStep(c, s1, Lookup(n, ip), s2);
    Joined(c, drain, hold, s, s1, s2);
    t := Join(drain, hold);
  }

  lemma CleanupDrops(c: Config, s: State)
    requires WellFormed(s) && |s.live| > MAX_LIMITERS
    ensures Step(c, s, Cleanup) == s.(live := map[], fired := s.fired + 1)
  {
  }

  /** Fill the table and have it dropped. */
  lemma FillAndDrop(c: Config, s: State, ip: string) returns (t: Trace, s': State)
    requires WellFormed(s) && s.live.Keys == {ip}
    ensures Leads(c, t, s, s') && WellFormed(s')
    ensures s'.start == s.start && s'.now == s.now && s'.held == s.held && s'.fired == s.fired + 1 && s'.live == map[]
    ensures s.pool <= s'.pool && Given(s'.pool, ip) == Given(s.pool, ip)
  {
    var fill, s1 := Fill(c, s, ip, MAX_LIMITERS, |ip| + 1);
    assert |s.live| == |s.live.Keys| == 1;
    CleanupDrops(c, s1);
    s' := s1.(live := map[], fired := s1.fired + 1);
    var drop := OneStep(c, s1, Cleanup, s');
    Joined(c, fill, drop, s, s1, s');
    t := Join(fill, drop);
  }

  lemma Round(c: Config, s: State, ip: string, n: nat) returns (t: Trace, s': State)
    requires WellFormed(s) && AfterRounds(c, s, ip, n) && c.burst >= 1
    ensures Leads(c, t, s, s') && AfterRounds(c, s', ip, n + 1) && WellFormed(s') && s'.start == s.start
  {
    var hold := DrainAndHold(c, s, ip, n);
    var s1 := WithNew(c, s, ip, 0).(held := s.held[n := |s.pool|]);
    assert s1.live.Keys == {ip};
    var drop;
    drop, s' := FillAndDrop(c, s1, ip);
    Joined(c, hold, drop, s, s1, s');
    t := Join(hold, drop);
    RoundDone(c, s, s', ip, n);
  }

  lemma HoldOneMore(c: Config, s: State, s': State, ip: string, n: nat)
    requires WellFormed(s) && AfterRounds(c, s, ip, n) && c.burst >= 0
    requires s.pool + [Slot(ip, Bucket(0, s.now), c.burst)] <= s'.pool && s'.held == s.held[n := |s.pool|]
    requires s'.start == s.start
    ensures HoldEmpty(s', ip, 0, n + 1)
  {
    assert s'.pool[|s.pool|] == (s.pool + [Slot(ip, Bucket(0, s.now), c.burst)])[|s.pool|];
    assert forall i :: 0 <= i < |s.pool| ==> s'.pool[i] == (s.pool + [Slot(ip, Bucket(0, s.now), c.burst)])[i];
  }

  lemma RoundDone(c: Config, s: State, s': State, ip: string, n: nat)
    requires WellFormed(s) && AfterRounds(c, s, ip, n) && c.burst >= 0
    requires s'.start == s.start && s'.now == s.now && s'.fired == s.fired + 1 && s'.live == map[]
    requires var grown := s.pool + [Slot(ip, Bucket(0, s.now), c.burst)];
             grown <= s'.pool && Given(s'.pool, ip) == Given(grown, ip)
    requires s'.held == s.held[n := |s.pool|]
    ensures AfterRounds(c, s', ip, n + 1)
  {
    AppendSlot(s.pool, Slot(ip, Bucket(0, s.now), c.burst), ip);
    HoldOneMore(c, s, s', ip, n);
    Distribute(n, 1, c.burst);
  }

  lemma {:induction false} Rounds(c: Config, start: int, ip: string, n: nat) returns (t: Trace, s: State)
    requires c.burst >= 1
    ensures Leads(c, t, Init(start), s) && AfterRounds(c, s, ip, n) && WellFormed(s) && s.start == start
  {
    if n == 0 {
      t, s := Nothing(Init(start)), Init(start);
    } else {
      var before, s1 := Rounds(c, start, ip, n - 1);
      var last;
      last, s := Round(c, s1, ip, n - 1);
      Joined(c, before, last, Init(start), s1, s);
      t := Join(before, last);
    }
  }

  // ----- After a wait, every dropped bucket has a token again -----

  ghost predicate BeforeDraws(c: Config, s: State, ip: string, n: nat, k: nat, wait: nat) {
    && k <= n && s.live == map[] && s.fired == n && s.now == s.start + wait
    && Given(s.pool, ip) == n * c.burst + k
    && HoldEmpty(s, ip, k, n)
  }

  /** An empty bucket gives a token after the wait. */
  lemma DrawnAfter(c: Config, slot: Slot, start: int, wait: nat)
    requires slot.bucket == Bucket(0, start) && c.burst >= 1 && c.rate > 0 && c.rate * wait >= TOKEN
    ensures var after := Drawn(c, slot, start + wait); after.owner == slot.owner && after.given == slot.given + 1
  {
    assert start + wait - Min(start, start + wait) == wait;
  }

  lemma DrawOne(c: Config, s: State, ip: string, n: nat, k: nat, wait: nat)
    requires WellFormed(s) && BeforeDraws(c, s, ip, n, k, wait) && k < n
    requires c.burst >= 1 && c.rate > 0 && c.rate * wait >= TOKEN
    ensures BeforeDraws(c, Step(c, s, Draw(k)), ip, n, k + 1, wait) && Step(c, s, Draw(k)).start == s.start
  {
    var i := s.held[k];
    DrawnAfter(c, s.pool[i], s.start, wait);
    UpdateSlot(s.pool, i, Drawn(c, s.pool[i], s.now), ip);
  }

  lemma {:induction false} Draws(c: Config, s: State, ip: string, n: nat, k: nat, wait: nat)
    returns (t: Trace, s': State)
    requires WellFormed(s) && BeforeDraws(c, s, ip, n, k, wait)
    requires c.burst >= 1 && c.rate > 0 && c.rate * wait >= TOKEN
    ensures Leads(c, t, s, s') && BeforeDraws(c, s', ip, n, n, wait) && WellFormed(s') && s'.start == s.start
    decreases n - k
  {
    if k == n {
      t, s' := Nothing(s), s;
    } else {
      var s1 := Step(c, s, Draw(k));
      DrawOne(c, s, ip, n, k, wait);
      var one := OneStep(c, s, Draw(k), s1);
      var rest;
      rest, s' := Draws(c, s1, ip, n, k + 1, wait);
      Joined(c, one, rest, s, s1, s');
      t := Join(one, rest);
    }
  }

  ghost predicate Overdrawn(c: Config, s: State, ip: string, n: nat, wait: nat) {
    s.fired == n && s.now == wait && Given(s.pool, ip) == n * c.burst + n + c.burst
  }

  /** n rounds, a wait, a draw on each dropped bucket, and the burst of a new one. */
  lemma Overdraw(c: Config, ip: string, n: nat, wait: nat) returns (t: Trace, s: State)
    requires c.burst >= 1 && c.rate > 0 && c.rate * wait >= TOKEN
    ensures Leads(c, t, Init(0), s) && Overdrawn(c, s, ip, n, wait)
  {
    var rounds, s1 := Rounds(c, 0, ip, n);
    var s2 := s1.(now := s1.now + wait);
    var tick := OneStep(c, s1, Tick(wait), s2);
    var draws, s3 := Draws(c, s2, ip, n, 0, wait);
    var drain := DrainNew(c, s3, ip);
    s := WithNew(c, s3, ip, 0);
    AppendSlot(s3.pool, Slot(ip, Bucket(0, s3.now), c.burst), ip);
    Joined(c, rounds, tick, Init(0), s1, s2);
    Joined(c, draws, drain, s2, s3, s);
    Joined(c, Join(rounds, tick), Join(draws, drain), Init(0), s2, s);
    t := Join(Join(rounds, tick), Join(draws, drain));
  }

  /** In a second every bucket refills a token, and rate + 1 of them together more than the rate. */
  lemma Enough(rate: int) returns (wait: nat, n: nat)
    requires rate > 0
    ensures rate * wait >= TOKEN && n * TOKEN > rate * wait
  {
    wait := TOKEN;
    MulMonotone(1, rate, TOKEN);
    n := rate + 1;
    Distribute(rate, 1, TOKEN);
  }

  lemma Exceeds(c: Config, s: State, ip: string, n: nat, wait: nat)
    requires c.burst >= 1 && c.rate > 0 && n * TOKEN > c.rate * wait && Overdrawn(c, s, ip, n, wait)
    ensures !PlainBound(c, s, 0, ip)
  {
    Associate(n + 1, c.burst, TOKEN);
    Distribute(n, 1, c.burst);
  }

  // ----- When the plain bound holds -----

  lemma {:induction false} RunGivesNothing(c: Config, s: State, run: seq<Action>)
    requires WellFormed(s) && Valid(c, s, run) && c.burst <= 0
    requires forall i :: 0 <= i < |s.pool| ==> s.pool[i].given == 0
    ensures var s' := Final(c, s, run);
            s.now <= s'.now && forall i :: 0 <= i < |s'.pool| ==> s'.pool[i].given == 0
    decreases run
  {
    if run != [] {
      RunGivesNothing(c, Step(c, s, run[0]), run[1..]);
    }
  }

  lemma {:induction false} NothingGiven(pool: seq<Slot>, ip: string)
    requires forall i :: 0 <= i < |pool| ==> pool[i].given == 0
    ensures Given(pool, ip) == 0
  {
    if pool != [] {
      NothingGiven(pool[..|pool| - 1], ip);
    }
  }

  lemma NoRefill(c: Config, k: nat, elapsed: int)
    requires c.rate <= 0
    ensures k * Supply(c.rate, c.burst, 1, elapsed) == Supply(c.rate, c.burst, k, elapsed)
  {
    assert 0 * elapsed == 0;
  }

  lemma NoLoss(c: Config, k: nat, elapsed: nat)
    ensures Supply(c.rate, c.burst, k, elapsed) >= 0
  {
    MulMonotone(0, Max(c.rate, 0), elapsed);
    MulMonotone(0, k, Max(c.burst, 0) * TOKEN);
  }

  lemma PlainBoundKept(c: Config, start: int, run: seq<Action>, ip: string)
    requires Valid(c, Init(start), run) && (c.rate <= 0 || c.burst <= 0)
    ensures PlainBound(c, Final(c, Init(start), run), start, ip)
  {
    var s := Final(c, Init(start), run);
    if c.rate <= 0 {
      LooseBudget(c, start, run, ip);
      NoRefill(c, s.fired + 1, s.now - start);
    } else {
      RunGivesNothing(c, Init(start), run);
      NothingGiven(s.pool, ip);
      NoLoss(c, s.fired + 1, s.now - start);
    }
  }

  lemma PlainBoundBroken(c: Config) returns (run: seq<Action>)
    requires c.rate > 0 && c.burst > 0
    ensures Valid(c, Init(0), run) && !PlainBound(c, Final(c, Init(0), run), 0, "")
  {
    var wait, n := Enough(c.rate);
    var t, s := Overdraw(c, "", n, wait);
    Exceeds(c, s, "", n, wait);
    TraceIsRun(c, t, Init(0), s);
    run := t.run;
  }

  /**
   Without the stray draws the bound holds for all interleavings exactly when nothing is refilled or nothing admitted.
   */
  lemma PlainBoundHoldsIff(c: Config)
    ensures PlainBoundHolds(c) <==> c.rate <= 0 || c.burst <= 0
  {
    if c.rate <= 0 || c.burst <= 0 {
      forall start: int, run: seq<Action>, ip: string | Valid(c, Init(start), run)
        ensures PlainBound(c, Final(c, Init(start), run), start, ip)
      {
        PlainBoundKept(c, start, run, ip);
      }
    } else {
      var run := PlainBoundBroken(c);
    }
  }
}
