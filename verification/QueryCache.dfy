/**
 Cache-aside for query results.  A wrapper call looks up, runs its function on a miss, returns, and stores the
 result asynchronously; lookups, function runs, pending stores, invalidations and expiry interleave freely.
 */
module QueryCache {
  import opened Common
  import opened Keys
  import opened Redis

  /** A query result; Null is Go's nil. */
  datatype Value = Null | Data(data: string)

  const MINUTE := 60_000_000_000

  /**
   `encode` and `decode` stand for JSON: a value may have no encoding, and a stored text may not decode.
   `connected` is false when the cache was built without Redis.  `queries` are the queries in use, of which no two are
   assumed to have the same hash.
   */
  datatype Config = Config(sha: string -> string, queries: set<string>, prefix: string,
                           defaultTtl: int, grain: nat, connected: bool,
                           encode: Value -> Option<string>, decode: string -> Option<Value>)
  {
    ghost predicate Sound() {
      CollisionFree(sha, queries) && grain > 0
    }

    function Key(query: string): string {
      QueryKey(prefix, sha(query))
    }

    /** Can a stored value be read back? */
    predicate Readable(v: Value) {
      encode(v).Some? && decode(encode(v).value).Some?
    }

    function Ttl(ttl: int): int {
      if ttl > 0 then ttl else defaultTtl
    }
  }

  /** The defaults the constructor puts in place of an absent TTL or prefix. */
  function NewConfig(c: Config): Config {
    c.(defaultTtl := if c.defaultTtl == 0 then 5 * MINUTE else c.defaultTtl,
       prefix := if c.prefix == "" then DEFAULT_PREFIX else c.prefix)
  }

  datatype Task =
    | Called(query: string, ttl: int)                              // CacheWrapper entered
    | Missed(query: string, ttl: int)                              // nothing usable in the cache
    | Running(query: string, ttl: int, born: nat)                  // the function runs, since step `born`
    | Storing(query: string, ttl: int, value: Value, born: nat)    // a Set is on its way
    | Finished

  /** A value handed to a caller: by a cache hit, or by the caller's own function run. */
  datatype Returned = Returned(query: string, value: Value, hit: bool, born: nat)

  /** Where the text stored under a key comes from. */
  datatype Origin = Origin(query: string, value: Value, born: nat)

  /** `produced`, `origin` and `log` are history: they record the run and steer nothing. */
  datatype State = State(now: int, steps: nat, store: Store, tasks: map<nat, Task>, log: seq<Returned>,
                         produced: set<(string, Value)>, origin: map<string, Origin>)

  function Init(now: int): State {
    State(now, 0, map[], map[], [], {}, map[])
  }

  datatype Action =
    | Tick(dt: nat)
    | Call(t: nat, query: string, ttl: int)
    | Lookup(t: nat, up: bool)                 // the wrapper's Get; not `up` is a Redis error, which counts as a miss
    | Start(t: nat)
    | Finish(t: nat, result: Option<Value>)    // the function returns a value or an error
    | Put(t: nat, query: string, value: Value, ttl: int)  // a caller's own Set
    | Land(t: nat, up: bool, again: bool)      // a pending SET executes or fails; `again` if another may still come
    | Fetch(query: string, up: bool)           // a caller's own Get
    | Invalidate(query: string, up: bool)
    | Foreign(cmd: Command)                    // another family's command on the same store

  ghost predicate Enabled(c: Config, s: State, a: Action) {
    match a
    case Tick(_) => true
    case Call(t, q, _) => t !in s.tasks && q in c.queries
    case Lookup(t, _) => t in s.tasks && s.tasks[t].Called?
    case Start(t) => t in s.tasks && s.tasks[t].Missed?
    case Finish(t, _) => t in s.tasks && s.tasks[t].Running?
    case Put(t, q, _, _) => t !in s.tasks && q in c.queries
    case Land(t, _, _) => t in s.tasks && s.tasks[t].Storing?
    case Fetch(q, _) => q in c.queries
    case Invalidate(q, _) => q in c.queries
    case Foreign(cmd) => forall q :: q in c.queries ==> cmd.key != c.Key(q)
  }

  /** What Get finds: the decoded value, or nothing on a miss, an error or an undecodable text. */
  function Found(c: Config, store: Store, query: string, now: int, up: bool): Option<Value> {
    if !c.connected || !up then None
    else match Get(store, c.Key(query), now)
         case None => None
         case Some(text) => c.decode(text)
  }

  function Stored(c: Config, store: Store, query: string, value: Value, ttl: int, now: int, up: bool): Store
    requires c.grain > 0
  {
    if !c.connected || !up || c.encode(value).None? then store
    else Set(store, c.Key(query), c.encode(value).value, now, c.Ttl(ttl), c.grain)
  }

  function Dropped(c: Config, store: Store, query: string, up: bool): Store {
    if c.connected && up then Delete(store, c.Key(query)) else store
  }

  function BornOf(c: Config, s: State, query: string): nat {
    if c.Key(query) in s.origin then s.origin[c.Key(query)].born else 0
  }

  function At(s: State, t: nat, task: Task): State {
    s.(steps := s.steps + 1, tasks := s.tasks[t := task])
  }

  function Step(c: Config, s: State, a: Action): State
    requires Enabled(c, s, a) && c.grain > 0
  {
    match a
    case Tick(dt) => s.(now := s.now + dt, steps := s.steps + 1)
    case Call(t, q, ttl) => At(s, t, Called(q, ttl))
    case Lookup(t, up) =>
      var q := s.tasks[t].query;
      var found := Found(c, s.store, q, s.now, up);
      if found.Some? && found.value != Null
      then At(s, t, Finished).(log := s.log + [Returned(q, found.value, true, BornOf(c, s, q))])
      else At(s, t, Missed(q, s.tasks[t].ttl))
    case Start(t) => At(s, t, Running(s.tasks[t].query, s.tasks[t].ttl, s.steps))
    case Finish(t, result) =>
      (match result
       case None => At(s, t, Finished)
       case Some(v) =>
         var r := s.tasks[t];
         At(s, t, Storing(r.query, r.ttl, v, r.born)).(
           log := s.log + [Returned(r.query, v, false, r.born)], produced := s.produced + {(r.query, v)}))
    case Put(t, q, v, ttl) => At(s, t, Storing(q, ttl, v, s.steps)).(produced := s.produced + {(q, v)})
    case Land(t, up, again) =>
      var w := s.tasks[t];
      var store := Stored(c, s.store, w.query, w.value, w.ttl, s.now, up);
      var origin := if c.connected && up && c.encode(w.value).Some?
                    then s.origin[c.Key(w.query) := Origin(w.query, w.value, w.born)] else s.origin;
      At(s, t, if again then w else Finished).(store := store, origin := origin)
    case Fetch(q, up) =>
      var found := Found(c, s.store, q, s.now, up);
      var log := if found.Some? then s.log + [Returned(q, found.value, true, BornOf(c, s, q))] else s.log;
      s.(steps := s.steps + 1, log := log)
    case Invalidate(q, up) => s.(steps := s.steps + 1, store := Dropped(c, s.store, q, up))
    case Foreign(cmd) => s.(steps := s.steps + 1, store := Execute(s.store, cmd, s.now, c.grain))
  }

  ghost predicate Valid(c: Config, s: State, run: seq<Action>)
    requires c.grain > 0
    decreases run
  {
    run == [] || (Enabled(c, s, run[0]) && Valid(c, Step(c, s, run[0]), run[1..]))
  }

  ghost function Final(c: Config, s: State, run: seq<Action>): State
    requires c.grain > 0 && Valid(c, s, run)
    decreases run
  {
    if run == [] then s else Final(c, Step(c, s, run[0]), run[1..])
  }

  // ----- Where values come from -----

  /** The value of a hit is the decoded encoding of something produced under the same query. */
  ghost predicate FromProduced(c: Config, s: State, r: Returned) {
    if r.hit then
      exists v :: (r.query, v) in s.produced && c.encode(v).Some? && c.decode(c.encode(v).value) == Some(r.value)
    else (r.query, r.value) in s.produced
  }

  ghost predicate StoreInv(c: Config, s: State, q: string) {
    var key := c.Key(q);
    key in s.store ==>
      && key in s.origin && s.origin[key].query == q && (q, s.origin[key].value) in s.produced
      && c.encode(s.origin[key].value).Some?
      && s.store[key].value == Text(c.encode(s.origin[key].value).value)
  }

  ghost predicate Inv(c: Config, s: State) {
    && (forall q :: q in c.queries ==> StoreInv(c, s, q))
    && (forall t :: t in s.tasks && !s.tasks[t].Finished? ==> s.tasks[t].query in c.queries)
    && (forall t :: t in s.tasks && s.tasks[t].Storing? ==> (s.tasks[t].query, s.tasks[t].value) in s.produced)
    && (forall i :: 0 <= i < |s.log| ==> FromProduced(c, s, s.log[i]))
  }

  lemma SameKeySameQuery(c: Config, q: string, q': string)
    requires c.Sound() && q in c.queries && q' in c.queries
    ensures c.Key(q) == c.Key(q') ==> q == q'
  {
    QueryKeyInjective(c.sha, c.prefix, q, c.prefix, q');
  }

  /** A hit reads the value its origin records. */
  lemma HitReadsOrigin(c: Config, s: State, q: string, up: bool)
    requires StoreInv(c, s, q) && Found(c, s.store, q, s.now, up).Some?
    ensures var key := c.Key(q);
            key in s.store && key in s.origin && BornOf(c, s, q) == s.origin[key].born
            && c.Readable(s.origin[key].value)
            && FromProduced(c, s, Returned(q, Found(c, s.store, q, s.now, up).value, true, BornOf(c, s, q)))
  {
  }

  lemma StoreStepKeeps(c: Config, s: State, a: Action, q: string)
    requires c.Sound() && q in c.queries && Inv(c, s) && Enabled(c, s, a)
    ensures StoreInv(c, Step(c, s, a), q)
  {
    assert StoreInv(c, s, q);
    match a
    case Land(t, _, _) => SameKeySameQuery(c, q, s.tasks[t].query);
    case Invalidate(q', _) => SameKeySameQuery(c, q, q');
    case _ =>
  }

  lemma LogStepKeeps(c: Config, s: State, a: Action, i: nat)
    requires c.Sound() && Inv(c, s) && Enabled(c, s, a) && i < |Step(c, s, a).log|
    ensures FromProduced(c, Step(c, s, a), Step(c, s, a).log[i])
  {
    var s' := Step(c, s, a);
    if i < |s.log| {
      assert s'.log[i] == s.log[i] && FromProduced(c, s, s.log[i]);
    } else if a.Lookup? {
      HitReadsOrigin(c, s, s.tasks[a.t].query, a.up);
    } else if a.Fetch? {
      HitReadsOrigin(c, s, a.query, a.up);
    }
  }

  lemma StepKeeps(c: Config, s: State, a: Action)
    requires c.Sound() && Inv(c, s) && Enabled(c, s, a)
    ensures Inv(c, Step(c, s, a))
  {
    forall q | q in c.queries ensures StoreInv(c, Step(c, s, a), q) { StoreStepKeeps(c, s, a, q); }
    forall i | 0 <= i < |Step(c, s, a).log| ensures FromProduced(c, Step(c, s, a), Step(c, s, a).log[i]) {
      LogStepKeeps(c, s, a, i);
    }
  }

  lemma {:induction false} RunKeeps(c: Config, s: State, run: seq<Action>)
    requires c.Sound() && Inv(c, s) && Valid(c, s, run)
    ensures Inv(c, Final(c, s, run))
    decreases run
  {
    if run != [] {
      StepKeeps(c, s, run[0]);
      RunKeeps(c, Step(c, s, run[0]), run[1..]);
    }
  }

  /** This step makes `v` a result for `q`: a function run for `q` returns it, or a caller passes it to Set. */
  predicate Produces(s: State, a: Action, q: string, v: Value) {
    || (a.Finish? && a.t in s.tasks && s.tasks[a.t].Running? && s.tasks[a.t].query == q && a.result == Some(v))
    || (a.Put? && a.query == q && a.value == v)
  }

  ghost predicate ProducedDuring(c: Config, s: State, run: seq<Action>, q: string, v: Value)
    requires c.grain > 0 && Valid(c, s, run)
    decreases run
  {
    run != [] && (Produces(s, run[0], q, v) || ProducedDuring(c, Step(c, s, run[0]), run[1..], q, v))
  }

  lemma {:induction false} ProducedIsHistory(c: Config, s: State, run: seq<Action>, q: string, v: Value)
    requires c.grain > 0 && Valid(c, s, run)
    ensures (q, v) in Final(c, s, run).produced <==> (q, v) in s.produced || ProducedDuring(c, s, run, q, v)
    decreases run
  {
    if run != [] {
      ProducedIsHistory(c, Step(c, s, run[0]), run[1..], q, v);
    }
  }

  /**
   Whatever a caller gets for a query was returned by a function run or passed to Set under that query, up to JSON
   form.
   */
  lemma EveryValueWasProduced(c: Config, now: int, run: seq<Action>, i: nat)
    requires c.Sound() && Valid(c, Init(now), run) && i < |Final(c, Init(now), run).log|
    ensures var r := Final(c, Init(now), run).log[i];
            if r.hit then
              exists v :: ProducedDuring(c, Init(now), run, r.query, v) && c.Readable(v)
                          && c.decode(c.encode(v).value) == Some(r.value)
            else ProducedDuring(c, Init(now), run, r.query, r.value)
  {
    RunKeeps(c, Init(now), run);
    var s := Final(c, Init(now), run);
    var r := s.log[i];
    assert FromProduced(c, s, r);
    if r.hit {
      var v :| (r.query, v) in s.produced && c.encode(v).Some? && c.decode(c.encode(v).value) == Some(r.value);
      ProducedIsHistory(c, Init(now), run, r.query, v);
    } else {
      ProducedIsHistory(c, Init(now), run, r.query, r.value);
    }
  }

  /** What is stored under a query's key encodes such a value too: a failed function run leaves nothing behind. */
  lemma EveryStoredValueWasProduced(c: Config, now: int, run: seq<Action>, q: string)
    requires c.Sound() && q in c.queries && Valid(c, Init(now), run) && c.Key(q) in Final(c, Init(now), run).store
    ensures exists v :: ProducedDuring(c, Init(now), run, q, v) && c.encode(v).Some?
                        && Final(c, Init(now), run).store[c.Key(q)].value == Text(c.encode(v).value)
  {
    RunKeeps(c, Init(now), run);
    var s := Final(c, Init(now), run);
    assert StoreInv(c, s, q);
    ProducedIsHistory(c, Init(now), run, q, s.origin[c.Key(q)].value);
  }

  /** If a query's result never changes and survives JSON, the cached program returns what the uncached one does. */
  lemma CachedAgreesWithUncached(c: Config, now: int, run: seq<Action>, f: string -> Value, i: nat)
    requires c.Sound() && Valid(c, Init(now), run) && i < |Final(c, Init(now), run).log|
    requires forall q, v :: ProducedDuring(c, Init(now), run, q, v) ==> v == f(q)
    ensures var r := Final(c, Init(now), run).log[i];
            && (!r.hit ==> r.value == f(r.query))
            && (r.hit ==> c.Readable(f(r.query)) && Some(r.value) == c.decode(c.encode(f(r.query)).value))
            && (c.Readable(f(r.query)) && c.decode(c.encode(f(r.query)).value) == Some(f(r.query)) ==>
                  r.value == f(r.query))
  {
    EveryValueWasProduced(c, now, run, i);
  }

  // ----- Invalidation -----

  /**
   A task that can still put a readable value for `q` into the store: its function has started, and a SET of it may
   still execute.
   */
  ghost predicate Pending(c: Config, task: Task, q: string) {
    || (task.Running? && task.query == q && exists v :: c.Readable(v))
    || (task.Storing? && task.query == q && c.Readable(task.value))
  }

  ghost predicate AnyPending(c: Config, s: State, q: string) {
    exists t :: t in s.tasks && Pending(c, s.tasks[t], q)
  }

  /**
   From step `since` on, whatever is stored or may be stored for `q`, and every hit after `from` log entries, is
   younger.
   */
  ghost predicate Young(c: Config, s: State, q: string, since: nat, from: nat) {
    && since <= s.steps && from <= |s.log|
    && (forall t :: t in s.tasks && Pending(c, s.tasks[t], q) ==> s.tasks[t].born >= since)
    && (c.Key(q) in s.store && c.Key(q) in s.origin && c.Readable(s.origin[c.Key(q)].value) ==>
          s.origin[c.Key(q)].born >= since)
    && (forall i :: from <= i < |s.log| && s.log[i].hit && s.log[i].query == q ==> s.log[i].born >= since)
  }

  lemma HitIsYoung(c: Config, s: State, q: string, up: bool, since: nat, from: nat)
    requires q in c.queries && Inv(c, s) && Young(c, s, q, since, from) && Found(c, s.store, q, s.now, up).Some?
    ensures BornOf(c, s, q) >= since
  {
    assert StoreInv(c, s, q);
    HitReadsOrigin(c, s, q, up);
  }

  lemma LookupKeepsYoung(c: Config, s: State, a: Action, q: string, since: nat, from: nat)
    requires c.Sound() && q in c.queries && Inv(c, s) && Young(c, s, q, since, from)
    requires (a.Lookup? || a.Fetch?) && Enabled(c, s, a)
    ensures Young(c, Step(c, s, a), q, since, from)
  {
    if Found(c, s.store, q, s.now, a.up).Some? { HitIsYoung(c, s, q, a.up, since, from); }
  }

  lemma FinishKeepsYoung(c: Config, s: State, a: Action, q: string, since: nat, from: nat)
    requires c.Sound() && a.Finish? && Enabled(c, s, a) && Young(c, s, q, since, from)
    ensures Young(c, Step(c, s, a), q, since, from)
  {
    if a.result.Some? && s.tasks[a.t].query == q && c.Readable(a.result.value) { assert Pending(c, s.tasks[a.t], q); }
  }

  lemma LandKeepsYoung(c: Config, s: State, a: Action, q: string, since: nat, from: nat)
    requires c.Sound() && q in c.queries && Inv(c, s) && a.Land? && Enabled(c, s, a) && Young(c, s, q, since, from)
    ensures Young(c, Step(c, s, a), q, since, from)
  {
    SameKeySameQuery(c, q, s.tasks[a.t].query);
    if s.tasks[a.t].query == q && c.Readable(s.tasks[a.t].value) { assert Pending(c, s.tasks[a.t], q); }
  }

  lemma StepKeepsYoung(c: Config, s: State, a: Action, q: string, since: nat, from: nat)
    requires c.Sound() && q in c.queries && Inv(c, s) && Enabled(c, s, a) && Young(c, s, q, since, from)
    ensures Young(c, Step(c, s, a), q, since, from)
  {
    match a
    case Lookup(_, _) => LookupKeepsYoung(c, s, a, q, since, from);
    case Fetch(_, _) => LookupKeepsYoung(c, s, a, q, since, from);
    case Finish(_, _) => FinishKeepsYoung(c, s, a, q, since, from);
    case Land(_, _, _) => LandKeepsYoung(c, s, a, q, since, from);
    case Invalidate(q', _) => SameKeySameQuery(c, q, q');
    case _ => assert StoreInv(c, s, q);
  }

  lemma {:induction false} RunKeepsYoung(c: Config, s: State, run: seq<Action>, q: string, since: nat, from: nat)
    requires c.Sound() && q in c.queries && Inv(c, s) && Valid(c, s, run) && Young(c, s, q, since, from)
    ensures Young(c, Final(c, s, run), q, since, from)
    decreases run
  {
    if run != [] {
      StepKeeps(c, s, run[0]);
      StepKeepsYoung(c, s, run[0], q, since, from);
      RunKeepsYoung(c, Step(c, s, run[0]), run[1..], q, since, from);
    }
  }

  /**
   In every continuation of `s`, each further hit on `q` returns a value whose computation started at or after `since`.
   */
  ghost predicate OnlyFreshHits(c: Config, s: State, q: string, since: nat)
    requires c.grain > 0
  {
    forall run: seq<Action>, i: nat :: Valid(c, s, run) && |s.log| <= i < |Final(c, s, run).log| ==>
      (Final(c, s, run).log[i].hit && Final(c, s, run).log[i].query == q ==> Final(c, s, run).log[i].born >= since)
  }

  lemma FreshWhenNothingPending(c: Config, s: State, q: string)
    requires c.Sound() && q in c.queries && Inv(c, s) && c.connected && !AnyPending(c, s, q)
    ensures OnlyFreshHits(c, Step(c, s, Invalidate(q, true)), q, s.steps)
  {
    var s' := Step(c, s, Invalidate(q, true));
    StepKeeps(c, s, Invalidate(q, true));
    assert Young(c, s', q, s.steps, |s'.log|);
    forall run: seq<Action>, i: nat | Valid(c, s', run) && |s'.log| <= i < |Final(c, s', run).log|
      ensures Final(c, s', run).log[i].hit && Final(c, s', run).log[i].query == q ==>
                Final(c, s', run).log[i].born >= s.steps
    {
      RunKeepsYoung(c, s', run, q, s.steps, |s'.log|);
    }
  }

  ghost predicate BornInThePast(s: State) {
    forall t :: t in s.tasks && (s.tasks[t].Running? || s.tasks[t].Storing?) ==> s.tasks[t].born < s.steps
  }

  lemma {:induction false} RunKeepsBornInThePast(c: Config, s: State, run: seq<Action>)
    requires c.grain > 0 && BornInThePast(s) && Valid(c, s, run)
    ensures BornInThePast(Final(c, s, run))
    decreases run
  {
    if run != [] {
      RunKeepsBornInThePast(c, Step(c, s, run[0]), run[1..]);
    }
  }

  lemma RunOfTwo(c: Config, s: State, a: Action, b: Action)
    requires c.grain > 0 && Enabled(c, s, a) && Enabled(c, Step(c, s, a), b)
    ensures Valid(c, s, [a, b]) && Final(c, s, [a, b]) == Step(c, Step(c, s, a), b)
  {
    assert [a, b][1..] == [b] && [b][1..] == [];
    var s1 := Step(c, s, a);
    var s2 := Step(c, s1, b);
    assert Valid(c, s2, []) && Final(c, s2, []) == s2;
    assert Valid(c, s1, [b]) && Final(c, s1, [b]) == Final(c, s2, [b][1..]);
    assert Final(c, s, [a, b]) == Final(c, s1, [a, b][1..]);
  }

  /** A Set that lands after the Invalidate is hit at once, with a value computed before. */
  lemma LateSetIsHit(c: Config, s: State, q: string, t: nat)
    requires c.Sound() && q in c.queries && c.connected && t in s.tasks && s.tasks[t].Storing? && s.tasks[t].query == q
    requires c.Readable(s.tasks[t].value)
    ensures var run := [Land(t, true, false), Fetch(q, true)];
            Valid(c, s, run) && var s' := Final(c, s, run);
            && |s'.log| == |s.log| + 1
            && s'.log[|s.log|].hit && s'.log[|s.log|].query == q && s'.log[|s.log|].born == s.tasks[t].born
  {
    var s1 := Step(c, s, Land(t, true, false));
    assert Live(s1.store, c.Key(q), s.now);
    RunOfTwo(c, s, Land(t, true, false), Fetch(q, true));
  }

  lemma StaleWhenPending(c: Config, s: State, q: string, t: nat)
    requires c.Sound() && q in c.queries && c.connected && BornInThePast(s)
    requires t in s.tasks && Pending(c, s.tasks[t], q)
    ensures !OnlyFreshHits(c, Step(c, s, Invalidate(q, true)), q, s.steps)
  {
    var s1 := Step(c, s, Invalidate(q, true));
    var late := [Land(t, true, false), Fetch(q, true)];
    if s.tasks[t].Storing? {
      LateSetIsHit(c, s1, q, t);
      assert Final(c, s1, late).log[|s1.log|].born < s.steps;
    } else {
      var v :| c.Readable(v);
      var finish := Finish(t, Some(v));
      var s2 := Step(c, s1, finish);
      LateSetIsHit(c, s2, q, t);
      var run := [finish] + late;
      assert run[1..] == late;
      assert Valid(c, s1, run) && Final(c, s1, run) == Final(c, s2, late);
      assert Final(c, s1, run).log[|s2.log|].born < s.steps;
    }
  }

  /**
   After an Invalidate that reached Redis, every later hit on the query is of a value computed after it, for all
   interleavings, exactly when at the Invalidate no function run or SET for that query could still put a readable
   value into the store.
   */
  lemma InvalidateIsEffectiveIff(c: Config, now: int, run: seq<Action>, q: string)
    requires c.Sound() && q in c.queries && c.connected && Valid(c, Init(now), run)
    ensures var s := Final(c, Init(now), run);
            OnlyFreshHits(c, Step(c, s, Invalidate(q, true)), q, s.steps) <==> !AnyPending(c, s, q)
  {
    var s := Final(c, Init(now), run);
    RunKeeps(c, Init(now), run);
    RunKeepsBornInThePast(c, Init(now), run);
    if AnyPending(c, s, q) {
      var t :| t in s.tasks && Pending(c, s.tasks[t], q);
      StaleWhenPending(c, s, q, t);
    } else {
      FreshWhenNothingPending(c, s, q);
    }
  }

  /**
   Whatever the queries in use and however JSON behaves, there are hash functions under which the assumptions hold.
   */
  lemma SoundExists(c: Config) returns (sha: string -> string)
    requires c.grain > 0 && |c.queries| <= Pow10(64)
    ensures c.(sha := sha).Sound()
  {
    sha := CollisionFreeExists(c.queries);
  }

  // ----- In plain terms -----

  /**
   Until when a Set is hit, for a cache built from `raw`: for the positive duration the caller gave, or else the
   configured one, or else five minutes; to the nanosecond if that is the server's unit.  A configured duration that is
   not positive sets no end, except that one of -1 ns keeps the end the key already has.
   */
  lemma StoredUntil(raw: Config, s: State, t: nat, again: bool, later: int)
    requires var c := NewConfig(raw);
             && c.grain > 0 && c.connected && Enabled(c, s, Land(t, true, again)) && c.encode(s.tasks[t].value).Some?
    ensures var c := NewConfig(raw);
            var w := s.tasks[t];
            var text := c.encode(w.value).value;
            var life := if w.ttl > 0 then w.ttl else if raw.defaultTtl == 0 then 300_000_000_000 else raw.defaultTtl;
            var key := (if raw.prefix == "" then "query" else raw.prefix) + ":" + raw.sha(w.query);
            var after := Step(c, s, Land(t, true, again)).store;
            && (forall other :: other != key ==> (other in after <==> other in s.store))
            && (life > 0 && later <= s.now + life - c.grain ==> Get(after, key, later) == Some(text))
            && (life > 0 && later >= s.now + Max(life, c.grain) ==> Get(after, key, later) == None)
            && (life <= 0 && life != -1 ==> Get(after, key, later) == Some(text))
            && (Get(after, key, later) == Some(text) ==> Found(c, after, w.query, later, true) == c.decode(text))
  {
    DefaultPrefix(raw, s.tasks[t].query);
  }

  /** So once that time has passed, and nothing else has happened, the query misses. */
  lemma MissAfterwards(raw: Config, s: State, t: nat, wait: nat)
    requires var c := NewConfig(raw);
             && c.grain > 0 && c.connected && Enabled(c, s, Land(t, true, false)) && c.encode(s.tasks[t].value).Some?
    requires var life := if s.tasks[t].ttl > 0 then s.tasks[t].ttl
                         else if raw.defaultTtl == 0 then 300_000_000_000 else raw.defaultTtl;
             life > 0 && wait >= Max(life, raw.grain)
    ensures var c := NewConfig(raw);
            var s' := Step(c, Step(c, s, Land(t, true, false)), Tick(wait));
            Found(c, s'.store, s.tasks[t].query, s'.now, true) == None
  {
    StoredUntil(raw, s, t, false, s.now + wait);
    DefaultPrefix(raw, s.tasks[t].query);
  }

  lemma DefaultPrefix(raw: Config, query: string)
    ensures NewConfig(raw).Key(query) == (if raw.prefix == "" then "query" else raw.prefix) + ":" + raw.sha(query)
  {
  }

  /** The steps of a wrapper call with nothing in between: a usable hit, or a run of the function. */
  function WrapperSteps(t: nat, query: string, ttl: int, up: bool, hit: bool, result: Option<Value>): seq<Action> {
    [Call(t, query, ttl)] + ([Lookup(t, up)] + if hit then [] else [Start(t)] + ([Finish(t, result)] + []))
  }

  lemma StepThen(c: Config, s: State, a: Action, run: seq<Action>)
    requires c.grain > 0 && Enabled(c, s, a) && Valid(c, Step(c, s, a), run)
    ensures Valid(c, s, [a] + run) && Final(c, s, [a] + run) == Final(c, Step(c, s, a), run)
  {
    assert ([a] + run)[1..] == run;
  }

  /**
   From every state, a wrapper call without interruption is a run, and ends as the method says: with the value found
   unless that is missing or nil; else with what the function returns, whose Set is pending exactly if it succeeded.
   */
  lemma WrapperIsARun(c: Config, s: State, t: nat, query: string, ttl: int, up: bool, result: Option<Value>)
    requires c.grain > 0 && t !in s.tasks && query in c.queries
    ensures var found := Found(c, s.store, query, s.now, up);
            var hit := found.Some? && found.value != Null;
            var run := WrapperSteps(t, query, ttl, up, hit, result);
            Valid(c, s, run) &&
            var s' := Final(c, s, run);
            && s'.store == s.store && t in s'.tasks && s'.tasks - {t} == s.tasks - {t}
            && (if hit then
                  s'.tasks[t] == Finished && s'.log == s.log + [Returned(query, found.value, true, BornOf(c, s, query))]
                else if result == None then
                  s'.tasks[t] == Finished && s'.log == s.log
                else
                  && s'.tasks[t] == Storing(query, ttl, result.value, s.steps + 2)
                  && s'.log == s.log + [Returned(query, result.value, false, s.steps + 2)])
  {
    var found := Found(c, s.store, query, s.now, up);
    var s1 := At(s, t, Called(query, ttl));
    var rest;
    if found.Some? && found.value != Null {
      StepThen(c, s1, Lookup(t, up), []);
      rest := [Lookup(t, up)] + [];
    } else {
      var s2 := At(s1, t, Missed(query, ttl));
      FunctionIsRun(c, s2, t, result);
      assert Step(c, s1, Lookup(t, up)) == s2;
      StepThen(c, s1, Lookup(t, up), [Start(t)] + ([Finish(t, result)] + []));
      rest := [Lookup(t, up)] + ([Start(t)] + ([Finish(t, result)] + []));
    }
    assert Step(c, s, Call(t, query, ttl)) == s1;
    StepThen(c, s, Call(t, query, ttl), rest);
    var s' := Final(c, s1, rest);
    assert s'.tasks == s.tasks[t := s'.tasks[t]];
  }

  /** After a miss the function runs to its end. */
  lemma FunctionIsRun(c: Config, s: State, t: nat, result: Option<Value>)
    requires c.grain > 0 && t in s.tasks && s.tasks[t].Missed?
    ensures var run := [Start(t)] + ([Finish(t, result)] + []);
            var q := s.tasks[t].query;
            Valid(c, s, run) &&
            var s' := Final(c, s, run);
            && s'.store == s.store && t in s'.tasks && s'.tasks == s.tasks[t := s'.tasks[t]]
            && (if result == None then s'.tasks[t] == Finished && s'.log == s.log
                else
                  && s'.tasks[t] == Storing(q, s.tasks[t].ttl, result.value, s.steps)
                  && s'.log == s.log + [Returned(q, result.value, false, s.steps)])
  {
    var s1 := At(s, t, Running(s.tasks[t].query, s.tasks[t].ttl, s.steps));
    assert Step(c, s, Start(t)) == s1;
    StepThen(c, s1, Finish(t, result), []);
    StepThen(c, s, Start(t), [Finish(t, result)] + []);
  }

  /** Likewise a caller's own Set, Get and Invalidate: what they leave in the store, and what Get hands out. */
  lemma OtherCallsAreRuns(c: Config, s: State, t: nat, query: string, value: Value, ttl: int, up: bool)
    requires c.grain > 0 && t !in s.tasks && query in c.queries
    ensures var own := [Put(t, query, value, ttl)] + ([Land(t, up, false)] + []);
            Valid(c, s, own) && Final(c, s, own).store == Stored(c, s.store, query, value, ttl, s.now, up)
    ensures var found := Found(c, s.store, query, s.now, up);
            var after := Step(c, s, Fetch(query, up));
            && after.store == s.store
            && after.log == s.log + if found == None then []
                                    else [Returned(query, found.value, true, BornOf(c, s, query))]
    ensures Step(c, s, Invalidate(query, up)).store == if c.connected && up then s.store - {c.Key(query)} else s.store
  {
    var s1 := Step(c, s, Put(t, query, value, ttl));
    StepThen(c, s1, Land(t, up, false), []);
    StepThen(c, s, Put(t, query, value, ttl), [Land(t, up, false)] + []);
  }

  /** The object: its Get, Set and Invalidate do to the shared store what the protocol's steps do. */
  class QueryCache {
    const config: Config
    const redis: RedisCache?

    ghost predicate Valid() {
      && config.connected == (redis != null)
      && config.grain > 0
      && (redis != null ==> redis.grain == config.grain)
    }

    constructor (config: Config, redis: RedisCache?)
      requires config.grain > 0 && (redis != null ==> redis.grain == config.grain)
      ensures Valid() && this.redis == redis
      ensures this.config == NewConfig(config).(connected := redis != null)
    {
      this.config := NewConfig(config).(connected := redis != null);
      this.redis := redis;
    }

    method Get(query: string, link: Link) returns (value: Option<Value>)
      requires Valid()
      ensures redis != null ==> value == Found(config, redis.store, query, redis.now, link.Up?)
      ensures redis == null ==> value == None
    {
      value := None;
      if redis != null {
        var text := redis.GetText(config.Key(query), link);
        if text.Some? {
          value := config.decode(text.value);
        }
      }
    }

    method Set(query: string, value: Value, ttl: int, link: Link) returns (ok: bool)
      requires Valid()
      modifies if redis != null then {redis} else {}
      ensures ok == (redis != null && config.encode(value).Some? && link.Up?)
      ensures redis != null ==> redis.now == old(redis.now)
      ensures redis != null ==>
                redis.store == Stored(config, old(redis.store), query, value, ttl, redis.now, !link.Refused?)
    {
      ok := false;
      if redis != null && config.encode(value).Some? {
        ok := redis.SetText(config.Key(query), config.encode(value).value, config.Ttl(ttl), link);
      }
    }

    method Invalidate(query: string, link: Link) returns (ok: bool)
      requires Valid()
      modifies if redis != null then {redis} else {}
      ensures ok == (redis != null && link.Up?)
      ensures redis != null ==> redis.now == old(redis.now)
      ensures redis != null ==>
                redis.store == if link.Refused? then old(redis.store) else old(redis.store) - {config.Key(query)}
      ensures redis != null ==> redis.store == Dropped(config, old(redis.store), query, !link.Refused?)
    {
      ok := false;
      if redis != null {
        ok := redis.DeleteKey(config.Key(query), link);
      }
    }

    /**
     CacheWrapper up to its return: `run` is what the function would return.  A usable hit answers without running
     it; `pending` is the value whose Set is left to run asynchronously.
     */
    method CacheWrapper(query: string, run: Option<Value>, link: Link)
      returns (result: Option<Value>, ran: bool, pending: Option<Value>)
      requires Valid()
      ensures var found := if redis != null then Found(config, redis.store, query, redis.now, link.Up?) else None;
              if found.Some? && found.value != Null then result == found && !ran && pending == None
              else result == run && ran && pending == run
    {
      var found := Get(query, link);
      if found.Some? && found.value != Null {
        return found, false, None;
      }
      return run, true, run;
    }
  }
}
