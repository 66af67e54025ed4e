/**
 The external keyed store: a map from key to a value with an optional deadline, and its atomic commands
 as functions of the server's clock.  Times and durations are nanoseconds.
 */
module Redis {
  import opened Common
  import opened Keys

  datatype Value = Counter(n: int) | Text(text: string)

  datatype Entry = Entry(value: Value, deadline: Option<int>)

  type Store = map<string, Entry>

  const MAX_INT64 := 0x7fff_ffff_ffff_ffff

  /** The duration go-redis reads as "keep the deadline the key already has". */
  const KEEP_TTL := -1

  predicate Live(store: Store, key: string, now: int) {
    key in store && (store[key].deadline.Some? ==> now < store[key].deadline.value)
  }

  /** INCR: a key that is missing or past its deadline starts again at 1 without a deadline. */
  function Incr(store: Store, key: string, now: int): (Store, Option<int>) {
    if !Live(store, key, now) then
      (store[key := Entry(Counter(1), None)], Some(1))
    else if store[key].value.Text? || store[key].value.n >= MAX_INT64 then
      (store, None)
    else
      var n := store[key].value.n + 1;
      (store[key := Entry(Counter(n), store[key].deadline)], Some(n))
  }

  /** EXPIRE: without effect on a key that is not there. */
  function Expire(store: Store, key: string, now: int, ttl: int): Store {
    if !Live(store, key, now) then store
    else if ttl <= 0 then store - {key}
    else store[key := Entry(store[key].value, Some(now + ttl))]
  }

  /**
   The server counts lifetimes in units of `grain`; a positive lifetime is cut down to whole units, but never to none.
   */
  function Lifetime(ttl: int, grain: nat): (r: int)
    requires grain > 0 && ttl > 0
    ensures r > 0
    ensures r <= Max(ttl, grain)
    ensures r > ttl - grain
  {
    if ttl < grain then grain else ttl - ttl % grain
  }

  /** The lifetime is a whole number of units, and together with its bounds that determines it. */
  lemma LifetimeIsWhole(ttl: int, grain: nat) returns (units: nat)
    requires grain > 0 && ttl > 0
    ensures units > 0 && Lifetime(ttl, grain) == units * grain
  {
    units := if ttl < grain then 1 else ttl / grain;
    assert ttl == ttl / grain * grain + ttl % grain;
  }

  /** SET as the client issues it: no deadline for a duration that is zero or negative, KEEP_TTL apart. */
  function Set(store: Store, key: string, text: string, now: int, ttl: int, grain: nat): Store
    requires grain > 0
  {
    var deadline :=
      if ttl > 0 then Some(now + Lifetime(ttl, grain))
      else if ttl == KEEP_TTL && Live(store, key, now) then store[key].deadline
      else None;
    store[key := Entry(Text(text), deadline)]
  }

  function Get(store: Store, key: string, now: int): Option<string> {
    if !Live(store, key, now) then None
    else match store[key].value
         case Text(text) => Some(text)
         case Counter(n) => Some(Decimal(n))
  }

  function Delete(store: Store, key: string): Store {
    store - {key}
  }

  /** The commands that change the store, each naming the one key it is for. */
  datatype Command =
    | CmdIncr(key: string)
    | CmdExpire(key: string, ttl: int)
    | CmdSet(key: string, text: string, ttl: int)
    | CmdDelete(key: string)

  function Execute(store: Store, cmd: Command, now: int, grain: nat): Store
    requires grain > 0
  {
    match cmd
    case CmdIncr(key) => Incr(store, key, now).0
    case CmdExpire(key, ttl) => Expire(store, key, now, ttl)
    case CmdSet(key, text, ttl) => Set(store, key, text, now, ttl, grain)
    case CmdDelete(key) => Delete(store, key)
  }

  function Batch(store: Store, cmds: seq<(Command, int)>, grain: nat): Store
    requires grain > 0
  {
    if cmds == [] then store
    else
      var last := cmds[|cmds| - 1];
      Execute(Batch(store, cmds[..|cmds| - 1], grain), last.0, last.1, grain)
  }

  /** Any sequence of commands on other keys leaves what a reader finds under `key` unchanged, at every later time. */
  lemma {:induction false} OtherKeysUntouched(store: Store, cmds: seq<(Command, int)>, grain: nat, key: string, t: int)
    requires grain > 0
    requires forall c :: c in cmds ==> c.0.key != key
    ensures Get(Batch(store, cmds, grain), key, t) == Get(store, key, t)
    ensures Live(Batch(store, cmds, grain), key, t) == Live(store, key, t)
  {
    if cmds != [] {
      assert cmds[|cmds| - 1] in cmds;
      OtherKeysUntouched(store, cmds[..|cmds| - 1], grain, key, t);
    }
  }

  /** What was set is read back until its deadline, whatever happens to other keys in between; then there is nothing. */
  lemma ReadBack(store: Store, key: string, text: string, now: int, ttl: int, grain: nat,
                 cmds: seq<(Command, int)>, t: int)
    requires grain > 0 && forall c :: c in cmds ==> c.0.key != key
    ensures var after := Batch(Set(store, key, text, now, ttl, grain), cmds, grain);
            && (ttl > 0 ==> Get(after, key, t) == if t < now + Lifetime(ttl, grain) then Some(text) else None)
            && (ttl <= 0 && ttl != -1 ==> Get(after, key, t) == Some(text))
            && (ttl == -1 ==>
                  Get(after, key, t) ==
                    if Live(store, key, now) && store[key].deadline.Some? && t >= store[key].deadline.value then None
                    else Some(text))
            && Get(Batch(Delete(store, key), cmds, grain), key, t) == None
  {
    OtherKeysUntouched(Set(store, key, text, now, ttl, grain), cmds, grain, key, t);
    OtherKeysUntouched(Delete(store, key), cmds, grain, key, t);
  }

  function Incremented(store: Store, key: string, now: int, n: nat): Store {
    if n == 0 then store else Incr(Incremented(store, key, now, n - 1), key, now).0
  }

  /** After n INCRs a new counter reads n, in decimal, and has no deadline; INCR fails beyond the largest int64. */
  lemma {:induction false} CountingUp(store: Store, key: string, now: int, n: nat)
    requires !Live(store, key, now) && 1 <= n <= 0x7fff_ffff_ffff_ffff
    ensures var after := Incremented(store, key, now, n);
            && after == store[key := Entry(Counter(n), None)]
            && forall t :: Get(after, key, t) == Some(Decimal(n))
    ensures Incr(Incremented(store, key, now, n), key, now).1 ==
              if n < 0x7fff_ffff_ffff_ffff then Some(n + 1) else None
  {
    if n > 1 {
      CountingUp(store, key, now, n - 1);
    }
  }

  /** EXPIRE keeps a value readable for the given time from its execution, no longer; a missing key stays missing. */
  lemma ExpireReadBack(store: Store, key: string, now: int, ttl: int, t: int)
    requires now <= t
    ensures Get(Expire(store, key, now, ttl), key, t) == if t < now + ttl then Get(store, key, now) else None
  {
  }

  /** How one round trip to the server can end for the client. */
  datatype Link = Up | Refused | ReplyLost

  /** The client wrapper: one shared store and the server's clock. */
  class RedisCache {
    var store: Store
    var now: int
    const grain: nat

    constructor (grain: nat, now: int)
      requires grain > 0
      ensures store == map[] && this.now == now && this.grain == grain
    {
      this.store, this.now, this.grain := map[], now, grain;
    }

    method Increment(key: string, link: Link) returns (count: Option<int>)
      modifies this`store
      ensures link.Refused? ==> store == old(store)
      ensures !link.Refused? ==> store == Incr(old(store), key, now).0
      ensures count == if link.Up? then Incr(old(store), key, now).1 else None
    {
      count := None;
      if !link.Refused? {
        var (after, reply) := Incr(store, key, now);
        store := after;
        if link.Up? {
          count := reply;
        }
      }
    }

    method ExpireKey(key: string, ttl: int, link: Link) returns (ok: bool)
      modifies this`store
      ensures ok == link.Up?
      ensures store == if link.Refused? then old(store) else Expire(old(store), key, now, ttl)
    {
      if !link.Refused? {
        store := Expire(store, key, now, ttl);
      }
      ok := link.Up?;
    }

    method SetText(key: string, text: string, ttl: int, link: Link) returns (ok: bool)
      requires grain > 0
      modifies this`store
      ensures ok == link.Up?
      ensures store == if link.Refused? then old(store) else Set(old(store), key, text, now, ttl, grain)
    {
      if !link.Refused? {
        store := Set(store, key, text, now, ttl, grain);
      }
      ok := link.Up?;
    }

    method GetText(key: string, link: Link) returns (text: Option<string>)
      ensures text == if link.Up? then Get(store, key, now) else None
    {
      text := None;
      if link.Up? && Live(store, key, now) {
        match store[key].value
        case Text(t) => text := Some(t);
        case Counter(n) => text := Some(Decimal(n));
      }
    }

    method DeleteKey(key: string, link: Link) returns (ok: bool)
      modifies this`store
      ensures ok == link.Up?
      ensures store == if link.Refused? then old(store) else Delete(old(store), key)
    {
      if !link.Refused? {
        store := Delete(store, key);
      }
      ok := link.Up?;
    }
  }
}
