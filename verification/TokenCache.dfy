/** OAuth2 tokens in Redis: a lifetime computed before the SET travels, and a second expiry check after the GET. */
module TokenCache {
  import opened Common
  import opened Keys
  import opened Redis

  datatype Token = Token(accessToken: string, refreshToken: string, tokenType: string, expiresAt: int, scope: string)

  /** JSON keeps a token as it is.  `skew` bounds how far a gateway's clock is from the server's. */
  datatype Config = Config(encode: Token -> string, decode: string -> Option<Token>, grain: nat, skew: nat) {
    ghost predicate Sound() {
      grain > 0 && forall t :: decode(encode(t)) == Some(t)
    }
  }

  // ----- The assumption can be met -----

  /** The text with a mark before each character and another at its end. */
  function Quote(s: string): string {
    if s == "" then "0" else "1" + [s[0]] + Quote(s[1..])
  }

  lemma {:induction false} QuoteApart(a: string, b: string, x: string, y: string)
    requires Quote(a) + x == Quote(b) + y
    ensures a == b && x == y
  {
    var l, r := Quote(a) + x, Quote(b) + y;
    assert l[0] == r[0];
    if a == "" {
      assert l[1..] == x && r[1..] == y;
    } else {
      assert l[1] == a[0] && r[1] == b[0];
      assert l[2..] == Quote(a[1..]) + x && r[2..] == Quote(b[1..]) + y;
      QuoteApart(a[1..], b[1..], x, y);
    }
  }

  function Quoted(t: Token): string {
    Quote(t.accessToken) + (Quote(t.refreshToken) +
    (Quote(t.tokenType) + (Quote(Decimal(t.expiresAt)) + Quote(t.scope))))
  }

  lemma QuotedInjective(t: Token, u: Token)
    requires Quoted(t) == Quoted(u)
    ensures t == u
  {
    var rest := (v: Token) => Quote(Decimal(v.expiresAt)) + Quote(v.scope);
    QuoteApart(t.accessToken, u.accessToken, Quote(t.refreshToken) + (Quote(t.tokenType) + rest(t)),
               Quote(u.refreshToken) + (Quote(u.tokenType) + rest(u)));
    QuoteApart(t.refreshToken, u.refreshToken, Quote(t.tokenType) + rest(t), Quote(u.tokenType) + rest(u));
    QuoteApart(t.tokenType, u.tokenType, rest(t), rest(u));
    QuoteApart(Decimal(t.expiresAt), Decimal(u.expiresAt), Quote(t.scope), Quote(u.scope));
    DecimalInjective(t.expiresAt, u.expiresAt);
    assert Quote(t.scope) + "" == Quote(u.scope) + "";
    QuoteApart(t.scope, u.scope, "", "");
  }

  /** There are encodings that keep a token as it is. */
  lemma SoundExists(grain: nat, skew: nat) returns (c: Config)
    requires grain > 0
    ensures c.Sound() && c.grain == grain && c.skew == skew
  {
    var decode: string -> Option<Token> := s =>
      if exists t :: Quoted(t) == s then Some(var t :| Quoted(t) == s; t) else None;
    c := Config(t => Quoted(t), decode, grain, skew);
    forall t
      ensures c.decode(c.encode(t)) == Some(t)
    {
      forall u | Quoted(u) == Quoted(t) ensures u == t { QuotedInjective(u, t); }
    }
  }

  /** A SetToken under way: the lifetime was computed when the caller's clock showed `begun`. */
  datatype Pending = Pending(service: string, token: Token, begun: int) {
    function Until(): int {
      token.expiresAt - begun
    }
  }

  /** The SET that last took effect for a service, and when; `kept` is the deadline its key had until then. */
  datatype Landed = Landed(call: Pending, at: int, kept: Option<int>)

  /** `latest` is history: per service, the last SetToken to take effect that no DeleteToken followed. */
  datatype State = State(now: int, store: Store, pending: map<nat, Pending>, latest: map<string, Landed>)

  function Init(now: int): State {
    State(now, map[], map[], map[])
  }

  datatype Action =
    | Tick(dt: nat)
    | Begin(t: nat, service: string, token: Token, wall: int)  // the caller's clock shows `wall`
    | Land(t: nat)              // any time after Begin, and again if the client resends
    | Delete(service: string)
    | Foreign(cmd: Command)     // another family's command on the same store

  ghost predicate Enabled(c: Config, s: State, a: Action) {
    match a
    case Tick(_) => true
    case Begin(t, _, _, wall) => t !in s.pending && s.now - c.skew <= wall <= s.now + c.skew
    case Land(t) => t in s.pending
    case Delete(_) => true
    case Foreign(cmd) => forall service :: cmd.key != TokenKey(service)
  }

  /** The deadline of a service's key, if it is there and has one. */
  function DeadlineOf(s: State, service: string): Option<int> {
    if Live(s.store, TokenKey(service), s.now) then s.store[TokenKey(service)].deadline else None
  }

  function Step(c: Config, s: State, a: Action): State
    requires Enabled(c, s, a) && c.grain > 0
  {
    match a
    case Tick(dt) => s.(now := s.now + dt)
    case Begin(t, service, token, wall) => s.(pending := s.pending[t := Pending(service, token, wall)])
    case Land(t) =>
      var p := s.pending[t];
      s.(store := Set(s.store, TokenKey(p.service), c.encode(p.token), s.now, p.Until(), c.grain),
         latest := s.latest[p.service := Landed(p, s.now, DeadlineOf(s, p.service))])
    case Delete(service) =>
      s.(store := Redis.Delete(s.store, TokenKey(service)), latest := s.latest - {service})
    case Foreign(cmd) => s.(store := Execute(s.store, cmd, s.now, c.grain))
  }

  ghost predicate Valid(c: Config, s: State, run: seq<Action>)
    requires c.grain > 0
    decreases run
  {
    run == [] || (Enabled(c, s, run[0]) && Valid(c, Step(c, s, run[0]), run[1..]))
  }

  ghost function Final(c: Config, s: State, run: seq<Action>): State
    requires c.grain > 0 && Valid(c, s, run)
    decreases run
  {
    if run == [] then s else Final(c, Step(c, s, run[0]), run[1..])
  }

  function Fetched(c: Config, store: Store, service: string, now: int): Option<Token> {
    match Get(store, TokenKey(service), now)
    case None => None
    case Some(text) => c.decode(text)
  }

  /** IsTokenValid, with its GET at the state's clock and a reading of the caller's own clock that shows `later`. */
  predicate Reported(c: Config, s: State, service: string, later: int) {
    var token := Fetched(c, s.store, service, s.now);
    token.Some? && later < token.value.expiresAt
  }

  /** Before the expiry of the last SetToken not followed by a DeleteToken. */
  predicate Current(s: State, service: string, t: int) {
    service in s.latest && t < s.latest[service].call.token.expiresAt
  }

  /** When the server drops what that SetToken stored, if ever. */
  function Deadline(c: Config, l: Landed): Option<int>
    requires c.grain > 0
  {
    if l.call.Until() > 0 then Some(l.at + Lifetime(l.call.Until(), c.grain))
    else if l.call.Until() == KEEP_TTL then l.kept
    else None
  }

  ghost predicate Inv(c: Config, s: State, service: string)
    requires c.grain > 0
  {
    var key := TokenKey(service);
    && (key in s.store <==> service in s.latest)
    && (forall t :: t in s.pending ==> s.pending[t].begun <= s.now + c.skew)
    && (service in s.latest ==>
          var l := s.latest[service];
          && s.store[key] == Entry(Text(c.encode(l.call.token)), Deadline(c, l))
          && l.call.begun - c.skew <= l.at <= s.now)
  }

  lemma TokenKeyInjective(a: string, b: string)
    ensures TokenKey(a) == TokenKey(b) ==> a == b
  {
    assert TokenKey(a)[6..] == a && TokenKey(b)[6..] == b;
  }

  lemma StepKeeps(c: Config, s: State, a: Action, service: string)
    requires c.grain > 0 && Inv(c, s, service) && Enabled(c, s, a)
    ensures Inv(c, Step(c, s, a), service)
  {
    match a
    case Land(t) => TokenKeyInjective(s.pending[t].service, service);
    case Delete(other) => TokenKeyInjective(other, service);
    case _ =>
  }

  lemma {:induction false} RunKeeps(c: Config, s: State, run: seq<Action>, service: string)
    requires c.grain > 0 && Inv(c, s, service) && Valid(c, s, run)
    ensures Inv(c, Final(c, s, run), service)
    decreases run
  {
    if run != [] {
      StepKeeps(c, s, run[0], service);
      RunKeeps(c, Step(c, s, run[0]), run[1..], service);
    }
  }

  /** The server still has what the last SetToken stored. */
  predicate Kept(c: Config, s: State, service: string)
    requires c.grain > 0 && service in s.latest
  {
    var deadline := Deadline(c, s.latest[service]);
    deadline.Some? ==> s.now < deadline.value
  }

  /**
   On every run, for setters and reporters whose clocks are within `skew` of the server's: a token is reported valid
   exactly when it is current by the reporter's clock and the server still has it.  The report is never late by that
   clock, late by less than the skew by the server's, and early by less than one unit of `grain` plus twice the skew.
   */
  lemma ReportedIff(c: Config, now: int, run: seq<Action>, service: string, later: int)
    requires c.Sound() && Valid(c, Init(now), run) && later >= Final(c, Init(now), run).now - c.skew
    ensures var s := Final(c, Init(now), run);
            && (Reported(c, s, service, later) <==> Current(s, service, later) && Kept(c, s, service))
            && (Reported(c, s, service, later) ==>
                  Current(s, service, later) && s.now < s.latest[service].call.token.expiresAt + c.skew)
            && (Current(s, service, later + 2 * c.skew + c.grain - 1) ==> Reported(c, s, service, later))
  {
    RunKeeps(c, Init(now), run, service);
  }

  /** On every run and at every reading, the report is exactly whether the token is current by the reporter's clock. */
  ghost predicate ReportsExactly(c: Config)
    requires c.grain > 0
  {
    forall now: int, run: seq<Action>, service: string, later: int ::
      Valid(c, Init(now), run) && later >= Final(c, Init(now), run).now - c.skew ==>
        (Reported(c, Final(c, Init(now), run), service, later) <==> Current(Final(c, Init(now), run), service, later))
  }

  /** That holds exactly when lifetimes are kept to the nanosecond and no clock deviates. */
  lemma ReportsExactlyIff(c: Config)
    requires c.Sound()
    ensures ReportsExactly(c) <==> c.grain == 1 && c.skew == 0
  {
    if c.skew > 0 {
      EarlyByTwiceTheSkew(c, 0, "");
      var s := Final(c, Init(0), EarlyRun("", 0, c.skew, c.skew + c.grain, c.grain));
      assert Current(s, "", s.now - c.skew) && !Reported(c, s, "", s.now - c.skew);
    } else if c.grain > 1 {
      EarlyByLessThanAUnit(c, 0, "");
      assert Valid(c, Init(0), EarlyRun("", 0, 0, c.grain + c.grain / 2, c.grain));
    } else {
      forall now: int, run: seq<Action>, service: string, later: int
        | Valid(c, Init(now), run) && later >= Final(c, Init(now), run).now - c.skew
        ensures Reported(c, Final(c, Init(now), run), service, later)
             == Current(Final(c, Init(now), run), service, later)
      {
        ReportedIff(c, now, run, service, later);
      }
    }
  }

  // ----- Tokens the server keeps for good -----

  /** This step executes a SET or a DEL for the service. */
  predicate Touches(s: State, a: Action, service: string) {
    || (a.Land? && a.t in s.pending && s.pending[a.t].service == service)
    || (a.Delete? && a.service == service)
  }

  ghost predicate Untouched(c: Config, s: State, run: seq<Action>, service: string)
    requires c.grain > 0 && Valid(c, s, run)
    decreases run
  {
    run == [] || (!Touches(s, run[0], service) && Untouched(c, Step(c, s, run[0]), run[1..], service))
  }

  /**
   Until the next SetToken or DeleteToken for the service, what is stored for it now stays readable, however long that
   takes.
   */
  ghost predicate KeptForGood(c: Config, s: State, service: string)
    requires c.grain > 0 && TokenKey(service) in s.store
  {
    forall run: seq<Action> :: Valid(c, s, run) && Untouched(c, s, run, service) ==>
      var s' := Final(c, s, run);
      Live(s'.store, TokenKey(service), s'.now) && s'.store[TokenKey(service)] == s.store[TokenKey(service)]
  }

  lemma StepKeepsEntry(c: Config, s: State, a: Action, service: string)
    requires c.grain > 0 && Enabled(c, s, a) && !Touches(s, a, service) && TokenKey(service) in s.store
    ensures TokenKey(service) in Step(c, s, a).store
    ensures Step(c, s, a).store[TokenKey(service)] == s.store[TokenKey(service)]
  {
    match a
    case Land(t) => TokenKeyInjective(s.pending[t].service, service);
    case Delete(other) => TokenKeyInjective(other, service);
    case _ =>
  }

  lemma {:induction false} RunKeepsEntry(c: Config, s: State, run: seq<Action>, service: string)
    requires c.grain > 0 && Valid(c, s, run) && Untouched(c, s, run, service) && TokenKey(service) in s.store
    ensures TokenKey(service) in Final(c, s, run).store
    ensures Final(c, s, run).store[TokenKey(service)] == s.store[TokenKey(service)]
    decreases run
  {
    if run != [] {
      StepKeepsEntry(c, s, run[0], service);
      RunKeepsEntry(c, Step(c, s, run[0]), run[1..], service);
    }
  }

  lemma KeptIffNoDeadline(c: Config, s: State, service: string)
    requires c.grain > 0 && TokenKey(service) in s.store
    ensures KeptForGood(c, s, service) <==> s.store[TokenKey(service)].deadline == None
  {
    var deadline := s.store[TokenKey(service)].deadline;
    if deadline.Some? {
      var wait := [Tick(Max(0, deadline.value - s.now))];
      assert wait[1..] == [];
      assert Valid(c, s, wait) && Untouched(c, s, wait, service);
      assert !Live(Final(c, s, wait).store, TokenKey(service), Final(c, s, wait).now);
    } else {
      forall run: seq<Action> | Valid(c, s, run) && Untouched(c, s, run, service)
        ensures Live(Final(c, s, run).store, TokenKey(service), Final(c, s, run).now)
        ensures Final(c, s, run).store[TokenKey(service)] == s.store[TokenKey(service)]
      {
        RunKeepsEntry(c, s, run, service);
      }
    }
  }

  /** The lifetime of this SET gives the key a deadline: it is positive, or it is the one that keeps the key's own. */
  predicate GetsDeadline(s: State, p: Pending) {
    var key := TokenKey(p.service);
    p.Until() > 0 || (p.Until() == -1 && Live(s.store, key, s.now) && s.store[key].deadline.Some?)
  }

  /**
   A SetToken leaves its token in Redis for good exactly when the token had expired by the time its lifetime was
   computed, and that lifetime is not the one of -1 ns landing on a key that has a deadline.
   */
  lemma StoredForGoodIff(c: Config, s: State, t: nat)
    requires c.grain > 0 && Enabled(c, s, Land(t))
    ensures KeptForGood(c, Step(c, s, Land(t)), s.pending[t].service) <==> !GetsDeadline(s, s.pending[t])
  {
    KeptIffNoDeadline(c, Step(c, s, Land(t)), s.pending[t].service);
  }

  /** One token stored by a caller whose clock shows `wall`, then a wait. */
  function EarlyRun(service: string, now: int, wall: int, expiresAt: int, wait: nat): seq<Action> {
    [Begin(0, service, Token("", "", "Bearer", expiresAt, ""), wall), Land(0), Tick(wait)]
  }

  /** After that wait the server has just dropped the token. */
  lemma EarlyRunDrops(c: Config, now: int, service: string, wall: int, expiresAt: int, wait: nat)
    requires c.Sound() && now - c.skew <= wall <= now + c.skew && wall < expiresAt
    requires wait == Lifetime(expiresAt - wall, c.grain)
    ensures var run := EarlyRun(service, now, wall, expiresAt, wait);
            Valid(c, Init(now), run) && var s := Final(c, Init(now), run);
            && s.now == now + wait && service in s.latest && s.latest[service].call.token.expiresAt == expiresAt
            && !Live(s.store, TokenKey(service), s.now)
  {
    var run := EarlyRun(service, now, wall, expiresAt, wait);
    var s1 := Step(c, Init(now), run[0]);
    var s2 := Step(c, s1, run[1]);
    var s3 := Step(c, s2, run[2]);
    assert Valid(c, s3, run[3..]) && Final(c, s3, run[3..]) == s3;
    assert run[2..] == [run[2]] + run[3..] && run[1..] == [run[1]] + run[2..];
    assert Valid(c, s2, run[2..]) && Final(c, s2, run[2..]) == s3;
    assert Valid(c, s1, run[1..]) && Final(c, s1, run[1..]) == s3;
  }

  /** In coarser units the report can really be early: a token stored for one unit and a half is dropped after one. */
  lemma EarlyByLessThanAUnit(c: Config, now: int, service: string)
    requires c.Sound() && c.grain >= 2
    ensures var run := EarlyRun(service, now, now, now + c.grain + c.grain / 2, c.grain);
            Valid(c, Init(now), run) && var s := Final(c, Init(now), run);
            s.now == now + c.grain && Current(s, service, s.now) && !Reported(c, s, service, s.now)
  {
    OneUnit(c.grain);
    EarlyRunDrops(c, now, service, now, now + c.grain + c.grain / 2, c.grain);
  }

  /** So it can with clocks that deviate: a setter ahead and a reporter behind make it early by twice the skew. */
  lemma EarlyByTwiceTheSkew(c: Config, now: int, service: string)
    requires c.Sound() && c.skew > 0
    ensures var run := EarlyRun(service, now, now + c.skew, now + c.skew + c.grain, c.grain);
            Valid(c, Init(now), run) && var s := Final(c, Init(now), run);
            && s.now == now + c.grain && Current(s, service, s.now - c.skew + 2 * c.skew - 1)
            && !Reported(c, s, service, s.now - c.skew)
  {
    EarlyRunDrops(c, now, service, now + c.skew, now + c.skew + c.grain, c.grain);
  }

  lemma OneUnit(g: nat)
    requires g >= 2
    ensures Lifetime(g + g / 2, g) == g
  {
    assert (g + g / 2) % g == g / 2;
  }

  class TokenCache {
    const cache: RedisCache
    const config: Config

    constructor (cache: RedisCache, config: Config)
      ensures this.cache == cache && this.config == config
    {
      this.cache, this.config := cache, config;
    }

    /** `wall` is the reading of time.Until; the SET executes at the server's clock. */
    method SetToken(service: string, token: Token, wall: int, link: Link) returns (ok: bool)
      requires cache.grain > 0
      modifies cache`store
      ensures ok == link.Up?
      ensures cache.store ==
                if link.Refused? then old(cache.store)
                else Set(old(cache.store), TokenKey(service), config.encode(token), cache.now,
                         Pending(service, token, wall).Until(), cache.grain)
    {
      ok := cache.SetText(TokenKey(service), config.encode(token), token.expiresAt - wall, link);
    }

    method GetToken(service: string, link: Link) returns (token: Option<Token>)
      ensures token == if link.Up? then Fetched(config, cache.store, service, cache.now) else None
    {
      var text := cache.GetText(TokenKey(service), link);
      token := if text.None? then None else config.decode(text.value);
    }

    method DeleteToken(service: string, link: Link) returns (ok: bool)
      modifies cache`store
      ensures ok == link.Up?
      ensures cache.store ==
                if link.Refused? then old(cache.store) else Redis.Delete(old(cache.store), TokenKey(service))
    {
      ok := cache.DeleteKey(TokenKey(service), link);
    }

    method IsTokenValid(service: string, later: int, link: Link) returns (valid: bool)
      ensures valid == (link.Up? && Reported(config, State(cache.now, cache.store, map[], map[]), service, later))
    {
      var token := GetToken(service, link);
      valid := token.Some? && later < token.value.expiresAt;
    }
  }
}
