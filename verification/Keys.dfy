/** The three families of Redis keys: query results, OAuth2 tokens and rate-limit counters. */
module Keys {
  import opened Common

  function DigitChar(d: nat): char
    requires d < 10
  {
    "0123456789"[d]
  }

  function Digits(n: nat): string {
    if n < 10 then [DigitChar(n)] else Digits(n / 10) + [DigitChar(n % 10)]
  }

  /** The %d verb of Go's fmt package. */
  function Decimal(n: int): string {
    if n < 0 then "-" + Digits(-n) else Digits(n)
  }

  function RateKey(tier: string, minute: int): string {
    "ratelimit:" + tier + ":" + Decimal(minute)
  }

  function TokenKey(service: string): string {
    "token:" + service
  }

  function QueryKey(prefix: string, hash: string): string {
    prefix + ":" + hash
  }

  const DEFAULT_PREFIX := "query"

  /** SHA-256 in hex gives 64 hexadecimal digits. */
  ghost predicate Hashes(sha: string -> string) {
    forall q :: IsHash(sha(q))
  }

  /** Environment assumption: no two of the queries in use have the same hash. */
  ghost predicate CollisionFree(sha: string -> string, queries: set<string>) {
    && Hashes(sha)
    && (forall p, q :: p in queries && q in queries && sha(p) == sha(q) ==> p == q)
  }

  predicate IsHash(h: string) {
    |h| == 64 && forall i :: 0 <= i < 64 ==> IsHexDigit(h[i])
  }

  predicate IsHexDigit(c: char) {
    '0' <= c <= '9' || 'a' <= c <= 'f'
  }

  /** Reading the digits back. */
  function Number(s: string): int {
    if s == "" then 0 else 10 * Number(s[..|s| - 1]) + (s[|s| - 1] as int - '0' as int)
  }

  lemma {:induction false} DigitsReadBack(n: nat)
    ensures Number(Digits(n)) == n
    ensures Digits(n) != "" && forall i :: 0 <= i < |Digits(n)| ==> '0' <= Digits(n)[i] <= '9'
  {
    if n >= 10 {
      DigitsReadBack(n / 10);
      assert Digits(n)[..|Digits(n)| - 1] == Digits(n / 10);
    } else {
      assert Digits(n)[..0] == "";
    }
  }

  lemma {:induction false} DigitsLength(n: nat, k: nat)
    requires k >= 1 && n < Pow10(k)
    ensures |Digits(n)| <= k
  {
    if n >= 10 {
      DigitsLength(n / 10, k - 1);
    }
  }

  function Pow10(k: nat): nat {
    if k == 0 then 1 else 10 * Pow10(k - 1)
  }

  lemma PowersOfTen()
    ensures Pow10(20) > 0x8000_0000_0000_0000
  {
    assert Pow10(4) == 10000;
    assert Pow10(8) == 10000 * Pow10(4);
    assert Pow10(12) == 10000 * Pow10(8);
    assert Pow10(16) == 10000 * Pow10(12);
    assert Pow10(20) == 10000 * Pow10(16);
  }

  lemma DecimalInjective(m: int, n: int)
    requires Decimal(m) == Decimal(n)
    ensures m == n
  {
    DigitsReadBack(Max(m, -m));
    DigitsReadBack(Max(n, -n));
    assert m < 0 <==> Decimal(m)[0] == '-';
    assert n < 0 <==> Decimal(n)[0] == '-';
    if m < 0 {
      assert Decimal(m)[1..] == Digits(-m) && Decimal(n)[1..] == Digits(-n);
    }
  }

  predicate NoColon(s: string) {
    forall i :: 0 <= i < |s| ==> s[i] != ':'
  }

  lemma DecimalNoColon(n: int)
    ensures NoColon(Decimal(n))
  {
    DigitsReadBack(Max(n, -n));
  }

  /** A string has one last colon, so what stands before and after it is determined. */
  lemma LastColon(a: string, b: string, c: string, d: string)
    requires NoColon(b) && NoColon(d)
    ensures a + ":" + b == c + ":" + d ==> a == c && b == d
  {
    var s, t := a + ":" + b, c + ":" + d;
    assert s[|a|] == ':' && forall k :: |a| < k < |s| ==> s[k] == b[k - |a| - 1];
    assert t[|c|] == ':' && forall k :: |c| < k < |t| ==> t[k] == d[k - |c| - 1];
    assert s[..|a|] == a && s[|a| + 1..] == b;
    assert t[..|c|] == c && t[|c| + 1..] == d;
  }

  /** Counters of different tiers or different minutes never share a key, whatever the tier names. */
  lemma RateKeyInjective(t: string, m: int, u: string, n: int)
    ensures RateKey(t, m) == RateKey(u, n) ==> t == u && m == n
  {
    if RateKey(t, m) == RateKey(u, n) {
      DecimalNoColon(m);
      DecimalNoColon(n);
      LastColon("ratelimit:" + t, Decimal(m), "ratelimit:" + u, Decimal(n));
      assert ("ratelimit:" + t)[10..] == t && ("ratelimit:" + u)[10..] == u;
      DecimalInjective(m, n);
    }
  }

  /** The fixed-length hash tail makes (prefix, query) readable off the key, colons in the prefix included. */
  lemma QueryKeyInjective(sha: string -> string, p: string, q: string, p': string, q': string)
    requires CollisionFree(sha, {q, q'})
    ensures QueryKey(p, sha(q)) == QueryKey(p', sha(q')) ==> p == p' && q == q'
  {
    if QueryKey(p, sha(q)) == QueryKey(p', sha(q')) {
      assert IsHash(sha(q)) && IsHash(sha(q'));
      LastColon(p, sha(q), p', sha(q'));
    }
  }

  /** No token key is a rate-limit key. */
  lemma TokenRateDisjoint(service: string, tier: string, minute: int)
    ensures TokenKey(service) != RateKey(tier, minute)
  {
    assert TokenKey(service)[0] == 't' && RateKey(tier, minute)[0] == 'r';
  }

  /** No query key is a rate-limit key under any prefix: a minute of an int64 clock has fewer than 64 digits. */
  lemma QueryRateDisjoint(prefix: string, hash: string, tier: string, minute: int)
    requires IsHash(hash)
    requires -0x8000_0000_0000_0000 <= minute < 0x8000_0000_0000_0000
    ensures QueryKey(prefix, hash) != RateKey(tier, minute)
  {
    DecimalNoColon(minute);
    LastColon(prefix, hash, "ratelimit:" + tier, Decimal(minute));
    PowersOfTen();
    DigitsLength(Max(minute, -minute), 20);
  }

  /** Can a query key under this prefix be some service's token key? */
  predicate PrefixShadowsTokens(prefix: string) {
    prefix == "token" || (|prefix| >= 6 && prefix[..6] == "token:")
  }

  /**
   Query and token keys are disjoint exactly when the configured prefix is neither "token" nor starts with "token:".
   */
  lemma QueryTokenDisjointIff(prefix: string, hash: string)
    requires IsHash(hash)
    ensures (forall service :: QueryKey(prefix, hash) != TokenKey(service)) <==> !PrefixShadowsTokens(prefix)
  {
    var key := QueryKey(prefix, hash);
    if PrefixShadowsTokens(prefix) {
      assert key[..6] == "token:";
      assert key == TokenKey(key[6..]);
    }
    forall service | key == TokenKey(service)
      ensures PrefixShadowsTokens(prefix)
    {
      var tok := "token:";
      assert key[..6] == tok;
      assert forall i :: 0 <= i < 6 ==> key[i] == tok[i];
      assert key[|prefix|] == ':';
      if |prefix| < 6 {
        assert tok[|prefix|] == ':';
        assert |prefix| == 5;
        assert prefix == key[..5] == tok[..5];
      } else {
        assert prefix[..6] == key[..6];
      }
    }
  }

  lemma DefaultPrefixIsSafe()
    ensures !PrefixShadowsTokens(DEFAULT_PREFIX)
  {
    assert DEFAULT_PREFIX[0] == 'q';
  }

  // ----- The assumption can be met -----

  /** The number n in `width` digits. */
  function Padded(n: nat, width: nat): (h: string)
    ensures |h| == width && forall i :: 0 <= i < width ==> '0' <= h[i] <= '9'
  {
    if width == 0 then "" else Padded(n / 10, width - 1) + [DigitChar(n % 10)]
  }

  lemma {:induction false} PaddedReadBack(n: nat, width: nat)
    requires n < Pow10(width)
    ensures Number(Padded(n, width)) == n
  {
    if width > 0 {
      PaddedReadBack(n / 10, width - 1);
      assert Padded(n, width)[..width - 1] == Padded(n / 10, width - 1);
    }
  }

  /** Some numbering of the queries tells them apart. */
  lemma {:induction false} Numbering(queries: set<string>) returns (rank: map<string, nat>)
    ensures rank.Keys == queries
    ensures forall q :: q in queries ==> rank[q] < |queries|
    ensures forall p, q :: p in queries && q in queries && rank[p] == rank[q] ==> p == q
  {
    if queries == {} {
      rank := map[];
    } else {
      var q :| q in queries;
      rank := Numbering(queries - {q});
      rank := rank[q := |queries| - 1];
    }
  }

  /** For any set of up to 10^64 queries there is a hash function without a collision among them. */
  lemma CollisionFreeExists(queries: set<string>) returns (sha: string -> string)
    requires |queries| <= Pow10(64)
    ensures CollisionFree(sha, queries)
  {
    var rank := Numbering(queries);
    sha := q => Padded(if q in rank then rank[q] else 0, 64);
    forall p, q | p in queries && q in queries && sha(p) == sha(q)
      ensures p == q
    {
      PaddedReadBack(rank[p], 64);
      PaddedReadBack(rank[q], 64);
    }
  }
}
