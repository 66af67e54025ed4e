/** Queries, tokens and rate-limit counters share one Redis without seeing each other. */
module KeyFamilies {
  import opened Common
  import opened Keys
  import opened Redis

  datatype Family = Queries | Tokens | Counters

  ghost predicate InFamily(sha: string -> string, prefix: string, family: Family, key: string) {
    match family
    case Queries => exists q :: key == QueryKey(prefix, sha(q))
    case Tokens => exists service :: key == TokenKey(service)
    case Counters => exists tier, minute: int :: -MAX_INT64 <= minute <= MAX_INT64 && key == RateKey(tier, minute)
  }

  lemma FamiliesDisjoint(sha: string -> string, prefix: string, f: Family, g: Family, key: string)
    requires Hashes(sha) && !PrefixShadowsTokens(prefix) && f != g
    ensures !(InFamily(sha, prefix, f, key) && InFamily(sha, prefix, g, key))
  {
    forall q, tier, minute: int | -MAX_INT64 <= minute <= MAX_INT64
      ensures QueryKey(prefix, sha(q)) != RateKey(tier, minute)
    {
      assert IsHash(sha(q));
      QueryRateDisjoint(prefix, sha(q), tier, minute);
    }
    forall q, service
      ensures QueryKey(prefix, sha(q)) != TokenKey(service)
    {
      assert IsHash(sha(q));
      QueryTokenDisjointIff(prefix, sha(q));
    }
    forall service, tier, minute
      ensures TokenKey(service) != RateKey(tier, minute)
    {
      TokenRateDisjoint(service, tier, minute);
    }
  }

  /** No sequence of commands of one family changes what a reader of another family finds, at any time. */
  lemma FamiliesDoNotInterfere(sha: string -> string, prefix: string, f: Family, g: Family,
                               store: Store, cmds: seq<(Command, int)>, grain: nat, key: string, t: int)
    requires Hashes(sha) && !PrefixShadowsTokens(prefix) && f != g && grain > 0
    requires forall c :: c in cmds ==> InFamily(sha, prefix, f, c.0.key)
    requires InFamily(sha, prefix, g, key)
    ensures Get(Batch(store, cmds, grain), key, t) == Get(store, key, t)
  {
    forall c | c in cmds
      ensures c.0.key != key
    {
      FamiliesDisjoint(sha, prefix, f, g, c.0.key);
    }
    OtherKeysUntouched(store, cmds, grain, key, t);
  }

  /** In particular under the prefix the constructor puts in place of none. */
  lemma DefaultPrefixIsolates(sha: string -> string, f: Family, g: Family, key: string)
    requires Hashes(sha) && f != g
    ensures !(InFamily(sha, DEFAULT_PREFIX, f, key) && InFamily(sha, DEFAULT_PREFIX, g, key))
  {
    DefaultPrefixIsSafe();
    FamiliesDisjoint(sha, DEFAULT_PREFIX, f, g, key);
  }
}
