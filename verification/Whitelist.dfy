/**
 The whitelist and blacklist as values: entries with expiry, the decision they make, and the file that mirrors them.
 */
module Whitelist {
  import opened Common
  import opened IpRange

  datatype IPEntry = IPEntry(ip: string, description: string, addedAt: int, addedBy: string, expiresAt: Option<int>)

  /** What the dynamic configuration file holds, as far as this manager can tell. */
  datatype FileContent = Absent | Unreadable | Malformed | NoMiddleware | Ranges(ranges: seq<string>)

  predicate Expired(e: IPEntry, t: int) {
    e.expiresAt.Some? && t > e.expiresAt.value
  }

  predicate HasIp(list: seq<IPEntry>, ip: string) {
    exists i :: 0 <= i < |list| && list[i].ip == ip
  }

  predicate EntryMatches(p: Parser, a: Address, pattern: string) {
    ParsePattern(p, pattern).Some? && Matches(a, ParsePattern(p, pattern).value)
  }

  predicate Blacklisted(p: Parser, black: seq<IPEntry>, a: Address) {
    exists i :: 0 <= i < |black| && EntryMatches(p, a, black[i].ip)
  }

  predicate Whitelisted(p: Parser, white: seq<IPEntry>, a: Address, t: int) {
    exists i :: 0 <= i < |white| && !Expired(white[i], t) && EntryMatches(p, a, white[i].ip)
  }

  /** The decision at time t: the text is an address, nothing blacklists it, and some unexpired entry whitelists it. */
  predicate AllowedAt(p: Parser, white: seq<IPEntry>, black: seq<IPEntry>, ip: string, t: int) {
    && p.ip(ip).Some?
    && !Blacklisted(p, black, p.ip(ip).value)
    && Whitelisted(p, white, p.ip(ip).value, t)
  }

  // ----- What the operations do to the lists -----

  function Without(list: seq<IPEntry>, ip: string): seq<IPEntry> {
    if list == [] then []
    else
      var n := |list| - 1;
      Without(list[..n], ip) + if list[n].ip != ip then [list[n]] else []
  }

  function Unexpired(list: seq<IPEntry>, t: int): seq<IPEntry> {
    if list == [] then []
    else
      var n := |list| - 1;
      Unexpired(list[..n], t) + if Expired(list[n], t) then [] else [list[n]]
  }

  /** The ranges written to the file when entry i is checked at times[i]. */
  function Listed(list: seq<IPEntry>, times: seq<int>): seq<string>
    requires |times| == |list|
  {
    if list == [] then []
    else
      var n := |list| - 1;
      Listed(list[..n], times[..n]) + if Expired(list[n], times[n]) then [] else [list[n].ip]
  }

  /** Clock readings taken one after the other between `from` and `to`. */
  predicate Readings(times: seq<int>, from: int, to: int) {
    && from <= to
    && (forall i :: 0 <= i < |times| ==> from <= times[i] <= to)
    && (forall i, j :: 0 <= i < j < |times| ==> times[i] <= times[j])
  }

  /** The entries that loading the file yields: no expiry survives. */
  function Loaded(ranges: seq<string>, times: seq<int>): seq<IPEntry>
    requires |times| == |ranges|
  {
    seq(|ranges|, i requires 0 <= i < |ranges| =>
      IPEntry(ranges[i], "Existing from Traefik config", times[i], "system", None))
  }

  // ----- The operations that change the lists -----

  datatype Op =
    | AddWhite(ip: string, description: string, actor: string, expiresAt: Option<int>)
    | RemoveWhite(ip: string)
    | AddBlack(ip: string, description: string, actor: string)
    | RemoveBlack(ip: string)
    | Cleanup

  datatype Lists = Lists(white: seq<IPEntry>, black: seq<IPEntry>)

  /** A completed operation: the clock reading it used, and whether its file write succeeded. */
  datatype Done = Done(op: Op, at: int, written: bool)

  /** What a completed operation does to the lists, as one indivisible step. */
  function Effect(p: Parser, l: Lists, d: Done): Lists {
    match d.op
    case AddWhite(ip, description, actor, expiresAt) =>
      if ParsePattern(p, ip).None? || HasIp(l.white, ip) || !d.written then l
      else l.(white := l.white + [IPEntry(ip, description, d.at, actor, expiresAt)])
    case RemoveWhite(ip) => l.(white := Without(l.white, ip))
    case AddBlack(ip, description, actor) =>
      if ParsePattern(p, ip).None? || HasIp(l.black, ip) then l
      else l.(black := l.black + [IPEntry(ip, description, d.at, actor, None)])
    case RemoveBlack(ip) => l.(black := Without(l.black, ip))
    case Cleanup => l.(white := Unexpired(l.white, d.at))
  }

  /** Replaying completed operations one after the other from the initial lists. */
  function Replay(p: Parser, l: Lists, ops: seq<Done>): Lists {
    if ops == [] then l else Effect(p, Replay(p, l, ops[..|ops| - 1]), ops[|ops| - 1])
  }

  // ----- Order and contents of what is kept -----

  /** `a` arises from `b` by leaving elements out. */
  ghost predicate Subsequence<T>(a: seq<T>, b: seq<T>)
    decreases |b|
  {
    if a == [] then true
    else if b == [] then false
    else
      var a', b' := a[..|a| - 1], b[..|b| - 1];
      (a[|a| - 1] == b[|b| - 1] && Subsequence(a', b')) || Subsequence(a, b')
  }

  lemma {:induction false} WithoutKeepsTheRest(list: seq<IPEntry>, ip: string)
    ensures Subsequence(Without(list, ip), list)
    ensures forall e :: e in Without(list, ip) <==> e in list && e.ip != ip
  {
    if list != [] {
      var n := |list| - 1;
      WithoutKeepsTheRest(list[..n], ip);
      assert list == list[..n] + [list[n]];
      var kept := Without(list[..n], ip);
      if list[n].ip == ip {
        assert Without(list, ip) == kept;
      } else {
        assert Without(list, ip)[..|kept|] == kept;
      }
    }
  }

  lemma {:induction false} WithoutAbsent(list: seq<IPEntry>, ip: string)
    requires !HasIp(list, ip)
    ensures Without(list, ip) == list
  {
    if list != [] {
      WithoutAbsent(list[..|list| - 1], ip);
      assert list[|list| - 1].ip != ip;
    }
  }

  lemma {:induction false} UnexpiredKeepsOrder(list: seq<IPEntry>, t: int)
    ensures Subsequence(Unexpired(list, t), list)
    ensures forall e :: e in Unexpired(list, t) <==> e in list && !Expired(e, t)
  {
    if list != [] {
      var n := |list| - 1;
      UnexpiredKeepsOrder(list[..n], t);
      assert list == list[..n] + [list[n]];
      var kept := Unexpired(list[..n], t);
      if Expired(list[n], t) {
        assert Unexpired(list, t) == kept;
      } else {
        assert Unexpired(list, t)[..|kept|] == kept;
      }
    }
  }

  /** How many entries of the list are expired. */
  function CountExpired(list: seq<IPEntry>, t: int): nat {
    if list == [] then 0
    else
      var n := |list| - 1;
      CountExpired(list[..n], t) + if Expired(list[n], t) then 1 else 0
  }

  lemma {:induction false} UnexpiredCounts(list: seq<IPEntry>, t: int)
    ensures |Unexpired(list, t)| + CountExpired(list, t) == |list|
  {
    if list != [] {
      UnexpiredCounts(list[..|list| - 1], t);
    }
  }

  lemma {:induction false} NothingExpired(list: seq<IPEntry>, t: int)
    requires CountExpired(list, t) == 0
    ensures Unexpired(list, t) == list
  {
    if list != [] {
      NothingExpired(list[..|list| - 1], t);
    }
  }

  lemma {:induction false} NothingLeftToRemove(list: seq<IPEntry>, t: int)
    requires forall e :: e in list ==> !Expired(e, t)
    ensures CountExpired(list, t) == 0
  {
    if list != [] {
      NothingLeftToRemove(list[..|list| - 1], t);
    }
  }

  /** A range is in the file exactly when some entry for it was unexpired at its own check. */
  lemma {:induction false} ListedMembers(list: seq<IPEntry>, times: seq<int>)
    requires |times| == |list|
    ensures forall i :: 0 <= i < |list| && !Expired(list[i], times[i]) ==> list[i].ip in Listed(list, times)
    ensures forall r :: r in Listed(list, times) ==>
              exists i :: 0 <= i < |list| && !Expired(list[i], times[i]) && list[i].ip == r
  {
    if list != [] {
      var n := |list| - 1;
      ListedMembers(list[..n], times[..n]);
      forall r | r in Listed(list, times)
        ensures exists i :: 0 <= i < |list| && !Expired(list[i], times[i]) && list[i].ip == r
      {
        if r in Listed(list[..n], times[..n]) {
          var i :| 0 <= i < n && !Expired(list[..n][i], times[..n][i]) && list[..n][i].ip == r;
          assert !Expired(list[i], times[i]) && list[i].ip == r;
        } else {
          assert !Expired(list[n], times[n]) && list[n].ip == r;
        }
      }
      forall i | 0 <= i < |list| && !Expired(list[i], times[i])
        ensures list[i].ip in Listed(list, times)
      {
        if i < n {
          assert !Expired(list[..n][i], times[..n][i]);
        }
      }
    }
  }

  lemma ListedNext(list: seq<IPEntry>, times: seq<int>, i: nat, t: int)
    requires i < |list| && |times| == i
    ensures Listed(list[..i + 1], times + [t]) ==
              Listed(list[..i], times) + if Expired(list[i], t) then [] else [list[i].ip]
  {
    assert list[..i + 1][..i] == list[..i] && (times + [t])[..i] == times;
  }

  /** One instant for all checks: the file is the list of the unexpired entries' ranges, in order. */
  lemma {:induction false} ListedAtOneInstant(list: seq<IPEntry>, times: seq<int>, t: int)
    requires |times| == |list| && forall i :: 0 <= i < |times| ==> times[i] == t
    ensures |Listed(list, times)| == |Unexpired(list, t)|
    ensures forall k :: 0 <= k < |Listed(list, times)| ==> Listed(list, times)[k] == Unexpired(list, t)[k].ip
  {
    if list != [] {
      var n := |list| - 1;
      ListedAtOneInstant(list[..n], times[..n], t);
    }
  }

  // ----- The file follows the list -----

  /** Every entry not expired at t is in the file. */
  predicate FileFollows(white: seq<IPEntry>, file: FileContent, t: int) {
    forall i :: 0 <= i < |white| && !Expired(white[i], t) ==> file.Ranges? && white[i].ip in file.ranges
  }

  /** Time passing and entries leaving the list never break it. */
  lemma FileFollowsOn(white: seq<IPEntry>, smaller: seq<IPEntry>, file: FileContent, t: int, t': int)
    requires FileFollows(white, file, t) && t <= t' && forall e :: e in smaller ==> e in white
    ensures FileFollows(smaller, file, t')
  {
    forall i | 0 <= i < |smaller| && !Expired(smaller[i], t')
      ensures file.Ranges? && smaller[i].ip in file.ranges
    {
      assert smaller[i] in white;
      var j :| 0 <= j < |white| && white[j] == smaller[i];
      assert !Expired(white[j], t);
    }
  }

  lemma WrittenFileFollows(white: seq<IPEntry>, times: seq<int>, from: int, to: int)
    requires |times| == |white| && Readings(times, from, to)
    ensures FileFollows(white, Ranges(Listed(white, times)), to)
  {
    ListedMembers(white, times);
    forall i | 0 <= i < |white| && !Expired(white[i], to)
      ensures white[i].ip in Listed(white, times)
    {
      assert !Expired(white[i], times[i]);
    }
  }

  lemma LoadedFileFollows(ranges: seq<string>, times: seq<int>, t: int)
    requires |times| == |ranges|
    ensures FileFollows(Loaded(ranges, times), Ranges(ranges), t)
  {
    forall i | 0 <= i < |ranges|
      ensures Loaded(ranges, times)[i].ip in ranges
    {
      assert Loaded(ranges, times)[i].ip == ranges[i];
    }
  }

  // ----- Meaning -----

  lemma MoreEntriesAllowMore(p: Parser, white: seq<IPEntry>, more: seq<IPEntry>, a: Address, t: int)
    requires forall e :: e in white && !Expired(e, t) ==> e in more
    ensures Whitelisted(p, white, a, t) ==> Whitelisted(p, more, a, t)
  {
    if i :| 0 <= i < |white| && !Expired(white[i], t) && EntryMatches(p, a, white[i].ip) {
      assert white[i] in more;
      var j :| 0 <= j < |more| && more[j] == white[i];
      assert !Expired(more[j], t) && EntryMatches(p, a, more[j].ip);
    }
  }

  /** Cleaning up at `now` changes no answer from `now` on, and a second cleanup at `now` removes nothing. */
  lemma CleanupPreservesAnswers(p: Parser, white: seq<IPEntry>, black: seq<IPEntry>, ip: string, now: int, t: int)
    requires now <= t
    ensures AllowedAt(p, Unexpired(white, now), black, ip, t) == AllowedAt(p, white, black, ip, t)
    ensures CountExpired(Unexpired(white, now), now) == 0
  {
    UnexpiredKeepsOrder(white, now);
    NothingLeftToRemove(Unexpired(white, now), now);
    if p.ip(ip).Some? {
      MoreEntriesAllowMore(p, Unexpired(white, now), white, p.ip(ip).value, t);
      MoreEntriesAllowMore(p, white, Unexpired(white, now), p.ip(ip).value, t);
    }
  }

  /**
   Write and reload: the ranges come back in order, and they whitelist what some entry unexpired at its own check did.
   */
  lemma ReloadedExactly(p: Parser, white: seq<IPEntry>, times: seq<int>, loadTimes: seq<int>, a: Address, t: int)
    requires |times| == |white| && |loadTimes| == |Listed(white, times)|
    ensures var again := Loaded(Listed(white, times), loadTimes);
            && (forall k :: 0 <= k < |again| ==> again[k].ip == Listed(white, times)[k] && again[k].expiresAt == None)
            && (Whitelisted(p, again, a, t) <==>
                exists i :: 0 <= i < |white| && !Expired(white[i], times[i]) && EntryMatches(p, a, white[i].ip))
  {
    var ranges := Listed(white, times);
    var again := Loaded(ranges, loadTimes);
    ListedMembers(white, times);
    if Whitelisted(p, again, a, t) {
      var k :| 0 <= k < |again| && !Expired(again[k], t) && EntryMatches(p, a, again[k].ip);
      assert ranges[k] in ranges;
      var i :| 0 <= i < |white| && !Expired(white[i], times[i]) && white[i].ip == ranges[k];
    }
    if i :| 0 <= i < |white| && !Expired(white[i], times[i]) && EntryMatches(p, a, white[i].ip) {
      assert white[i].ip in ranges;
      var k :| 0 <= k < |ranges| && ranges[k] == white[i].ip;
      assert !Expired(again[k], t) && EntryMatches(p, a, again[k].ip);
    }
  }

  /**
   So at every time the reloaded list whitelists everything that was whitelisted when the write ended or later,
   and nothing that was not whitelisted when it began; if the checks took no time it agrees with the original.
   */
  lemma ReloadRoundTrip(p: Parser, white: seq<IPEntry>, times: seq<int>, from: int, to: int,
                        loadTimes: seq<int>, a: Address, t: int)
    requires |times| == |white| && Readings(times, from, to) && |loadTimes| == |Listed(white, times)|
    ensures var again := Loaded(Listed(white, times), loadTimes);
            && (Whitelisted(p, white, a, to) ==> Whitelisted(p, again, a, t))
            && (to <= t && Whitelisted(p, white, a, t) ==> Whitelisted(p, again, a, t))
            && (Whitelisted(p, again, a, t) ==> Whitelisted(p, white, a, from))
            && (from == to ==> (Whitelisted(p, again, a, t) <==> Whitelisted(p, white, a, to)))
  {
    ReloadedExactly(p, white, times, loadTimes, a, t);
    if Whitelisted(p, Loaded(Listed(white, times), loadTimes), a, t) {
      var i :| 0 <= i < |white| && !Expired(white[i], times[i]) && EntryMatches(p, a, white[i].ip);
      assert !Expired(white[i], from);
    }
    if to <= t && Whitelisted(p, white, a, t) {
      WhitelistedEarlier(p, white, a, to, t);
    }
    if Whitelisted(p, white, a, to) {
      var i :| 0 <= i < |white| && !Expired(white[i], to) && EntryMatches(p, a, white[i].ip);
      assert !Expired(white[i], times[i]);
    }
  }

  /** Without new entries, what is whitelisted later was whitelisted earlier. */
  lemma WhitelistedEarlier(p: Parser, white: seq<IPEntry>, a: Address, t: int, t': int)
    requires Whitelisted(p, white, a, t') && t <= t'
    ensures Whitelisted(p, white, a, t)
  {
    var i :| 0 <= i < |white| && !Expired(white[i], t') && EntryMatches(p, a, white[i].ip);
    assert !Expired(white[i], t);
  }

  /** A blacklisted range that covers a whitelisted one leaves none of that range's addresses allowed, at any time. */
  lemma CoveredRangeDenied(p: Parser, white: seq<IPEntry>, black: seq<IPEntry>, i: nat, j: nat, ip: string, t: int)
    requires ParsesSoundly(p) && i < |white| && j < |black|
    requires ParsePattern(p, white[i].ip).Some? && ParsePattern(p, black[j].ip).Some?
    requires Contains(ParsePattern(p, black[j].ip).value, ParsePattern(p, white[i].ip).value)
    requires p.ip(ip).Some? && EntryMatches(p, p.ip(ip).value, white[i].ip)
    ensures !AllowedAt(p, white, black, ip, t)
  {
    var w, b := ParsePattern(p, white[i].ip).value, ParsePattern(p, black[j].ip).value;
    CoversIsContainment(b, w);
    assert EntryMatches(p, p.ip(ip).value, black[j].ip);
  }

  /** The patterns of the entries that parse. */
  ghost function Patterns(p: Parser, list: seq<IPEntry>): (qs: seq<Pattern>)
    requires ParsesSoundly(p)
    ensures forall i :: 0 <= i < |qs| ==> qs[i].WellFormed()
  {
    if list == [] then []
    else
      var parsed := ParsePattern(p, list[|list| - 1].ip);
      Patterns(p, list[..|list| - 1]) + if parsed.Some? then [parsed.value] else []
  }

  lemma {:induction false} PatternsMatch(p: Parser, list: seq<IPEntry>, a: Address)
    requires ParsesSoundly(p)
    ensures Blacklisted(p, list, a) <==> MatchedByAny(a, Patterns(p, list))
  {
    if list != [] {
      var n := |list| - 1;
      PatternsMatch(p, list[..n], a);
      var before, parsed, all := Patterns(p, list[..n]), ParsePattern(p, list[n].ip), Patterns(p, list);
      assert MatchedByAny(a, all) <==> MatchedByAny(a, before) || EntryMatches(p, a, list[n].ip) by {
        if i :| 0 <= i < |before| && Matches(a, before[i]) { assert all[i] == before[i]; }
        if parsed.Some? { assert all[|before|] == parsed.value; }
      }
      if i :| 0 <= i < n && EntryMatches(p, a, list[..n][i].ip) { assert EntryMatches(p, a, list[i].ip); }
      if i :| 0 <= i < n && EntryMatches(p, a, list[i].ip) { assert EntryMatches(p, a, list[..n][i].ip); }
    }
  }

  /** Every live whitelisted range is covered by the blacklist as a whole. */
  ghost predicate AllCovered(p: Parser, white: seq<IPEntry>, black: seq<IPEntry>, t: int)
    requires ParsesSoundly(p)
  {
    forall i :: 0 <= i < |white| && !Expired(white[i], t) && ParsePattern(p, white[i].ip).Some? ==>
      CoveredBy(ParsePattern(p, white[i].ip).value, Patterns(p, black))
  }

  /** No address is left to allow exactly when every live whitelisted range is covered by the blacklist as a whole. */
  lemma NothingLeftIff(p: Parser, white: seq<IPEntry>, black: seq<IPEntry>, t: int)
    requires ParsesSoundly(p)
    ensures (forall a: Address :: Blacklisted(p, black, a) || !Whitelisted(p, white, a, t))
              <==> AllCovered(p, white, black, t)
  {
    var qs := Patterns(p, black);
    forall a: Address
      ensures Blacklisted(p, black, a) <==> MatchedByAny(a, qs)
    {
      PatternsMatch(p, black, a);
    }
    forall i | 0 <= i < |white| && ParsePattern(p, white[i].ip).Some?
      ensures CoveredBy(ParsePattern(p, white[i].ip).value, qs) <==>
                forall a: Address :: EntryMatches(p, a, white[i].ip) ==> MatchedByAny(a, qs)
    {
      CoveredByIff(ParsePattern(p, white[i].ip).value, qs);
    }
    if forall a: Address :: Blacklisted(p, black, a) || !Whitelisted(p, white, a, t) {
      forall i, a: Address | 0 <= i < |white| && !Expired(white[i], t) && EntryMatches(p, a, white[i].ip)
        ensures MatchedByAny(a, qs)
      {
        assert Whitelisted(p, white, a, t);
      }
    }
  }
}
