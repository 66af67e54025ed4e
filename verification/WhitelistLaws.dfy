/**
 What the whitelist manager decides, in terms of the address parsers and of the operations that completed alone:
 which addresses an entry names, when they are allowed, and how long an entry stays in force.
 */
module WhitelistLaws {
  import opened Common
  import opened IpRange
  import opened Whitelist

  /** A text that parses as a range names the addresses that share its leading bits; any other the one it parses to. */
  predicate Names(p: Parser, text: string, a: Address) {
    match p.cidr(text)
    case Some((network, ones)) => |a| == |network| && ones <= |a| && a[..ones] == network[..ones]
    case None => p.ip(text) == Some(a)
  }

  lemma EntryMatchesNames(p: Parser, a: Address, text: string)
    requires ParsesSoundly(p)
    ensures EntryMatches(p, a, text) <==> Names(p, text, a)
  {
    match p.cidr(text)
    case Some((network, ones)) =>
      if |a| == |network| { MatchesIsSamePrefix(a, Prefix(network, ones)); }
    case None =>
  }

  /** A text is accepted into a list exactly when one of the parsers takes it. */
  lemma AcceptedTexts(p: Parser, text: string)
    ensures ParsePattern(p, text).Some? <==> p.cidr(text).Some? || p.ip(text).Some?
  {
  }

  /**
   The decision at time t: the text parses as an address, no blacklisted text names that address, and some whitelisted
   text does whose entry has no expiry or one not before t.
   */
  lemma DecisionIff(p: Parser, white: seq<IPEntry>, black: seq<IPEntry>, ip: string, t: int)
    requires ParsesSoundly(p)
    ensures AllowedAt(p, white, black, ip, t) <==>
              match p.ip(ip)
              case None => false
              case Some(a) =>
                && (forall j :: 0 <= j < |black| ==> !Names(p, black[j].ip, a))
                && (exists i :: 0 <= i < |white| && Names(p, white[i].ip, a)
                      && (white[i].expiresAt == None || t <= white[i].expiresAt.value))
  {
    if p.ip(ip).Some? {
      var a := p.ip(ip).value;
      forall text
        ensures EntryMatches(p, a, text) <==> Names(p, text, a)
      {
        EntryMatchesNames(p, a, text);
      }
      if i :| 0 <= i < |white| && Names(p, white[i].ip, a)
              && (white[i].expiresAt == None || t <= white[i].expiresAt.value) {
        assert !Expired(white[i], t) && EntryMatches(p, a, white[i].ip);
      }
      if Whitelisted(p, white, a, t) {
        var i :| 0 <= i < |white| && !Expired(white[i], t) && EntryMatches(p, a, white[i].ip);
        assert Names(p, white[i].ip, a);
      }
    }
  }

  /** One entry with an expiry allows what it names up to and including that instant, and nothing after it. */
  lemma AllowedUntilExpiry(p: Parser, e: IPEntry, ip: string, t: int)
    requires ParsesSoundly(p) && e.expiresAt.Some? && p.ip(ip).Some? && Names(p, e.ip, p.ip(ip).value)
    ensures AllowedAt(p, [e], [], ip, t) <==> t <= e.expiresAt.value
  {
    DecisionIff(p, [e], [], ip, t);
    assert [e][0] == e;
  }

  // ----- What completed operations leave in force -----

  predicate Accepts(p: Parser, text: string) {
    p.cidr(text).Some? || p.ip(text).Some?
  }

  lemma HasIpIsMember(list: seq<IPEntry>, ip: string)
    ensures HasIp(list, ip) <==> exists e :: e in list && e.ip == ip
  {
    if e :| e in list && e.ip == ip {
      var i :| 0 <= i < |list| && list[i] == e;
      assert list[i].ip == ip;
    }
  }

  /** What one operation does to the texts on the blacklist. */
  lemma BlackAfter(p: Parser, l: Lists, d: Done, ip: string)
    ensures HasIp(Effect(p, l, d).black, ip) <==>
              || (d.op.AddBlack? && d.op.ip == ip && Accepts(p, ip))
              || (HasIp(l.black, ip) && d.op != RemoveBlack(ip))
  {
    HasIpIsMember(l.black, ip);
    HasIpIsMember(Effect(p, l, d).black, ip);
    match d.op
    case AddBlack(other, description, actor) =>
      if Accepts(p, other) && !HasIp(l.black, other) {
        assert IPEntry(other, description, d.at, actor, None) in Effect(p, l, d).black;
      }
    case RemoveBlack(other) => WithoutKeepsTheRest(l.black, other);
    case _ =>
  }

  /** The k-th operation put the text on the blacklist, and none after it takes it off. */
  predicate AddedBlack(p: Parser, ops: seq<Done>, ip: string, k: nat) {
    && k < |ops| && ops[k].op.AddBlack? && ops[k].op.ip == ip && Accepts(p, ip)
    && forall j :: k < j < |ops| ==> ops[j].op != RemoveBlack(ip)
  }

  predicate NeverRemovedBlack(ops: seq<Done>, ip: string) {
    forall j :: 0 <= j < |ops| ==> ops[j].op != RemoveBlack(ip)
  }

  ghost predicate BlackInForce(p: Parser, l: Lists, ops: seq<Done>, ip: string) {
    (exists k :: AddedBlack(p, ops, ip, k)) || (HasIp(l.black, ip) && NeverRemovedBlack(ops, ip))
  }

  lemma BlackInForceNext(p: Parser, l: Lists, ops: seq<Done>, ip: string)
    requires ops != []
    ensures var n := |ops| - 1;
            BlackInForce(p, l, ops, ip) <==>
              || (ops[n].op.AddBlack? && ops[n].op.ip == ip && Accepts(p, ip))
              || (BlackInForce(p, l, ops[..n], ip) && ops[n].op != RemoveBlack(ip))
  {
    var n := |ops| - 1;
    var before := ops[..n];
    if k :| AddedBlack(p, before, ip, k) && ops[n].op != RemoveBlack(ip) {
      assert AddedBlack(p, ops, ip, k);
    }
    if ops[n].op.AddBlack? && ops[n].op.ip == ip && Accepts(p, ip) {
      assert AddedBlack(p, ops, ip, n);
    }
    if k :| AddedBlack(p, ops, ip, k) {
      assert k == n || AddedBlack(p, before, ip, k);
    }
  }

  /** Whatever else completes: a text is on the blacklist exactly when it was put there and not taken off since. */
  lemma {:induction false} BlacklistIff(p: Parser, l: Lists, ops: seq<Done>, ip: string)
    ensures HasIp(Replay(p, l, ops).black, ip) <==> BlackInForce(p, l, ops, ip)
  {
    if ops != [] {
      var n := |ops| - 1;
      BlacklistIff(p, l, ops[..n], ip);
      BlackAfter(p, Replay(p, l, ops[..n]), ops[n], ip);
      BlackInForceNext(p, l, ops, ip);
    }
  }

  /**
   After a completed AddToBlacklist with a text that parses, and until a RemoveFromBlacklist of the same text, no
   address that the text names is allowed, at any time, whatever else completes.
   */
  lemma BlacklistedIsDenied(p: Parser, l: Lists, ops: seq<Done>, k: nat, ip: string, text: string, t: int)
    requires ParsesSoundly(p) && AddedBlack(p, ops, ip, k)
    requires p.ip(text).Some? && Names(p, ip, p.ip(text).value)
    ensures !AllowedAt(p, Replay(p, l, ops).white, Replay(p, l, ops).black, text, t)
  {
    BlacklistIff(p, l, ops, ip);
    var black := Replay(p, l, ops).black;
    var j :| 0 <= j < |black| && black[j].ip == ip;
    DecisionIff(p, Replay(p, l, ops).white, black, text, t);
  }

  /** Once taken off and not put back, a text no longer denies: the answer is that of the lists without it. */
  lemma RemovedFromBlacklist(p: Parser, l: Lists, ops: seq<Done>, k: nat, ip: string)
    requires k < |ops| && ops[k].op == RemoveBlack(ip)
    requires forall j :: k < j < |ops| ==> !(ops[j].op.AddBlack? && ops[j].op.ip == ip)
    ensures !HasIp(Replay(p, l, ops).black, ip)
  {
    BlacklistIff(p, l, ops, ip);
  }

  /** What one operation does to an entry of the whitelist. */
  lemma WhiteAfter(p: Parser, l: Lists, d: Done, e: IPEntry)
    ensures e in Effect(p, l, d).white <==>
              || (&& d.op.AddWhite? && Accepts(p, d.op.ip) && d.written && !HasIp(l.white, d.op.ip)
                  && e == IPEntry(d.op.ip, d.op.description, d.at, d.op.actor, d.op.expiresAt))
              || (&& e in l.white && d.op != RemoveWhite(e.ip)
                  && (d.op.Cleanup? && e.expiresAt.Some? ==> d.at <= e.expiresAt.value))
  {
    match d.op
    case RemoveWhite(other) => WithoutKeepsTheRest(l.white, other);
    case Cleanup => UnexpiredKeepsOrder(l.white, d.at);
    case _ =>
  }

  /** None of the operations from the k-th on removes the entry, or cleans up after its expiry. */
  predicate Keeps(ops: seq<Done>, k: nat, e: IPEntry) {
    forall j :: k <= j < |ops| ==>
      && ops[j].op != RemoveWhite(e.ip)
      && (ops[j].op.Cleanup? && e.expiresAt.Some? ==> ops[j].at <= e.expiresAt.value)
  }

  /** The k-th operation made the entry. */
  predicate MadeWhite(p: Parser, l: Lists, ops: seq<Done>, e: IPEntry, k: nat) {
    && k < |ops| && ops[k].op.AddWhite? && Accepts(p, ops[k].op.ip) && ops[k].written
    && !HasIp(Replay(p, l, ops[..k]).white, ops[k].op.ip)
    && e == IPEntry(ops[k].op.ip, ops[k].op.description, ops[k].at, ops[k].op.actor, ops[k].op.expiresAt)
  }

  /** The k-th operation made the entry, and nothing since then removed its text or cleaned up after its expiry. */
  predicate InForceSince(p: Parser, l: Lists, ops: seq<Done>, e: IPEntry, k: nat) {
    MadeWhite(p, l, ops, e, k) && Keeps(ops, k + 1, e)
  }

  predicate InForce(p: Parser, l: Lists, ops: seq<Done>, e: IPEntry) {
    (exists k: nat | k < |ops| :: InForceSince(p, l, ops, e, k)) || (e in l.white && Keeps(ops, 0, e))
  }

  lemma InForceNext(p: Parser, l: Lists, ops: seq<Done>, e: IPEntry)
    requires ops != []
    ensures var n := |ops| - 1;
            InForce(p, l, ops, e) <==>
              InForceSince(p, l, ops, e, n) || (InForce(p, l, ops[..n], e) && Keeps(ops, n, e))
  {
    var n := |ops| - 1;
    var before := ops[..n];
    assert forall k :: 0 <= k <= n ==> before[..k] == ops[..k];
    assert forall k :: 0 <= k <= n ==> (Keeps(ops, k, e) <==> Keeps(before, k, e) && Keeps(ops, n, e));
    if k: nat :| k < n && InForceSince(p, l, before, e, k) && Keeps(ops, n, e) {
      assert InForceSince(p, l, ops, e, k);
    }
    if k: nat :| k < |ops| && InForceSince(p, l, ops, e, k) {
      assert k == n || InForceSince(p, l, before, e, k);
    }
  }

  /**
   Whatever else completes: an entry is on the whitelist exactly when an AddToWhitelist whose write succeeded made it,
   or it was there from the start, and since then nothing removed its text or cleaned up after its expiry.
   */
  lemma {:induction false} WhitelistIff(p: Parser, l: Lists, ops: seq<Done>, e: IPEntry)
    ensures e in Replay(p, l, ops).white <==> InForce(p, l, ops, e)
  {
    if ops != [] {
      var n := |ops| - 1;
      WhitelistIff(p, l, ops[..n], e);
      WhiteAfter(p, Replay(p, l, ops[..n]), ops[n], e);
      InForceNext(p, l, ops, e);
    }
  }

  /** So an added entry allows what it names, unless that is blacklisted, until its own expiry or its removal. */
  lemma WhitelistedIsAllowed(p: Parser, l: Lists, ops: seq<Done>, e: IPEntry, k: nat, text: string, t: int)
    requires ParsesSoundly(p) && InForceSince(p, l, ops, e, k)
    requires e.expiresAt == None || t <= e.expiresAt.value
    requires p.ip(text).Some? && Names(p, e.ip, p.ip(text).value)
    requires forall b :: b in Replay(p, l, ops).black ==> !Names(p, b.ip, p.ip(text).value)
    ensures AllowedAt(p, Replay(p, l, ops).white, Replay(p, l, ops).black, text, t)
  {
    WhitelistIff(p, l, ops, e);
    var white := Replay(p, l, ops).white;
    var i :| 0 <= i < |white| && white[i] == e;
    DecisionIff(p, white, Replay(p, l, ops).black, text, t);
  }

  /** A removed text is gone, whatever else completes, until it is added again. */
  lemma RemovedFromWhitelist(p: Parser, l: Lists, ops: seq<Done>, k: nat, ip: string)
    requires k < |ops| && ops[k].op == RemoveWhite(ip)
    requires forall j :: k < j < |ops| ==> !(ops[j].op.AddWhite? && ops[j].op.ip == ip)
    ensures !HasIp(Replay(p, l, ops).white, ip)
  {
    HasIpIsMember(Replay(p, l, ops).white, ip);
    if e :| e in Replay(p, l, ops).white && e.ip == ip {
      WhitelistIff(p, l, ops, e);
    }
  }
}
