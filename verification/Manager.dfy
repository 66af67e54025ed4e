/** The whitelist manager: two lists updated in place, a clock it re-reads, and a file whose writes may fail. */
module Manager {
  import opened Common
  import opened IpRange
  import opened Whitelist

  /** A monotone clock: any time may pass between two readings, and none runs backwards. */
  class Clock {
    var now: int

    method Now() returns (t: int)
      modifies this
      ensures old(now) <= now && t == now
    {
      var passed: int :| passed >= 0;
      now := now + passed;
      t := now;
    }
  }

  /** The configuration file.  Only this manager writes it; a write that fails (not `up`) leaves it as it was. */
  class ConfigFile {
    var content: FileContent

    method Write(ranges: seq<string>, up: bool) returns (ok: bool)
      modifies this
      ensures ok == up && content == if up then Ranges(ranges) else old(content)
    {
      if up {
        content := Ranges(ranges);
      }
      ok := up;
    }
  }

  datatype Error = InvalidPattern | Duplicate | NotFound | WriteFailed | ReadFailed | ParseFailed

  class Manager {
    var whitelist: seq<IPEntry>
    var blacklist: seq<IPEntry>
    const file: ConfigFile
    const clock: Clock
    const parser: Parser

    /** What every method keeps: each unexpired whitelist entry is in the file. */
    ghost predicate Valid()
      reads this, file, clock
    {
      FileFollows(whitelist, file.content, clock.now)
    }

    function Current(): Lists
      reads this
    {
      Lists(whitelist, blacklist)
    }

    constructor (parser: Parser, file: ConfigFile, clock: Clock)
      ensures Valid() && whitelist == [] && blacklist == []
      ensures this.parser == parser && this.file == file && this.clock == clock
    {
      this.whitelist, this.blacklist := [], [];
      this.parser, this.file, this.clock := parser, file, clock;
    }

    /** Part of construction: the list of a fresh manager becomes the file's ranges; a missing file is an empty list. */
    method LoadFromTraefikConfig() returns (err: Option<Error>, ghost times: seq<int>)
      requires whitelist == []
      modifies this, clock
      ensures Valid() && blacklist == old(blacklist)
      ensures err == (match file.content
                      case Unreadable => Some(ReadFailed)
                      case Malformed => Some(ParseFailed)
                      case _ => None)
      ensures if file.content.Ranges? then
                && |times| == |file.content.ranges| && Readings(times, old(clock.now), clock.now)
                && |whitelist| == |times| && forall i :: 0 <= i < |whitelist| ==>
                     whitelist[i] ==
                       IPEntry(file.content.ranges[i], "Existing from Traefik config", times[i], "system", None)
              else whitelist == []
    {
      err, times := None, [];
      match file.content
      case Absent =>
      case Unreadable => err := Some(ReadFailed);
      case Malformed => err := Some(ParseFailed);
      case NoMiddleware =>
      case Ranges(ranges) =>
        var i := 0;
        while i < |ranges|
          invariant 0 <= i <= |ranges| && |times| == i
          invariant Readings(times, old(clock.now), clock.now)
          invariant whitelist == Loaded(ranges[..i], times)
          invariant blacklist == old(blacklist)
        {
          var t := clock.Now();
          whitelist := whitelist + [IPEntry(ranges[i], "Existing from Traefik config", t, "system", None)];
          times := times + [t];
          i := i + 1;
          assert whitelist == Loaded(ranges[..i], times);
        }
        assert ranges[..i] == ranges;
        LoadedFileFollows(ranges, times, clock.now);
    }

    /** The clock is read only for an entry that has an expiry. */
    method CheckExpiry(entry: IPEntry) returns (expired: bool, ghost t: int)
      modifies clock
      ensures old(clock.now) <= t == clock.now && expired == Expired(entry, t)
    {
      expired := false;
      if entry.expiresAt.Some? {
        var now := clock.Now();
        expired := now > entry.expiresAt.value;
      }
      t := clock.now;
    }

    /** The ranges to be written, each entry's expiry checked against a clock reading of its own. */
    method SourceRange() returns (sourceRange: seq<string>, ghost times: seq<int>)
      modifies clock
      ensures |times| == |whitelist| && Readings(times, old(clock.now), clock.now)
      ensures sourceRange == Listed(whitelist, times)
    {
      sourceRange, times := [], [];
      for i := 0 to |whitelist|
        invariant |times| == i && Readings(times, old(clock.now), clock.now)
        invariant sourceRange == Listed(whitelist[..i], times)
      {
        var expired, t := CheckExpiry(whitelist[i]);
        if !expired {
          sourceRange := sourceRange + [whitelist[i].ip];
        }
        ListedNext(whitelist, times, i, t);
        times := times + [t];
      }
      assert whitelist[..|whitelist|] == whitelist;
    }

    /** Rewrites the file from the list. */
    method UpdateTraefikConfig(up: bool) returns (ok: bool, ghost times: seq<int>)
      modifies clock, file
      ensures |times| == |whitelist| && Readings(times, old(clock.now), clock.now)
      ensures ok == up && file.content == if up then Ranges(Listed(whitelist, times)) else old(file.content)
    {
      var sourceRange;
      sourceRange, times := SourceRange();
      var _ := clock.Now();
      ok := file.Write(sourceRange, up);
    }

    method FindIp(list: seq<IPEntry>, ip: string) returns (found: bool)
      ensures found == HasIp(list, ip)
    {
      for i := 0 to |list|
        invariant !HasIp(list[..i], ip)
      {
        if list[i].ip == ip {
          return true;
        }
      }
      assert list[..|list|] == list;
      return false;
    }

    /** On any error nothing changes: a failed write takes the tentative entry back. */
    method AddToWhitelist(ip: string, description: string, addedBy: string, expiresAt: Option<int>, up: bool)
      returns (err: Option<Error>, ghost at: int, ghost times: seq<int>)
      requires Valid()
      modifies this, clock, file
      ensures Valid() && old(clock.now) <= at <= clock.now
      ensures err == (if parser.cidr(ip).None? && parser.ip(ip).None? then Some(InvalidPattern)
                      else if HasIp(old(whitelist), ip) then Some(Duplicate)
                      else if up then None else Some(WriteFailed))
      ensures err.Some? ==> whitelist == old(whitelist) && file.content == old(file.content)
      ensures Current() ==
                Effect(parser, old(Current()), Done(AddWhite(ip, description, addedBy, expiresAt), at, err.None?))
      ensures blacklist == old(blacklist)
      ensures err.None? ==> whitelist == old(whitelist) + [IPEntry(ip, description, at, addedBy, expiresAt)]
                            && |times| == |whitelist| && Readings(times, old(clock.now), clock.now)
                            && file.content == Ranges(Listed(whitelist, times))
    {
      at, times := clock.now, [];
      if ParsePattern(parser, ip).None? {
        return Some(InvalidPattern), at, [];
      }
      var found := FindIp(whitelist, ip);
      if found {
        return Some(Duplicate), at, [];
      }
      var now := clock.Now();
      at := now;
      whitelist := whitelist + [IPEntry(ip, description, now, addedBy, expiresAt)];
      var ok;
      ok, times := UpdateTraefikConfig(up);
      if !ok {
        whitelist := whitelist[..|whitelist| - 1];
        FileFollowsOn(old(whitelist), whitelist, file.content, old(clock.now), clock.now);
        return Some(WriteFailed), at, [];
      }
      WrittenFileFollows(whitelist, times, at, clock.now);
      err := None;
    }

    /** The entry leaves the list even if the file cannot be rewritten. */
    method RemoveFromWhitelist(ip: string, removedBy: string, up: bool)
      returns (err: Option<Error>, ghost times: seq<int>)
      requires Valid()
      modifies this, clock, file
      ensures Valid() && clock.now >= old(clock.now)
      ensures err == (if !HasIp(old(whitelist), ip) then Some(NotFound) else if up then None else Some(WriteFailed))
      ensures Current() == Effect(parser, old(Current()), Done(RemoveWhite(ip), clock.now, err.None?))
      ensures whitelist == Without(old(whitelist), ip) && blacklist == old(blacklist)
      ensures err.Some? ==> file.content == old(file.content)
      ensures err.None? ==> |times| == |whitelist| && Readings(times, old(clock.now), clock.now)
                            && file.content == Ranges(Listed(whitelist, times))
    {
      var found, newWhitelist := RemoveIp(whitelist, ip);
      WithoutKeepsTheRest(whitelist, ip);
      if !found {
        WithoutAbsent(whitelist, ip);
        return Some(NotFound), [];
      }
      whitelist := newWhitelist;
      var ok;
      ok, times := UpdateTraefikConfig(up);
      FileFollowsOn(old(whitelist), whitelist, old(file.content), old(clock.now), clock.now);
      if !ok {
        return Some(WriteFailed), times;
      }
      WrittenFileFollows(whitelist, times, old(clock.now), clock.now);
      err := None;
    }

    method RemoveIp(list: seq<IPEntry>, ip: string) returns (found: bool, kept: seq<IPEntry>)
      ensures found == HasIp(list, ip) && kept == Without(list, ip)
    {
      found, kept := false, [];
      for i := 0 to |list|
        invariant found == HasIp(list[..i], ip) && kept == Without(list[..i], ip)
      {
        assert list[..i + 1][..i] == list[..i] && list[..i + 1][i] == list[i];
        if list[i].ip != ip {
          kept := kept + [list[i]];
          assert HasIp(list[..i + 1], ip) ==> HasIp(list[..i], ip);
          assert found ==> HasIp(list[..i + 1], ip) by {
            if found {
              var j :| 0 <= j < i && list[..i][j].ip == ip;
              assert list[..i + 1][j].ip == ip;
            }
          }
        } else {
          found := true;
        }
      }
      assert list[..|list|] == list;
    }

    method AddToBlacklist(ip: string, description: string, addedBy: string) returns (err: Option<Error>, ghost at: int)
      requires Valid()
      modifies this`blacklist, clock
      ensures Valid() && old(clock.now) <= at <= clock.now
      ensures err == (if parser.cidr(ip).None? && parser.ip(ip).None? then Some(InvalidPattern)
                      else if HasIp(old(blacklist), ip) then Some(Duplicate) else None)
      ensures blacklist == old(blacklist) + if err.Some? then [] else [IPEntry(ip, description, at, addedBy, None)]
      ensures Current() == Effect(parser, old(Current()), Done(AddBlack(ip, description, addedBy), at, false))
    {
      at := clock.now;
      if ParsePattern(parser, ip).None? {
        return Some(InvalidPattern), at;
      }
      var found := FindIp(blacklist, ip);
      if found {
        return Some(Duplicate), at;
      }
      var now := clock.Now();
      at := now;
      blacklist := blacklist + [IPEntry(ip, description, now, addedBy, None)];
      FileFollowsOn(whitelist, whitelist, file.content, old(clock.now), clock.now);
      err := None;
    }

    method RemoveFromBlacklist(ip: string, removedBy: string) returns (err: Option<Error>)
      requires Valid()
      modifies this`blacklist
      ensures Valid()
      ensures err == if HasIp(old(blacklist), ip) then None else Some(NotFound)
      ensures Current() == Effect(parser, old(Current()), Done(RemoveBlack(ip), clock.now, false))
      ensures blacklist == Without(old(blacklist), ip)
    {
      var found, newBlacklist := RemoveIp(blacklist, ip);
      if !found {
        WithoutAbsent(blacklist, ip);
        return Some(NotFound);
      }
      blacklist := newBlacklist;
      err := None;
    }

    /**
     The clock is re-read at every entry with an expiry, so the answer lies between the decisions at the call's end and
     start.
     */
    method IsAllowed(ip: string) returns (ok: bool)
      requires Valid()
      modifies clock
      ensures Valid() && clock.now >= old(clock.now)
      ensures AllowedAt(parser, whitelist, blacklist, ip, clock.now) ==> ok
      ensures ok ==> AllowedAt(parser, whitelist, blacklist, ip, old(clock.now))
    {
      var parsed := parser.ip(ip);
      if parsed.None? {
        return false;
      }
      for i := 0 to |blacklist|
        invariant !Blacklisted(parser, blacklist[..i], parsed.value)
        invariant clock.now == old(clock.now)
      {
        if EntryMatches(parser, parsed.value, blacklist[i].ip) {
          return false;
        }
      }
      assert blacklist[..|blacklist|] == blacklist;
      for i := 0 to |whitelist|
        invariant clock.now >= old(clock.now) && Valid()
        invariant forall j :: 0 <= j < i ==>
                    Expired(whitelist[j], clock.now) || !EntryMatches(parser, parsed.value, whitelist[j].ip)
      {
        ghost var before := clock.now;
        var expired, _ := CheckExpiry(whitelist[i]);
        FileFollowsOn(whitelist, whitelist, file.content, before, clock.now);
        if !expired && EntryMatches(parser, parsed.value, whitelist[i].ip) {
          assert !Expired(whitelist[i], old(clock.now));
          return true;
        }
      }
      return false;
    }

    /** Removes what has expired at one reading; the file is rewritten only if something was removed, and may not be. */
    method CleanupExpired(up: bool) returns (removed: nat, ghost now: int, ghost written: bool, ghost times: seq<int>)
      requires Valid()
      modifies this, clock, file
      ensures Valid() && old(clock.now) <= now <= clock.now
      ensures Current() == Effect(parser, old(Current()), Done(Cleanup, now, written))
      ensures whitelist == Unexpired(old(whitelist), now) && blacklist == old(blacklist)
      ensures removed == CountExpired(old(whitelist), now) && removed + |whitelist| == |old(whitelist)|
      ensures written == (removed > 0 && up)
      ensures !written ==> file.content == old(file.content)
      ensures written ==> |times| == |whitelist| && Readings(times, now, clock.now)
                          && file.content == Ranges(Listed(whitelist, times))
    {
      var time := clock.Now();
      now, removed, written, times := time, 0, false, [];
      var newWhitelist: seq<IPEntry> := [];
      for i := 0 to |whitelist|
        invariant newWhitelist == Unexpired(whitelist[..i], now) && removed == CountExpired(whitelist[..i], now)
      {
        assert whitelist[..i + 1][..i] == whitelist[..i];
        var entry := whitelist[i];
        if entry.expiresAt.Some? && time > entry.expiresAt.value {
          removed := removed + 1;
        } else {
          newWhitelist := newWhitelist + [entry];
        }
      }
      assert whitelist[..|whitelist|] == whitelist;
      UnexpiredCounts(whitelist, now);
      UnexpiredKeepsOrder(whitelist, now);
      if removed > 0 {
        whitelist := newWhitelist;
        var ok;
        ok, times := UpdateTraefikConfig(up);
        written := ok;
        FileFollowsOn(old(whitelist), whitelist, old(file.content), old(clock.now), clock.now);
        if ok {
          WrittenFileFollows(whitelist, times, now, clock.now);
        }
      } else {
        NothingExpired(whitelist, now);
        FileFollowsOn(old(whitelist), whitelist, file.content, old(clock.now), clock.now);
      }
    }
  }
}
