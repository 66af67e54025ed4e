/**
 The manager's operations as runs of the lock protocol: from any moment when the lock is free, a caller that nobody
 interrupts completes its operation, with the effect and the answer the specification gives.
 */
module WhitelistCalls {
  import opened Common
  import opened IpRange
  import opened Whitelist
  import opened WhitelistLock

  lemma StepThen(p: Parser, s: State, a: Action, run: seq<Action>)
    requires Enabled(s, a) && Valid(p, Step(p, s, a), run)
    ensures Valid(p, s, [a] + run) && Final(p, s, [a] + run) == Final(p, Step(p, s, a), run)
  {
    assert ([a] + run)[1..] == run;
  }

  // ----- Writers -----

  /** Does the operation get as far as rewriting the file? */
  predicate Rewrites(p: Parser, l: Lists, op: Op, now: int) {
    match op
    case AddWhite(ip, _, _, _) => ParsePattern(p, ip).Some? && !HasIp(l.white, ip)
    case RemoveWhite(ip) => HasIp(l.white, ip)
    case Cleanup => CountExpired(l.white, now) > 0
    case _ => false
  }

  function Instants(now: int, n: nat): seq<int> {
    seq(n, _ => now)
  }

  /** The remaining entries are checked one after the other, all at the state's clock. */
  lemma {:induction false} Scans(p: Parser, s: State, t: nat, k: nat) returns (run: seq<Action>, ranges: seq<string>)
    requires t in s.pcs && s.pcs[t].Scanning? && k <= |s.lists.white| && s.pcs[t].times == Instants(s.now, k)
    requires s.pcs[t].at == s.now && ScanInv(s.lists.white, s.now, s.now, s.pcs[t].times, s.pcs[t].ranges)
    ensures Valid(p, s, run)
    ensures ranges == Listed(s.lists.white, Instants(s.now, |s.lists.white|))
    ensures Final(p, s, run) == At(s, t, Scanning(s.pcs[t].op, s.now, Instants(s.now, |s.lists.white|), ranges))
    decreases |s.lists.white| - k
  {
    var pc := s.pcs[t];
    if k == |s.lists.white| {
      assert s.lists.white[..k] == s.lists.white;
      run, ranges := [], pc.ranges;
      assert s.pcs[t := pc] == s.pcs;
    } else {
      ScanNext(s.lists.white, pc.at, s.now, pc.times, pc.ranges);
      assert Instants(s.now, k) + [s.now] == Instants(s.now, k + 1);
      var rest;
      rest, ranges := Scans(p, Step(p, s, Scan(t)), t, k + 1);
      StepThen(p, s, Scan(t), rest);
      run := [Scan(t)] + rest;
    }
  }

  /** From the write to the release of the lock. */
  lemma Finish(p: Parser, s: State, t: nat, ok: bool) returns (run: seq<Action>)
    requires t in s.pcs && s.pcs[t].Scanning? && |s.pcs[t].times| == |s.lists.white|
    ensures Valid(p, s, run)
    ensures var s' := Final(p, s, run);
            var pc := s.pcs[t];
            && s'.lists == (if ok || !pc.op.AddWhite? then s.lists
                            else s.lists.(white := s.lists.white[..Max(0, |s.lists.white| - 1)]))
            && s'.file == (if ok then Ranges(pc.ranges) else s.file)
            && s'.log == s.log + [Done(pc.op, pc.at, ok)] && s'.writer == None
  {
    var s1 := Step(p, s, Write(t, ok));
    if ok || !s.pcs[t].op.AddWhite? {
      StepThen(p, s1, Unlock(t), []);
      StepThen(p, s, Write(t, ok), [Unlock(t)] + []);
      run := [Write(t, ok)] + ([Unlock(t)] + []);
    } else {
      var s2 := Step(p, s1, Rollback(t));
      StepThen(p, s2, Unlock(t), []);
      StepThen(p, s1, Rollback(t), [Unlock(t)] + []);
      StepThen(p, s, Write(t, ok), [Rollback(t)] + ([Unlock(t)] + []));
      run := [Write(t, ok)] + ([Rollback(t)] + ([Unlock(t)] + []));
    }
  }

  lemma {:induction false} RunsCompose(p: Parser, s: State, run: seq<Action>, more: seq<Action>)
    requires Valid(p, s, run) && Valid(p, Final(p, s, run), more)
    ensures Valid(p, s, run + more) && Final(p, s, run + more) == Final(p, Final(p, s, run), more)
    decreases run
  {
    if run == [] {
      assert run + more == more;
    } else {
      RunsCompose(p, Step(p, s, run[0]), run[1..], more);
      StepThen(p, s, run[0], run[1..] + more);
      assert run + more == [run[0]] + (run[1..] + more);
    }
  }

  /** The operation's own part, from holding the lock on: what it leaves, and what it writes. */
  ghost predicate Completes(p: Parser, s: State, s': State, op: Op, ok: bool) {
    var wrote := ok && Rewrites(p, s.lists, op, s.now);
    && s'.lists == Effect(p, s.lists, Done(op, s.now, wrote))
    && s'.file == (if wrote then Ranges(Listed(s'.lists.white, Instants(s.now, |s'.lists.white|))) else s.file)
    && s'.log == s.log + [Done(op, s.now, wrote)] && s'.writer == None
  }

  lemma Rewriting(p: Parser, s: State, t: nat, op: Op, ok: bool) returns (run: seq<Action>)
    requires t in s.pcs && s.pcs[t] == Locked(op) && Rewrites(p, s.lists, op, s.now)
    ensures Valid(p, s, run) && Completes(p, s, Final(p, s, run), op, ok)
  {
    var s1 := Step(p, s, Mutate(t));
    assert s1.lists.white[..0] == [] && Instants(s.now, 0) == [];
    var scans, ranges := Scans(p, s1, t, 0);
    var s2 := Final(p, s1, scans);
    var finish := Finish(p, s2, t, ok);
    RunsCompose(p, s1, scans, finish);
    StepThen(p, s, Mutate(t), scans + finish);
    run := [Mutate(t)] + (scans + finish);
    if op.AddWhite? {
      assert s1.lists.white[..|s1.lists.white| - 1] == s.lists.white;
    }
  }

  lemma NotRewriting(p: Parser, s: State, t: nat, op: Op, ok: bool) returns (run: seq<Action>)
    requires t in s.pcs && s.pcs[t] == Locked(op) && !Rewrites(p, s.lists, op, s.now)
    ensures Valid(p, s, run) && Completes(p, s, Final(p, s, run), op, ok)
  {
    var s1 := Step(p, s, Mutate(t));
    StepThen(p, s1, Unlock(t), []);
    StepThen(p, s, Mutate(t), [Unlock(t)] + []);
    run := [Mutate(t)] + ([Unlock(t)] + []);
    if op.RemoveWhite? {
      WithoutAbsent(s.lists.white, op.ip);
    } else if op.Cleanup? {
      NothingExpired(s.lists.white, s.now);
    }
  }

  /**
   From every state in which nobody holds the lock, every operation, whether its file write would succeed or not, is a
   run to its effect: a rewritten file holds the ranges unexpired now, in order, and is rewritten only when a list entry
   was really added, removed or cleaned up and the write succeeds.
   */
  lemma OperationIsARun(p: Parser, s: State, t: nat, op: Op, ok: bool) returns (run: seq<Action>)
    requires t !in s.pcs && s.writer == None && s.readers == {}
    ensures Valid(p, s, run) && Completes(p, s, Final(p, s, run), op, ok)
  {
    var s1 := Step(p, s, Begin(t, Waiting(op)));
    var s2 := Step(p, s1, Lock(t));
    var rest;
    if Rewrites(p, s.lists, op, s.now) {
      rest := Rewriting(p, s2, t, op, ok);
    } else {
      rest := NotRewriting(p, s2, t, op, ok);
    }
    StepThen(p, s1, Lock(t), rest);
    StepThen(p, s, Begin(t, Waiting(op)), [Lock(t)] + rest);
    run := [Begin(t, Waiting(op))] + ([Lock(t)] + rest);
  }

  // ----- Readers -----

  function Remaining(s: State, pc: Pc): nat {
    match pc
    case CheckBlack(_, _, _, i) => Max(0, |s.lists.black| - i) + |s.lists.white| + 2
    case CheckWhite(_, _, _, i) => Max(0, |s.lists.white| - i) + 1
    case Copying(_, copied) => Max(0, |s.lists.white| - |copied|) + 1
    case _ => 0
  }

  /** Looking on, a reader comes to its answer. */
  lemma {:induction false} Looks(p: Parser, s: State, t: nat) returns (run: seq<Action>, pc: Pc)
    requires t in s.pcs && s.pcs[t].Reading()
    ensures Valid(p, s, run) && Final(p, s, run) == At(s, t, pc)
    ensures match s.pcs[t]
            case CheckBlack(ip, ver, from, _) => pc.Answered? && pc == Answered(ip, ver, from, s.now, pc.ok, true)
            case CheckWhite(ip, ver, from, _) => pc.Answered? && pc == Answered(ip, ver, from, s.now, pc.ok, true)
            case Copying(ver, _) => pc.Copied? && pc == Copied(ver, pc.copied, true)
            case _ => pc == s.pcs[t]
    decreases Remaining(s, s.pcs[t])
  {
    if Remaining(s, s.pcs[t]) == 0 {
      run, pc := [], s.pcs[t];
      assert s.pcs[t := pc] == s.pcs;
    } else {
      var s1 := Step(p, s, Look(t));
      if Remaining(s1, s1.pcs[t]) == 0 {
        pc := s1.pcs[t];
        StepThen(p, s, Look(t), []);
        run := [Look(t)] + [];
      } else {
        var rest;
        rest, pc := Looks(p, s1, t);
        StepThen(p, s, Look(t), rest);
        run := [Look(t)] + rest;
        assert s.pcs[t := s1.pcs[t]][t := pc] == s.pcs[t := pc];
      }
    }
  }

  /** What the caller has when it is done: the decision now, or a copy of the whitelist. */
  ghost predicate Told(p: Parser, s: State, asked: Pc, pc: Pc) {
    match asked
    case Asking(ip) => pc.Answered? && (pc.ok <==> AllowedAt(p, s.lists.white, s.lists.black, ip, s.now))
    case Fetching => pc.Copied? && pc.copied == s.lists.white
    case _ => true
  }

  /**
   From every reachable state in which no writer holds the lock, IsAllowed and GetWhitelist are runs to their answers,
   and change nothing.
   */
  lemma QuestionIsARun(p: Parser, s: State, t: nat, asked: Pc) returns (run: seq<Action>)
    requires Inv(p, s) && t !in s.pcs && s.writer == None && (asked.Asking? || asked.Fetching?)
    ensures Valid(p, s, run)
    ensures var s' := Final(p, s, run);
            && s'.lists == s.lists && s'.file == s.file && s'.log == s.log && s'.readers == s.readers
            && t in s'.pcs && Told(p, s, asked, s'.pcs[t])
  {
    var s1 := Step(p, s, Begin(t, asked));
    var s2 := Step(p, s1, RLock(t));
    var looks, pc := Looks(p, s2, t);
    var s3 := Final(p, s2, looks);
    StepThen(p, s3, RUnlock(t), []);
    RunsCompose(p, s2, looks, [RUnlock(t)] + []);
    StepThen(p, s1, RLock(t), looks + ([RUnlock(t)] + []));
    StepThen(p, s, Begin(t, asked), [RLock(t)] + (looks + ([RUnlock(t)] + [])));
    run := [Begin(t, asked)] + ([RLock(t)] + (looks + ([RUnlock(t)] + [])));
    ToldInTheEnd(p, s, s1, s2, s3, t, asked, looks);
    assert s.readers + {t} - {t} == s.readers;
  }

  lemma ToldInTheEnd(p: Parser, s: State, s1: State, s2: State, s3: State, t: nat, asked: Pc, looks: seq<Action>)
    requires Inv(p, s) && t !in s.pcs && s.writer == None && (asked.Asking? || asked.Fetching?)
    requires s1 == Step(p, s, Begin(t, asked)) && s2 == Step(p, s1, RLock(t))
    requires Valid(p, s2, looks) && Final(p, s2, looks) == s3 && t in s3.pcs && s3 == At(s2, t, s3.pcs[t])
    requires match asked
             case Asking(ip) =>
               s3.pcs[t].Answered? && s3.pcs[t] == Answered(ip, |s.versions| - 1, s.now, s.now, s3.pcs[t].ok, true)
             case _ => s3.pcs[t].Copied? && s3.pcs[t] == Copied(|s.versions| - 1, s3.pcs[t].copied, true)
    ensures Told(p, s, asked, s3.pcs[t]) && t !in s.readers
  {
    StepKeeps(p, s, Begin(t, asked));
    StepKeeps(p, s1, RLock(t));
    RunKeeps(p, s2, looks);
    ToldByInv(p, s3, t, asked);
  }

  lemma ToldByInv(p: Parser, s: State, t: nat, asked: Pc)
    requires Inv(p, s) && t in s.pcs && s.writer == None
    requires match asked
             case Asking(ip) =>
               s.pcs[t].Answered? && s.pcs[t] == Answered(ip, |s.versions| - 1, s.now, s.now, s.pcs[t].ok, true)
             case _ => s.pcs[t].Copied? && s.pcs[t] == Copied(|s.versions| - 1, s.pcs[t].copied, true)
    ensures Told(p, s, asked, s.pcs[t])
  {
    assert ReaderInv(p, s, s.pcs[t]);
  }
}
