/**
 The manager under its read-write lock, step by step.  Any number of callers; inside the lock every list access,
 clock reading, file write and rollback is a step of its own, and time passes between steps.
 */
module WhitelistLock {
  import opened Common
  import opened IpRange
  import opened Whitelist

  datatype Pc =
    // writers
    | Waiting(op: Op)
    | Locked(op: Op)
    | Scanning(op: Op, at: int, times: seq<int>, ranges: seq<string>)  // checking entries one by one for the file
    | Undo(op: Op, at: int)                                            // the write failed, the entry is still there
    | Leaving(done: Done)
    // readers; `ver` counts the operations completed when the lock was taken
    | Asking(ip: string)
    | Fetching
    | CheckBlack(ip: string, ver: nat, from: int, i: nat)
    | CheckWhite(ip: string, ver: nat, from: int, i: nat)
    | Copying(ver: nat, copied: seq<IPEntry>)
    | Answered(ip: string, ver: nat, from: int, to: int, ok: bool, held: bool)
    | Copied(ver: nat, copied: seq<IPEntry>, held: bool)
    | Gone
  {
    predicate Writing() {
      Locked? || Scanning? || Undo? || Leaving?
    }
    predicate Reading() {
      CheckBlack? || CheckWhite? || Copying? || (Answered? && held) || (Copied? && held)
    }
    predicate Fresh() {
      Waiting? || Asking? || Fetching?
    }
  }

  /** `versions` and `log` record the lists after each completed operation, and the operations. */
  datatype State = State(now: int, lists: Lists, file: FileContent, writer: Option<nat>, readers: set<nat>,
                         pcs: map<nat, Pc>, versions: seq<Lists>, log: seq<Done>)

  function Init(now: int, lists: Lists, file: FileContent): State {
    State(now, lists, file, None, {}, map[], [lists], [])
  }

  datatype Action =
    | Tick(dt: nat)
    | Begin(t: nat, pc: Pc)
    | Lock(t: nat)
    | Mutate(t: nat)
    | Scan(t: nat)
    | Write(t: nat, ok: bool)
    | Rollback(t: nat)
    | Unlock(t: nat)
    | RLock(t: nat)
    | Look(t: nat)
    | RUnlock(t: nat)

  predicate Enabled(s: State, a: Action) {
    match a
    case Tick(_) => true
    case Begin(t, pc) => t !in s.pcs && pc.Fresh()
    case Lock(t) => t in s.pcs && s.pcs[t].Waiting? && s.writer == None && s.readers == {}
    case Mutate(t) => t in s.pcs && s.pcs[t].Locked?
    case Scan(t) => t in s.pcs && s.pcs[t].Scanning? && |s.pcs[t].times| < |s.lists.white|
    case Write(t, _) => t in s.pcs && s.pcs[t].Scanning? && |s.pcs[t].times| >= |s.lists.white|
    case Rollback(t) => t in s.pcs && s.pcs[t].Undo?
    case Unlock(t) => t in s.pcs && s.pcs[t].Leaving?
    case RLock(t) => t in s.pcs && (s.pcs[t].Asking? || s.pcs[t].Fetching?) && s.writer == None
    case Look(t) => t in s.pcs && (s.pcs[t].CheckBlack? || s.pcs[t].CheckWhite? || s.pcs[t].Copying?)
    case RUnlock(t) => t in s.pcs && ((s.pcs[t].Answered? && s.pcs[t].held) || (s.pcs[t].Copied? && s.pcs[t].held))
  }

  function At(s: State, t: nat, pc: Pc): State {
    s.(pcs := s.pcs[t := pc])
  }

  /** The first step under the write lock: checks, and the change to the list in memory. */
  function Mutated(p: Parser, s: State, t: nat, op: Op): State {
    match op
    case AddWhite(ip, description, actor, expiresAt) =>
      if ParsePattern(p, ip).None? || HasIp(s.lists.white, ip) then At(s, t, Leaving(Done(op, s.now, false)))
      else
        var tentative := s.lists.white + [IPEntry(ip, description, s.now, actor, expiresAt)];
        At(s, t, Scanning(op, s.now, [], [])).(lists := s.lists.(white := tentative))
    case RemoveWhite(ip) =>
      if !HasIp(s.lists.white, ip) then At(s, t, Leaving(Done(op, s.now, false)))
      else At(s, t, Scanning(op, s.now, [], [])).(lists := s.lists.(white := Without(s.lists.white, ip)))
    case AddBlack(_, _, _) =>
      At(s, t, Leaving(Done(op, s.now, false))).(lists := Effect(p, s.lists, Done(op, s.now, false)))
    case RemoveBlack(_) =>
      At(s, t, Leaving(Done(op, s.now, false))).(lists := Effect(p, s.lists, Done(op, s.now, false)))
    case Cleanup =>
      if CountExpired(s.lists.white, s.now) == 0 then At(s, t, Leaving(Done(op, s.now, false)))
      else At(s, t, Scanning(op, s.now, [], [])).(lists := s.lists.(white := Unexpired(s.lists.white, s.now)))
  }

  /** One step of a reader: one entry of one list. */
  function Looked(p: Parser, s: State, pc: Pc): Pc {
    match pc
    case CheckBlack(ip, ver, from, i) =>
      if p.ip(ip).None? then Answered(ip, ver, from, s.now, false, true)
      else if i >= |s.lists.black| then CheckWhite(ip, ver, from, 0)
      else if EntryMatches(p, p.ip(ip).value, s.lists.black[i].ip) then Answered(ip, ver, from, s.now, false, true)
      else CheckBlack(ip, ver, from, i + 1)
    case CheckWhite(ip, ver, from, i) =>
      if p.ip(ip).None? || i >= |s.lists.white| then Answered(ip, ver, from, s.now, false, true)
      else if Expired(s.lists.white[i], s.now) then CheckWhite(ip, ver, from, i + 1)
      else if EntryMatches(p, p.ip(ip).value, s.lists.white[i].ip) then Answered(ip, ver, from, s.now, true, true)
      else CheckWhite(ip, ver, from, i + 1)
    case Copying(ver, copied) =>
      if |copied| >= |s.lists.white| then Copied(ver, copied, true)
      else Copying(ver, copied + [s.lists.white[|copied|]])
    case _ => pc
  }

  function Step(p: Parser, s: State, a: Action): State
    requires Enabled(s, a)
  {
    match a
    case Tick(dt) => s.(now := s.now + dt)
    case Begin(t, pc) => At(s, t, pc)
    case Lock(t) => At(s, t, Locked(s.pcs[t].op)).(writer := Some(t))
    case Mutate(t) => Mutated(p, s, t, s.pcs[t].op)
    case Scan(t) =>
      var pc := s.pcs[t];
      var entry := s.lists.white[|pc.times|];
      var ranges := pc.ranges + if Expired(entry, s.now) then [] else [entry.ip];
      At(s, t, Scanning(pc.op, pc.at, pc.times + [s.now], ranges))
    case Write(t, ok) =>
      var pc := s.pcs[t];
      if ok then At(s, t, Leaving(Done(pc.op, pc.at, true))).(file := Ranges(pc.ranges))
      else if pc.op.AddWhite? then At(s, t, Undo(pc.op, pc.at))
      else At(s, t, Leaving(Done(pc.op, pc.at, false)))
    case Rollback(t) =>
      var n := Max(0, |s.lists.white| - 1);
      At(s, t, Leaving(Done(s.pcs[t].op, s.pcs[t].at, false))).(lists := s.lists.(white := s.lists.white[..n]))
    case Unlock(t) =>
      At(s, t, Gone).(writer := None, versions := s.versions + [s.lists], log := s.log + [s.pcs[t].done])
    case RLock(t) =>
      var ver := Max(0, |s.versions| - 1);
      var pc := if s.pcs[t].Asking? then CheckBlack(s.pcs[t].ip, ver, s.now, 0) else Copying(ver, []);
      At(s, t, pc).(readers := s.readers + {t})
    case Look(t) => At(s, t, Looked(p, s, s.pcs[t]))
    case RUnlock(t) => At(s, t, s.pcs[t].(held := false)).(readers := s.readers - {t})
  }

  // ----- The invariant -----

  predicate History(p: Parser, s: State) {
    && |s.versions| == |s.log| + 1
    && forall k :: 0 <= k < |s.log| ==> s.versions[k + 1] == Effect(p, s.versions[k], s.log[k])
  }

  predicate LockInv(s: State) {
    && (s.writer.Some? ==> s.writer.value in s.pcs && s.readers == {})
    && s.readers <= s.pcs.Keys
    && (forall t :: t in s.pcs ==> (s.pcs[t].Writing() <==> s.writer == Some(t)))
    && (forall t :: t in s.pcs ==> (s.pcs[t].Reading() <==> t in s.readers))
  }

  function Last(s: State): Lists
    requires |s.versions| > 0
  {
    s.versions[|s.versions| - 1]
  }

  /** The file's ranges so far, from the entries checked so far. */
  predicate ScanInv(white: seq<IPEntry>, at: int, now: int, times: seq<int>, ranges: seq<string>) {
    |times| <= |white| && Readings(times, at, now) && ranges == Listed(white[..|times|], times)
  }

  /** What holds while the write lock is held, relative to the last completed operation's lists. */
  predicate WriterInv(p: Parser, s: State, pc: Pc)
    requires |s.versions| > 0
  {
    match pc
    case Locked(op) => s.lists == Last(s) && FileFollows(s.lists.white, s.file, s.now)
    case Scanning(op, at, times, ranges) =>
      && ScanInv(s.lists.white, at, s.now, times, ranges)
      && s.lists == Effect(p, Last(s), Done(op, at, true))
      && FileFollows(Last(s).white, s.file, s.now)
      && (op.AddWhite? || op.RemoveWhite? || op.Cleanup?)
      && (op.AddWhite? ==> s.lists.white != [] && Last(s) == s.lists.(white := s.lists.white[..|s.lists.white| - 1]))
    case Undo(op, at) =>
      && op.AddWhite? && s.lists.white != []
      && Last(s) == s.lists.(white := s.lists.white[..|s.lists.white| - 1])
      && FileFollows(Last(s).white, s.file, s.now)
    case Leaving(done) =>
      s.lists == Effect(p, Last(s), done) && FileFollows(s.lists.white, s.file, s.now)
    case _ => true
  }

  /** What a reader knows about the lists of version `ver`, which are the current ones as long as it holds the lock. */
  predicate ReaderInv(p: Parser, s: State, pc: Pc)
    requires |s.versions| > 0
  {
    match pc
    case CheckBlack(ip, ver, from, i) =>
      && ver == |s.versions| - 1 && from <= s.now && i <= |s.lists.black|
      && (p.ip(ip).Some? ==> !Blacklisted(p, s.lists.black[..i], p.ip(ip).value))
    case CheckWhite(ip, ver, from, i) =>
      && ver == |s.versions| - 1 && from <= s.now && i <= |s.lists.white|
      && p.ip(ip).Some? && !Blacklisted(p, s.lists.black, p.ip(ip).value)
      && (forall j :: 0 <= j < i ==>
            Expired(s.lists.white[j], s.now) || !EntryMatches(p, p.ip(ip).value, s.lists.white[j].ip))
    case Copying(ver, copied) =>
      ver == |s.versions| - 1 && |copied| <= |s.lists.white| && copied == s.lists.white[..|copied|]
    case Answered(ip, ver, from, to, ok, _) =>
      && ver < |s.versions| && from <= to <= s.now
      && (AllowedAt(p, s.versions[ver].white, s.versions[ver].black, ip, to) ==> ok)
      && (ok ==> AllowedAt(p, s.versions[ver].white, s.versions[ver].black, ip, from))
    case Copied(ver, copied, _) => ver < |s.versions| && copied == s.versions[ver].white
    case _ => true
  }

  predicate Inv(p: Parser, s: State) {
    && History(p, s)
    && LockInv(s)
    && (s.writer.None? ==> s.lists == Last(s) && FileFollows(s.lists.white, s.file, s.now))
    && (s.writer.Some? ==> WriterInv(p, s, s.pcs[s.writer.value]))
    && (forall t :: t in s.pcs ==> ReaderInv(p, s, s.pcs[t]))
  }

  lemma TickKeeps(p: Parser, s: State, a: Action)
    requires Inv(p, s) && a.Tick?
    ensures Inv(p, Step(p, s, a))
  {
    var s' := Step(p, s, a);
    if s.writer.None? {
      FileFollowsOn(s.lists.white, s.lists.white, s.file, s.now, s'.now);
    } else {
      var pc := s.pcs[s.writer.value];
      if pc.Locked? || pc.Leaving? {
        FileFollowsOn(s.lists.white, s.lists.white, s.file, s.now, s'.now);
      } else {
        FileFollowsOn(Last(s).white, Last(s).white, s.file, s.now, s'.now);
      }
    }
  }

  /** A step of the writer: no reader is inside, so only its own part of the invariant is at stake. */
  lemma WriterStepKeeps(p: Parser, s: State, s': State, t: nat)
    requires Inv(p, s) && s.writer == Some(t)
    requires t in s'.pcs && s'.pcs == s.pcs[t := s'.pcs[t]] && s'.pcs[t].Writing()
    requires s'.now == s.now && s'.writer == s.writer && s'.readers == s.readers
    requires s'.versions == s.versions && s'.log == s.log
    requires WriterInv(p, s', s'.pcs[t])
    ensures Inv(p, s')
  {
    forall u | u in s'.pcs
      ensures ReaderInv(p, s', s'.pcs[u])
    {
      if u != t {
        assert ReaderInv(p, s, s.pcs[u]) && !s.pcs[u].Reading();
      }
    }
  }

  lemma AddWhiteMutates(p: Parser, s: State, t: nat, op: Op)
    requires |s.versions| > 0 && WriterInv(p, s, Locked(op)) && op.AddWhite?
    ensures var s' := Mutated(p, s, t, op); WriterInv(p, s', s'.pcs[t]) && s'.pcs[t].Writing()
  {
    var s' := Mutated(p, s, t, op);
    if s'.pcs[t].Scanning? {
      assert s'.lists.white[..0] == [];
      assert s'.lists.white[..|s'.lists.white| - 1] == s.lists.white;
    }
  }

  lemma RemoveWhiteMutates(p: Parser, s: State, t: nat, op: Op)
    requires |s.versions| > 0 && WriterInv(p, s, Locked(op)) && op.RemoveWhite?
    ensures var s' := Mutated(p, s, t, op); WriterInv(p, s', s'.pcs[t]) && s'.pcs[t].Writing()
  {
    assert Mutated(p, s, t, op).lists.white[..0] == [];
    if !HasIp(s.lists.white, op.ip) {
      WithoutAbsent(s.lists.white, op.ip);
    }
  }

  lemma CleanupMutates(p: Parser, s: State, t: nat, op: Op)
    requires |s.versions| > 0 && WriterInv(p, s, Locked(op)) && op.Cleanup?
    ensures var s' := Mutated(p, s, t, op); WriterInv(p, s', s'.pcs[t]) && s'.pcs[t].Writing()
  {
    assert Mutated(p, s, t, op).lists.white[..0] == [];
    if CountExpired(s.lists.white, s.now) == 0 {
      NothingExpired(s.lists.white, s.now);
    }
  }

  lemma BlackMutates(p: Parser, s: State, t: nat, op: Op)
    requires |s.versions| > 0 && WriterInv(p, s, Locked(op)) && (op.AddBlack? || op.RemoveBlack?)
    ensures var s' := Mutated(p, s, t, op); WriterInv(p, s', s'.pcs[t]) && s'.pcs[t].Writing()
  {
  }

  lemma MutateKeeps(p: Parser, s: State, a: Action)
    requires Inv(p, s) && a.Mutate? && Enabled(s, a)
    ensures Inv(p, Step(p, s, a))
  {
    var op := s.pcs[a.t].op;
    assert s.writer == Some(a.t);
    match op {
      case AddWhite(_, _, _, _) => AddWhiteMutates(p, s, a.t, op);
      case RemoveWhite(_) => RemoveWhiteMutates(p, s, a.t, op);
      case Cleanup => CleanupMutates(p, s, a.t, op);
      case AddBlack(_, _, _) => BlackMutates(p, s, a.t, op);
      case RemoveBlack(_) => BlackMutates(p, s, a.t, op);
    }
    WriterStepKeeps(p, s, Mutated(p, s, a.t, op), a.t);
  }

  lemma ScanKeeps(p: Parser, s: State, a: Action)
    requires Inv(p, s) && a.Scan? && Enabled(s, a)
    ensures Inv(p, Step(p, s, a))
  {
    assert s.writer == Some(a.t);
    var pc := s.pcs[a.t];
    ScanNext(s.lists.white, pc.at, s.now, pc.times, pc.ranges);
    WriterStepKeeps(p, s, Step(p, s, a), a.t);
  }

  lemma ScanNext(white: seq<IPEntry>, at: int, now: int, times: seq<int>, ranges: seq<string>)
    requires ScanInv(white, at, now, times, ranges) && |times| < |white|
    ensures ScanInv(white, at, now, times + [now],
                    ranges + if Expired(white[|times|], now) then [] else [white[|times|].ip])
  {
    ListedNext(white, times, |times|, now);
  }

  lemma WriteKeeps(p: Parser, s: State, a: Action)
    requires Inv(p, s) && a.Write? && Enabled(s, a)
    ensures Inv(p, Step(p, s, a))
    ensures a.ok ==> var times := s.pcs[a.t].times;
                     |times| == |s.lists.white| && Readings(times, s.pcs[a.t].at, s.now)
                     && Step(p, s, a).file == Ranges(Listed(s.lists.white, times))
  {
    var pc := s.pcs[a.t];
    assert s.writer == Some(a.t);
    assert s.lists.white[..|pc.times|] == s.lists.white;
    WithoutKeepsTheRest(Last(s).white, if pc.op.RemoveWhite? then pc.op.ip else "");
    UnexpiredKeepsOrder(Last(s).white, pc.at);
    if a.ok {
      WrittenFileFollows(s.lists.white, pc.times, pc.at, s.now);
    } else if !pc.op.AddWhite? {
      FileFollowsOn(Last(s).white, s.lists.white, s.file, s.now, s.now);
    }
    WriterStepKeeps(p, s, Step(p, s, a), a.t);
  }

  lemma RollbackKeeps(p: Parser, s: State, a: Action)
    requires Inv(p, s) && a.Rollback? && Enabled(s, a)
    ensures Inv(p, Step(p, s, a))
  {
    assert s.writer == Some(a.t);
    WriterStepKeeps(p, s, Step(p, s, a), a.t);
  }

  lemma UnlockKeeps(p: Parser, s: State, a: Action)
    requires Inv(p, s) && a.Unlock? && Enabled(s, a)
    ensures Inv(p, Step(p, s, a))
  {
    var s' := Step(p, s, a);
    assert s.writer == Some(a.t);
    forall u | u in s'.pcs
      ensures ReaderInv(p, s', s'.pcs[u])
    {
      if u != a.t {
        assert ReaderInv(p, s, s.pcs[u]) && !s.pcs[u].Reading();
      }
    }
  }

  /** A step that moves one caller that is not the writer, in or out of the read lock or within it. */
  lemma ReaderMoveKeeps(p: Parser, s: State, s': State, t: nat)
    requires Inv(p, s) && t in s'.pcs && s' == s.(pcs := s.pcs[t := s'.pcs[t]], readers := s'.readers)
    requires t in s.pcs ==> !s.pcs[t].Writing()
    requires !s'.pcs[t].Writing()
    requires if s'.pcs[t].Reading() then s.writer == None && s'.readers == s.readers + {t}
             else s'.readers == s.readers - {t}
    requires ReaderInv(p, s, s'.pcs[t])
    ensures Inv(p, s')
  {
    forall u | u in s'.pcs
      ensures ReaderInv(p, s', s'.pcs[u])
    {
      if u != t {
        assert ReaderInv(p, s, s.pcs[u]);
      }
    }
  }

  lemma BlackLooked(p: Parser, s: State, pc: Pc)
    requires Inv(p, s) && s.writer == None && pc.CheckBlack? && ReaderInv(p, s, pc)
    ensures ReaderInv(p, s, Looked(p, s, pc))
  {
    assert s.lists.black[..|s.lists.black|] == s.lists.black;
  }

  lemma WhiteLooked(p: Parser, s: State, pc: Pc)
    requires Inv(p, s) && s.writer == None && pc.CheckWhite? && ReaderInv(p, s, pc)
    ensures ReaderInv(p, s, Looked(p, s, pc))
  {
    if pc.i < |s.lists.white| && !Expired(s.lists.white[pc.i], s.now) {
      assert !Expired(s.lists.white[pc.i], pc.from);
    }
  }

  lemma CopyLooked(p: Parser, s: State, pc: Pc)
    requires Inv(p, s) && s.writer == None && pc.Copying? && ReaderInv(p, s, pc)
    ensures ReaderInv(p, s, Looked(p, s, pc))
  {
    assert s.lists.white[..|s.lists.white|] == s.lists.white;
  }

  lemma LookKeeps(p: Parser, s: State, a: Action)
    requires Inv(p, s) && a.Look? && Enabled(s, a)
    ensures Inv(p, Step(p, s, a))
  {
    var pc := s.pcs[a.t];
    assert a.t in s.readers && s.writer == None;
    assert ReaderInv(p, s, pc);
    match pc {
      case CheckBlack(_, _, _, _) => BlackLooked(p, s, pc);
      case CheckWhite(_, _, _, _) => WhiteLooked(p, s, pc);
      case Copying(_, _) => CopyLooked(p, s, pc);
    }
    assert s.readers == s.readers + {a.t};
    ReaderMoveKeeps(p, s, Step(p, s, a), a.t);
  }

  lemma RLockKeeps(p: Parser, s: State, a: Action)
    requires Inv(p, s) && a.RLock? && Enabled(s, a)
    ensures Inv(p, Step(p, s, a))
  {
    assert s.lists.black[..0] == [] && s.lists.white[..0] == [];
    ReaderMoveKeeps(p, s, Step(p, s, a), a.t);
  }

  lemma RUnlockKeeps(p: Parser, s: State, a: Action)
    requires Inv(p, s) && a.RUnlock? && Enabled(s, a)
    ensures Inv(p, Step(p, s, a))
  {
    assert ReaderInv(p, s, s.pcs[a.t]);
    ReaderMoveKeeps(p, s, Step(p, s, a), a.t);
  }

  lemma BeginKeeps(p: Parser, s: State, a: Action)
    requires Inv(p, s) && a.Begin? && Enabled(s, a)
    ensures Inv(p, Step(p, s, a))
  {
    assert s.readers == s.readers - {a.t};
    ReaderMoveKeeps(p, s, Step(p, s, a), a.t);
  }

  lemma LockKeeps(p: Parser, s: State, a: Action)
    requires Inv(p, s) && a.Lock? && Enabled(s, a)
    ensures Inv(p, Step(p, s, a))
  {
    var s' := Step(p, s, a);
    forall u | u in s'.pcs
      ensures ReaderInv(p, s', s'.pcs[u])
    {
      if u != a.t {
        assert ReaderInv(p, s, s.pcs[u]);
      }
    }
  }

  lemma StepKeeps(p: Parser, s: State, a: Action)
    requires Inv(p, s) && Enabled(s, a)
    ensures Inv(p, Step(p, s, a))
  {
    match a
    case Tick(_) => TickKeeps(p, s, a);
    case Begin(_, _) => BeginKeeps(p, s, a);
    case Lock(_) => LockKeeps(p, s, a);
    case Mutate(_) => MutateKeeps(p, s, a);
    case Scan(_) => ScanKeeps(p, s, a);
    case Write(_, _) => WriteKeeps(p, s, a);
    case Rollback(_) => RollbackKeeps(p, s, a);
    case Unlock(_) => UnlockKeeps(p, s, a);
    case RLock(_) => RLockKeeps(p, s, a);
    case Look(_) => LookKeeps(p, s, a);
    case RUnlock(_) => RUnlockKeeps(p, s, a);
  }

  predicate Valid(p: Parser, s: State, run: seq<Action>)
    decreases run
  {
    run == [] || (Enabled(s, run[0]) && Valid(p, Step(p, s, run[0]), run[1..]))
  }

  function Final(p: Parser, s: State, run: seq<Action>): State
    requires Valid(p, s, run)
    decreases run
  {
    if run == [] then s else Final(p, Step(p, s, run[0]), run[1..])
  }

  lemma {:induction false} RunKeeps(p: Parser, s: State, run: seq<Action>)
    requires Inv(p, s) && Valid(p, s, run)
    ensures Inv(p, Final(p, s, run))
    decreases run
  {
    if run != [] {
      StepKeeps(p, s, run[0]);
      RunKeeps(p, Step(p, s, run[0]), run[1..]);
    }
  }

  // ----- What callers can rely on -----

  predicate Started(s: State, now: int, lists: Lists, file: FileContent) {
    s == Init(now, lists, file) && FileFollows(lists.white, file, now)
  }

  /**
   On every run: while any reader is inside, the lists are those left by the completed operations, so no reader
   sees a tentative entry; and the file lists every unexpired whitelist entry whenever no writer is inside.
   */
  lemma ReadersSeeOnlyCompleted(p: Parser, s: State, run: seq<Action>, now: int, lists: Lists, file: FileContent)
    requires Started(s, now, lists, file) && Valid(p, s, run)
    ensures var s' := Final(p, s, run);
            && History(p, s')
            && (s'.readers != {} ==> s'.writer == None)
            && (s'.writer == None ==> s'.lists == Last(s') && FileFollows(s'.lists.white, s'.file, s'.now))
  {
    RunKeeps(p, s, run);
  }

  lemma {:induction false} VersionIsReplay(p: Parser, s: State, k: nat)
    requires History(p, s) && k < |s.versions|
    ensures s.versions[k] == Replay(p, s.versions[0], s.log[..k])
  {
    if k > 0 {
      VersionIsReplay(p, s, k - 1);
      assert s.log[..k][..k - 1] == s.log[..k - 1];
    }
  }

  lemma {:induction false} VersionsOnlyGrow(p: Parser, s: State, run: seq<Action>)
    requires |s.versions| > 0 && Valid(p, s, run)
    ensures |Final(p, s, run).versions| > 0 && Final(p, s, run).versions[0] == s.versions[0]
    decreases run
  {
    if run != [] {
      VersionsOnlyGrow(p, Step(p, s, run[0]), run[1..]);
    }
  }

  /** The answer was taken on the lists that a prefix of the completed operations leaves. */
  predicate AnswerOnPrefix(p: Parser, s: State, lists: Lists, pc: Pc) {
    match pc
    case Answered(ip, ver, from, to, ok, _) =>
      && ver <= |s.log| && from <= to <= s.now
      && var l := Replay(p, lists, s.log[..ver]);
         && (AllowedAt(p, l.white, l.black, ip, to) ==> ok)
         && (ok ==> AllowedAt(p, l.white, l.black, ip, from))
    case Copied(ver, copied, _) => ver <= |s.log| && copied == Replay(p, lists, s.log[..ver]).white
    case _ => true
  }

  /**
   Every answer is taken on the lists that some prefix of the completed operations leaves: GetWhitelist returns
   that whitelist, and IsAllowed's answer lies between its decisions at the end and at the start of the call.
   */
  lemma AnswersAreOnCompletedLists(p: Parser, s: State, run: seq<Action>,
                                   now: int, lists: Lists, file: FileContent, t: nat)
    requires Started(s, now, lists, file) && Valid(p, s, run) && t in Final(p, s, run).pcs
    ensures AnswerOnPrefix(p, Final(p, s, run), lists, Final(p, s, run).pcs[t])
  {
    RunKeeps(p, s, run);
    VersionsOnlyGrow(p, s, run);
    AnswerOfInv(p, Final(p, s, run), t);
  }

  lemma AnswerOfInv(p: Parser, s: State, t: nat)
    requires Inv(p, s) && t in s.pcs
    ensures AnswerOnPrefix(p, s, s.versions[0], s.pcs[t])
  {
    var pc := s.pcs[t];
    assert ReaderInv(p, s, pc);
    if pc.Answered? || pc.Copied? {
      VersionIsReplay(p, s, pc.ver);
    }
  }

  /** A reader at or past the lock has seen at least the first `k` operations. */
  predicate SeesAtLeast(s: State, t: nat, k: nat) {
    t in s.pcs ==>
      match s.pcs[t]
      case CheckBlack(_, ver, _, _) => k <= ver
      case CheckWhite(_, ver, _, _) => k <= ver
      case Copying(ver, _) => k <= ver
      case Answered(_, ver, _, _, _, _) => k <= ver
      case Copied(ver, _, _) => k <= ver
      case _ => true
  }

  lemma StepKeepsSeen(p: Parser, s: State, a: Action, t: nat, k: nat)
    requires SeesAtLeast(s, t, k) && |s.versions| == |s.log| + 1 && k <= |s.log| && Enabled(s, a)
    ensures var s' := Step(p, s, a); SeesAtLeast(s', t, k) && |s'.versions| == |s'.log| + 1 && s.log <= s'.log
  {
  }

  lemma {:induction false} RunKeepsSeen(p: Parser, s: State, run: seq<Action>, t: nat, k: nat)
    requires SeesAtLeast(s, t, k) && |s.versions| == |s.log| + 1 && k <= |s.log| && Valid(p, s, run)
    ensures SeesAtLeast(Final(p, s, run), t, k) && s.log <= Final(p, s, run).log
    decreases run
  {
    if run != [] {
      StepKeepsSeen(p, s, run[0], t, k);
      RunKeepsSeen(p, Step(p, s, run[0]), run[1..], t, k);
    }
  }

  /** The operations that an answer has seen; none for a caller without an answer yet. */
  function Seen(s: State, pc: Pc): seq<Done> {
    match pc
    case Answered(_, ver, _, _, _, _) => s.log[..Min(ver, |s.log|)]
    case Copied(ver, _, _) => s.log[..Min(ver, |s.log|)]
    case _ => s.log
  }

  /**
   And the answer is never stale: an operation that completed before the caller took the read lock is among those
   its answer has seen, so a completed removal is not missed by a later call.
   */
  lemma AnswersAreFresh(p: Parser, s: State, before: seq<Action>, after: seq<Action>,
                        now: int, lists: Lists, file: FileContent, t: nat)
    requires Started(s, now, lists, file) && Valid(p, s, before) && Valid(p, Final(p, s, before), after)
    requires t in Final(p, s, before).pcs ==> Final(p, s, before).pcs[t].Fresh()
    requires t in Final(p, Final(p, s, before), after).pcs
    ensures var s' := Final(p, Final(p, s, before), after);
            && Final(p, s, before).log <= Seen(s', s'.pcs[t])
            && AnswerOnPrefix(p, s', lists, s'.pcs[t])
  {
    var mid := Final(p, s, before);
    RunKeeps(p, s, before);
    RunKeeps(p, mid, after);
    VersionsOnlyGrow(p, s, before);
    VersionsOnlyGrow(p, mid, after);
    AnswerOfInv(p, Final(p, mid, after), t);
    RunKeepsSeen(p, mid, after, t, |mid.log|);
  }

  /** After any successful write the file is exactly the entries unexpired at their own check, in the list's order. */
  lemma WrittenFileIsExact(p: Parser, s: State, run: seq<Action>, now: int, lists: Lists, file: FileContent, t: nat)
    requires Started(s, now, lists, file) && Valid(p, s, run)
    requires Enabled(Final(p, s, run), Write(t, true))
    ensures var s' := Final(p, s, run);
            var times := s'.pcs[t].times;
            |times| == |s'.lists.white| && Readings(times, s'.pcs[t].at, s'.now)
            && Step(p, s', Write(t, true)).file == Ranges(Listed(s'.lists.white, times))
  {
    RunKeeps(p, s, run);
    WriteKeeps(p, Final(p, s, run), Write(t, true));
  }
}
