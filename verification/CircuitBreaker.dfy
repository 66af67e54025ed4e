/**
 Calls through the circuit breaker that their callers may abandon: a goroutine runs the breaker and sends its
 result into a channel of capacity one, while the caller selects between that channel and its context.
 The breaker itself accepts or rejects as it likes and records one outcome for each function it lets run; it clears
 its counts whenever it starts a new generation, and an outcome of an older generation is recorded without counting.
 */
module CircuitBreaker {
  import opened Common

  datatype Result = Success(data: string) | Failure(error: string)

  datatype Caller = Selecting | GotContextError | GotResult(result: Result)

  datatype Worker =
    | NotLaunched                 // the context was already done at entry
    | Spawned                     // the goroutine has not reached the breaker's decision
    | Executing                   // the function runs
    | Rejected(result: Result)    // about to send the breaker's own error
    | Executed(result: Result)    // about to send the function's result
    | Exited

  /**
   `generation` is the breaker's when it accepted the call.  `runs` and `outcome` are history: how often the function
   started, and what Execute returned.
   */
  datatype Call = Call(ctxDone: bool, caller: Caller, worker: Worker, channel: Option<Result>,
                       generation: nat, runs: nat, outcome: Option<Result>)

  datatype Event =
    | Recorded(id: nat, success: bool, counted: bool)  // a call's outcome reaches the breaker
    | Cleared                                          // a new generation begins

  /** `log` lists what happened to the breaker's counts, `rejected` counts the calls it turned away. */
  datatype State = State(calls: map<nat, Call>, launched: nat, rejected: nat, generation: nat, log: seq<Event>)

  function Init(): State {
    State(map[], 0, 0, 0, [])
  }

  datatype Action =
    | Enter(id: nat, ctxDone: bool)
    | Cancel(id: nat)
    | Reject(id: nat, error: string)
    | Accept(id: nat)
    | Return(id: nat, result: Result)   // the function returns and the breaker records the outcome
    | Send(id: nat)
    | TakeResult(id: nat)               // the two arms of the select
    | TakeContext(id: nat)
    | Clear                             // an interval ends or the breaker changes state

  predicate Enabled(s: State, a: Action) {
    match a
    case Enter(id, _) => id !in s.calls
    case Cancel(id) => id in s.calls
    case Reject(id, _) => id in s.calls && s.calls[id].worker.Spawned?
    case Accept(id) => id in s.calls && s.calls[id].worker.Spawned?
    case Return(id, _) => id in s.calls && s.calls[id].worker.Executing?
    case Send(id) =>
      // a send into a full channel would block
      id in s.calls && (s.calls[id].worker.Rejected? || s.calls[id].worker.Executed?) && s.calls[id].channel.None?
    case TakeResult(id) => id in s.calls && s.calls[id].caller.Selecting? && s.calls[id].channel.Some?
    case TakeContext(id) => id in s.calls && s.calls[id].caller.Selecting? && s.calls[id].ctxDone
    case Clear => true
  }

  function With(s: State, id: nat, call: Call): State {
    s.(calls := s.calls[id := call])
  }

  function Step(s: State, a: Action): State
    requires Enabled(s, a)
  {
    match a
    case Enter(id, done) =>
      if done then With(s, id, Call(true, GotContextError, NotLaunched, None, 0, 0, None))
      else With(s, id, Call(false, Selecting, Spawned, None, 0, 0, None)).(launched := s.launched + 1)
    case Cancel(id) => With(s, id, s.calls[id].(ctxDone := true))
    case Reject(id, error) =>
      With(s, id, s.calls[id].(worker := Rejected(Failure(error)), outcome := Some(Failure(error)))).(
        rejected := s.rejected + 1)
    case Accept(id) =>
      With(s, id, s.calls[id].(worker := Executing, generation := s.generation, runs := s.calls[id].runs + 1))
    case Return(id, r) =>
      With(s, id, s.calls[id].(worker := Executed(r), outcome := Some(r))).(
        log := s.log + [Recorded(id, r.Success?, s.calls[id].generation == s.generation)])
    case Send(id) => With(s, id, s.calls[id].(worker := Exited, channel := Some(s.calls[id].worker.result)))
    case TakeResult(id) => With(s, id, s.calls[id].(caller := GotResult(s.calls[id].channel.value), channel := None))
    case TakeContext(id) => With(s, id, s.calls[id].(caller := GotContextError))
    case Clear => s.(generation := s.generation + 1, log := s.log + [Cleared])
  }

  predicate Valid(s: State, run: seq<Action>)
    decreases run
  {
    run == [] || (Enabled(s, run[0]) && Valid(Step(s, run[0]), run[1..]))
  }

  function Final(s: State, run: seq<Action>): State
    requires Valid(s, run)
    decreases run
  {
    if run == [] then s else Final(Step(s, run[0]), run[1..])
  }

  // ----- One call -----

  predicate CallInv(call: Call) {
    && (call.worker.NotLaunched? ==>
          && call.caller.GotContextError? && call.ctxDone
          && call.runs == 0 && call.channel.None? && call.outcome.None?)
    && (call.worker.Spawned? ==> call.runs == 0 && call.channel.None? && call.outcome.None?)
    && (call.worker.Executing? ==> call.runs == 1 && call.channel.None? && call.outcome.None?)
    && (call.worker.Rejected? ==> call.runs == 0 && call.channel.None? && call.outcome == Some(call.worker.result))
    && (call.worker.Executed? ==> call.runs == 1 && call.channel.None? && call.outcome == Some(call.worker.result))
    && (call.worker.Exited? ==> call.outcome.Some?)
    && (call.channel.Some? ==> call.channel == call.outcome)
    && (call.caller.GotResult? ==> call.worker.Exited? && call.outcome == Some(call.caller.result))
    && (call.caller.GotContextError? ==> call.ctxDone)
    && call.runs <= 1
  }

  /** The call's function ran to its end. */
  predicate Finished(call: Call) {
    call.runs == 1 && call.outcome.Some?
  }

  predicate IsFor(e: Event, id: nat) {
    e.Recorded? && e.id == id
  }

  /** How often the outcome of call `id` was recorded. */
  function Tally(log: seq<Event>, id: nat): nat {
    if log == [] then 0
    else Tally(log[..|log| - 1], id) + if IsFor(log[|log| - 1], id) then 1 else 0
  }

  function Recordings(log: seq<Event>): nat {
    if log == [] then 0
    else Recordings(log[..|log| - 1]) + if log[|log| - 1].Recorded? then 1 else 0
  }

  function Clears(log: seq<Event>): nat {
    if log == [] then 0
    else Clears(log[..|log| - 1]) + if log[|log| - 1].Cleared? then 1 else 0
  }

  /**
   What the log says of call `id`: the outcome it had, counted if the breaker was still in the generation that accepted
   it.
   */
  predicate EntryInv(s: State, id: nat, k: nat)
    requires k < |s.log|
  {
    IsFor(s.log[k], id) ==>
      && id in s.calls && s.calls[id].outcome.Some? && s.log[k].success == s.calls[id].outcome.value.Success?
      && s.log[k].counted == (s.calls[id].generation == Clears(s.log[..k]))
  }

  /** The log has one entry for a call whose function finished, and none for any other. */
  predicate RecordInv(s: State, id: nat) {
    && s.generation == Clears(s.log)
    && (id !in s.calls ==> Tally(s.log, id) == 0)
    && (id in s.calls ==>
          && CallInv(s.calls[id])
          && Tally(s.log, id) == (if Finished(s.calls[id]) then 1 else 0))
    && (forall k :: 0 <= k < |s.log| ==> EntryInv(s, id, k))
  }

  lemma LogNext(log: seq<Event>, e: Event, id: nat)
    ensures Tally(log + [e], id) == Tally(log, id) + if IsFor(e, id) then 1 else 0
    ensures Recordings(log + [e]) == Recordings(log) + if e.Recorded? then 1 else 0
    ensures Clears(log + [e]) == Clears(log) + if e.Cleared? then 1 else 0
    ensures forall k :: 0 <= k <= |log| ==> (log + [e])[..k] == log[..k]
  {
    assert (log + [e])[..|log|] == log;
  }

  lemma {:induction false} TallyZero(log: seq<Event>, id: nat)
    ensures Tally(log, id) == 0 ==> forall k :: 0 <= k < |log| ==> !IsFor(log[k], id)
  {
    if log != [] {
      TallyZero(log[..|log| - 1], id);
    }
  }

  lemma EntriesKept(s: State, s': State, id: nat)
    requires RecordInv(s, id) && |s.log| <= |s'.log| && s'.log[..|s.log|] == s.log
    requires Tally(s.log, id) > 0 ==> id in s.calls && id in s'.calls && s'.calls[id].outcome == s.calls[id].outcome
                                      && s'.calls[id].generation == s.calls[id].generation
    ensures forall k :: 0 <= k < |s.log| ==> EntryInv(s', id, k)
  {
    TallyZero(s.log, id);
    forall k | 0 <= k < |s.log|
      ensures EntryInv(s', id, k)
    {
      assert EntryInv(s, id, k);
      assert s'.log[k] == s'.log[..|s.log|][k];
      assert s'.log[..k] == s'.log[..|s.log|][..k];
    }
  }

  lemma ReturnKeepsRecord(s: State, a: Action, id: nat)
    requires RecordInv(s, id) && Enabled(s, a) && a.Return?
    ensures RecordInv(Step(s, a), id)
  {
    var s' := Step(s, a);
    LogNext(s.log, s'.log[|s.log|], id);
    assert s'.log[..|s.log|] == s.log;
    EntriesKept(s, s', id);
    assert EntryInv(s', id, |s.log|);
  }

  lemma StepKeepsRecord(s: State, a: Action, id: nat)
    requires RecordInv(s, id) && Enabled(s, a)
    ensures RecordInv(Step(s, a), id)
  {
    match a
    case Return(_, _) => ReturnKeepsRecord(s, a, id);
    case Clear => ClearKeepsRecord(s, id);
    case _ => CallMoveKeepsRecord(s, a, id);
  }

  lemma ClearKeepsRecord(s: State, id: nat)
    requires RecordInv(s, id)
    ensures RecordInv(Step(s, Clear), id)
  {
    var s' := Step(s, Clear);
    LogNext(s.log, Cleared, id);
    assert s'.log[..|s.log|] == s.log;
    EntriesKept(s, s', id);
  }

  /** A step of one call that reports nothing to the breaker. */
  lemma CallStep(s: State, a: Action)
    requires Enabled(s, a) && !a.Return? && !a.Clear? && (a.id in s.calls ==> CallInv(s.calls[a.id]))
    ensures var s' := Step(s, a);
            && s'.calls == s.calls[a.id := s'.calls[a.id]] && s'.log == s.log && s'.generation == s.generation
            && CallInv(s'.calls[a.id])
            && (Finished(s'.calls[a.id]) <==> a.id in s.calls && Finished(s.calls[a.id]))
            && (Finished(s'.calls[a.id]) ==>
                  && s'.calls[a.id].outcome == s.calls[a.id].outcome
                  && s'.calls[a.id].generation == s.calls[a.id].generation)
  {
  }

  lemma CallMoveKeepsRecord(s: State, a: Action, id: nat)
    requires RecordInv(s, id) && Enabled(s, a) && !a.Return? && !a.Clear?
    ensures RecordInv(Step(s, a), id)
  {
    if a.id == id {
      CallStep(s, a);
    }
    EntriesKept(s, Step(s, a), id);
  }

  lemma {:induction false} RunKeepsRecord(s: State, run: seq<Action>, id: nat)
    requires RecordInv(s, id) && Valid(s, run)
    ensures RecordInv(Final(s, run), id)
    decreases run
  {
    if run != [] {
      StepKeepsRecord(s, run[0], id);
      RunKeepsRecord(Step(s, run[0]), run[1..], id);
    }
  }

  /**
   For any number of calls and cancellations: a call's function runs at most once; if it finishes, its outcome is in
   the breaker's log exactly once, whether or not the caller stayed; if not, never.  It counts if no new generation
   began since the call was accepted.  What the caller has is its own call's result, or the context's error after the
   context was done.
   */
  lemma EachCallIsRecordedOnce(run: seq<Action>, id: nat)
    requires Valid(Init(), run) && id in Final(Init(), run).calls
    ensures var s := Final(Init(), run);
            var call := s.calls[id];
            && call.runs <= 1
            && Tally(s.log, id) == (if Finished(call) then 1 else 0)
            && (call.caller.GotResult? ==> Some(call.caller.result) == call.outcome)
            && (call.caller.GotContextError? ==> call.ctxDone)
            && (forall k :: 0 <= k < |s.log| ==> EntryInv(s, id, k))
  {
    RunKeepsRecord(Init(), run, id);
  }

  /** The goroutine is never stuck: when it has a result, the channel has room, whatever the caller did. */
  lemma SenderNeverBlocks(run: seq<Action>, id: nat)
    requires Valid(Init(), run) && id in Final(Init(), run).calls
    requires var w := Final(Init(), run).calls[id].worker; w.Rejected? || w.Executed?
    ensures Enabled(Final(Init(), run), Send(id))
  {
    RunKeepsRecord(Init(), run, id);
  }

  /** Nor is a caller that stays: once its goroutine has exited, its result is waiting. */
  lemma PatientCallerGetsResult(run: seq<Action>, id: nat)
    requires Valid(Init(), run) && id in Final(Init(), run).calls
    requires var call := Final(Init(), run).calls[id]; call.worker.Exited? && call.caller.Selecting?
    ensures Enabled(Final(Init(), run), TakeResult(id))
    ensures var outcome := Final(Init(), run).calls[id].outcome;
            outcome.Some? && Step(Final(Init(), run), TakeResult(id)).calls[id].caller == GotResult(outcome.value)
  {
    RunKeepsDelivery(Init(), run, id);
    RunKeepsRecord(Init(), run, id);
  }

  predicate Delivery(s: State, id: nat) {
    id in s.calls && s.calls[id].worker.Exited? ==> s.calls[id].channel.Some? || s.calls[id].caller.GotResult?
  }

  lemma {:induction false} RunKeepsDelivery(s: State, run: seq<Action>, id: nat)
    requires Delivery(s, id) && Valid(s, run)
    ensures Delivery(Final(s, run), id)
    decreases run
  {
    if run != [] {
      RunKeepsDelivery(Step(s, run[0]), run[1..], id);
    }
  }

  // ----- All calls -----

  function InFlight(s: State): set<nat> {
    set id | id in s.calls && Flying(s.calls[id])
  }

  predicate Conserved(s: State) {
    s.launched == s.rejected + Recordings(s.log) + |InFlight(s)|
  }

  predicate Flying(call: Call) {
    call.worker.Spawned? || call.worker.Executing?
  }

  lemma InFlightAfter(s: State, id: nat, call: Call)
    ensures var before, after := InFlight(s), InFlight(With(s, id, call));
            |after| == |before| + (if Flying(call) then 1 else 0)
                                - (if id in s.calls && Flying(s.calls[id]) then 1 else 0)
  {
    var before, after := InFlight(s), InFlight(With(s, id, call));
    assert after == if Flying(call) then before + {id} else before - {id};
  }

  lemma InFlightStep(s: State, a: Action)
    requires Enabled(s, a) && !a.Clear?
    ensures var call := Step(s, a).calls[a.id];
            |InFlight(Step(s, a))| == |InFlight(s)| + (if Flying(call) then 1 else 0)
                                                    - (if a.id in s.calls && Flying(s.calls[a.id]) then 1 else 0)
  {
    var s' := Step(s, a);
    assert s'.calls == s.calls[a.id := s'.calls[a.id]];
    InFlightAfter(s, a.id, s'.calls[a.id]);
    assert InFlight(s') == InFlight(With(s, a.id, s'.calls[a.id]));
  }

  lemma StepConserves(s: State, a: Action)
    requires Conserved(s) && Enabled(s, a)
    ensures Conserved(Step(s, a))
  {
    match a
    case Clear =>
      LogNext(s.log, Cleared, 0);
      assert InFlight(Step(s, a)) == InFlight(s);
    case Return(id, _) =>
      LogNext(s.log, Step(s, a).log[|s.log|], 0);
      InFlightStep(s, a);
    case _ => InFlightStep(s, a);
  }

  /** Launched goroutines are those rejected, those recorded and those in flight, at every moment of every run. */
  lemma {:induction false} RunConserves(s: State, run: seq<Action>)
    requires Conserved(s) && Valid(s, run)
    ensures Conserved(Final(s, run))
    decreases run
  {
    if run != [] {
      StepConserves(s, run[0]);
      RunConserves(Step(s, run[0]), run[1..]);
    }
  }

  lemma NothingIsLost(run: seq<Action>)
    requires Valid(Init(), run)
    ensures var s := Final(Init(), run); s.launched == s.rejected + Recordings(s.log) + |InFlight(s)|
  {
    assert InFlight(Init()) == {};
    RunConserves(Init(), run);
  }

  // ----- What callers and the log say, told by what happened in the run -----

  /** The run decides the call this way: its function returned `r`, or the breaker turned it away with that error. */
  predicate Decided(run: seq<Action>, id: nat, r: Result) {
    Return(id, r) in run || (r.Failure? && Reject(id, r.error) in run)
  }

  predicate HasOutcome(s: State, id: nat, r: Result) {
    id in s.calls && s.calls[id].outcome == Some(r)
  }

  predicate HasResult(s: State, id: nat, r: Result) {
    id in s.calls && s.calls[id].caller == GotResult(r)
  }

  predicate HasContextError(s: State, id: nat) {
    id in s.calls && s.calls[id].caller.GotContextError?
  }

  predicate HasRecord(s: State, id: nat, ok: bool) {
    exists k :: 0 <= k < |s.log| && IsFor(s.log[k], id) && s.log[k].success == ok
  }

  predicate HasRun(s: State, id: nat) {
    id in s.calls && s.calls[id].runs == 1
  }

  /** What one step adds to each of these. */
  lemma StepDecides(s: State, a: Action, id: nat, r: Result)
    requires RecordInv(s, id) && Enabled(s, a)
    ensures HasOutcome(Step(s, a), id, r) <==> HasOutcome(s, id, r) || Decided([a], id, r)
    ensures HasRun(Step(s, a), id) <==> HasRun(s, id) || a == Accept(id)
    ensures HasContextError(Step(s, a), id) <==> HasContextError(s, id) || a == TakeContext(id) || a == Enter(id, true)
    ensures HasResult(Step(s, a), id, r) <==> HasResult(s, id, r) || (a == TakeResult(id) && HasOutcome(s, id, r))
  {
  }

  lemma StepRecords(s: State, a: Action, id: nat, ok: bool)
    requires Enabled(s, a)
    ensures HasRecord(Step(s, a), id, ok) <==>
              HasRecord(s, id, ok) || (a.Return? && a.id == id && a.result.Success? == ok)
  {
    var s' := Step(s, a);
    assert s.log <= s'.log;
    if HasRecord(s, id, ok) {
      var k :| 0 <= k < |s.log| && IsFor(s.log[k], id) && s.log[k].success == ok;
      assert s'.log[k] == s.log[k];
    }
    if a.Return? {
      assert s'.log[|s.log|].Recorded?;
    }
  }

  lemma {:induction false} RunDecides(s: State, run: seq<Action>, id: nat, r: Result)
    requires RecordInv(s, id) && Valid(s, run)
    ensures HasOutcome(Final(s, run), id, r) <==> HasOutcome(s, id, r) || Decided(run, id, r)
    ensures HasRun(Final(s, run), id) <==> HasRun(s, id) || Accept(id) in run
    ensures HasContextError(Final(s, run), id) <==>
              HasContextError(s, id) || TakeContext(id) in run || Enter(id, true) in run
    decreases run
  {
    if run != [] {
      StepDecides(s, run[0], id, r);
      StepKeepsRecord(s, run[0], id);
      RunDecides(Step(s, run[0]), run[1..], id, r);
      assert run == [run[0]] + run[1..];
    }
  }

  lemma {:induction false} RunRecords(s: State, run: seq<Action>, id: nat, ok: bool)
    requires Valid(s, run)
    ensures HasRecord(Final(s, run), id, ok) <==>
              HasRecord(s, id, ok) || exists r :: Return(id, r) in run && r.Success? == ok
    decreases run
  {
    if run != [] {
      StepRecords(s, run[0], id, ok);
      RunRecords(Step(s, run[0]), run[1..], id, ok);
      assert run == [run[0]] + run[1..];
    }
  }

  /** A caller that took a result still has it, and took it from the run's own decision. */
  lemma {:induction false} RunDelivers(s: State, run: seq<Action>, id: nat, r: Result)
    requires RecordInv(s, id) && Valid(s, run) && !HasResult(s, id, r)
    ensures HasResult(Final(s, run), id, r) <==> TakeResult(id) in run && HasOutcome(Final(s, run), id, r)
    decreases run
  {
    if run != [] {
      var s1 := Step(s, run[0]);
      StepDecides(s, run[0], id, r);
      StepKeepsRecord(s, run[0], id);
      assert run == [run[0]] + run[1..];
      RunDecides(s1, run[1..], id, r);
      if HasResult(s1, id, r) {
        ResultStays(s1, run[1..], id, r);
      } else {
        RunDelivers(s1, run[1..], id, r);
        if run[0] == TakeResult(id) {
          OtherOutcomeStays(s1, run[1..], id, r);
        }
      }
    }
  }

  lemma {:induction false} ResultStays(s: State, run: seq<Action>, id: nat, r: Result)
    requires RecordInv(s, id) && Valid(s, run) && HasResult(s, id, r)
    ensures HasResult(Final(s, run), id, r)
    decreases run
  {
    if run != [] {
      StepDecides(s, run[0], id, r);
      StepKeepsRecord(s, run[0], id);
      ResultStays(Step(s, run[0]), run[1..], id, r);
    }
  }

  /** Once a result was taken the call's outcome is settled, so it can only be another than `r`. */
  lemma {:induction false} OtherOutcomeStays(s: State, run: seq<Action>, id: nat, r: Result)
    requires RecordInv(s, id) && Valid(s, run) && !HasResult(s, id, r)
    requires id in s.calls && s.calls[id].caller.GotResult?
    ensures !HasOutcome(Final(s, run), id, r)
    decreases run
  {
    if run != [] {
      StepDecides(s, run[0], id, r);
      StepKeepsRecord(s, run[0], id);
      OtherOutcomeStays(Step(s, run[0]), run[1..], id, r);
    }
  }

  /**
   On every run, told by the run alone: the function of a call ran exactly when the breaker accepted it; the caller has
   a result exactly when it took one and that is what the function returned or the breaker's own error; it has the
   context's error exactly when it took that arm or came with its context done; and the breaker recorded a success, or
   a failure, exactly when the function returned one.
   */
  lemma ResultsAreTheFunctionsOwn(run: seq<Action>, id: nat, r: Result, ok: bool)
    requires Valid(Init(), run)
    ensures var s := Final(Init(), run);
            && (HasResult(s, id, r) <==> TakeResult(id) in run && Decided(run, id, r))
            && (HasContextError(s, id) <==> TakeContext(id) in run || Enter(id, true) in run)
            && (HasRun(s, id) <==> Accept(id) in run)
            && (HasRecord(s, id, ok) <==> exists r' :: Return(id, r') in run && r'.Success? == ok)
  {
    RunDecides(Init(), run, id, r);
    RunDelivers(Init(), run, id, r);
    RunRecords(Init(), run, id, ok);
  }

  /** Whether the call's outcome counted, read off the run: no new generation between its acceptance and its return. */
  function Counted(run: seq<Action>, id: nat, current: bool): Option<bool> {
    if run == [] then None
    else
      match run[0]
      case Accept(other) => Counted(run[1..], id, current || other == id)
      case Clear => Counted(run[1..], id, false)
      case Return(other, _) => if other == id then Some(current) else Counted(run[1..], id, current)
      case _ => Counted(run[1..], id, current)
  }

  predicate HasCount(s: State, id: nat, counted: bool) {
    exists k :: 0 <= k < |s.log| && IsFor(s.log[k], id) && s.log[k].counted == counted
  }

  /** Still in the generation that accepted the call. */
  predicate FreshCall(s: State, id: nat) {
    id in s.calls && s.calls[id].worker.Executing? && s.calls[id].generation == s.generation
  }

  predicate Undecided(s: State, id: nat) {
    || id !in s.calls || s.calls[id].worker.Spawned?
    || (s.calls[id].worker.Executing? && s.calls[id].generation <= s.generation)
  }

  lemma StepCounted(s: State, a: Action, id: nat, counted: bool)
    requires Enabled(s, a)
    ensures HasCount(Step(s, a), id, counted) <==>
              HasCount(s, id, counted) || (a.Return? && a.id == id && counted == FreshCall(s, id))
  {
    var s' := Step(s, a);
    assert s.log <= s'.log;
    if HasCount(s, id, counted) {
      var k :| 0 <= k < |s.log| && IsFor(s.log[k], id) && s.log[k].counted == counted;
      assert s'.log[k] == s.log[k];
    }
    if a.Return? {
      assert s'.log[|s.log|].Recorded?;
    }
  }

  predicate Settled(s: State, id: nat) {
    id in s.calls && !s.calls[id].worker.Spawned? && !s.calls[id].worker.Executing?
  }

  lemma {:induction false} SettledStays(s: State, run: seq<Action>, id: nat, counted: bool)
    requires Valid(s, run) && Settled(s, id)
    ensures HasCount(Final(s, run), id, counted) <==> HasCount(s, id, counted)
    ensures Counted(run, id, false) == None
    decreases run
  {
    if run != [] {
      StepCounted(s, run[0], id, counted);
      SettledStays(Step(s, run[0]), run[1..], id, counted);
    }
  }

  lemma {:induction false} RunCounted(s: State, run: seq<Action>, id: nat, counted: bool)
    requires Valid(s, run) && Undecided(s, id)
    ensures HasCount(Final(s, run), id, counted) <==>
              HasCount(s, id, counted) || Counted(run, id, FreshCall(s, id)) == Some(counted)
    decreases run
  {
    if run != [] {
      var s1 := Step(s, run[0]);
      StepCounted(s, run[0], id, counted);
      if Settled(s1, id) {
        SettledStays(s1, run[1..], id, counted);
      } else {
        RunCounted(s1, run[1..], id, counted);
      }
    }
  }

  /** An outcome counts exactly when no generation began between the call's acceptance and its return. */
  lemma OutcomesOfTheGenerationCount(run: seq<Action>, id: nat, counted: bool)
    requires Valid(Init(), run)
    ensures HasCount(Final(Init(), run), id, counted) <==> Counted(run, id, false) == Some(counted)
  {
    RunCounted(Init(), run, id, counted);
  }

  // ----- Calls that nobody leaves -----

  lemma StepThen(s: State, a: Action, run: seq<Action>)
    requires Enabled(s, a) && Valid(Step(s, a), run)
    ensures Valid(s, [a] + run) && Final(s, [a] + run) == Final(Step(s, a), run)
  {
    assert ([a] + run)[1..] == run;
  }

  lemma Delivered(s: State, id: nat, r: Result)
    requires id in s.calls && s.calls[id].caller.Selecting? && s.calls[id].channel.None?
    requires s.calls[id].worker == Executed(r) || s.calls[id].worker == Rejected(r)
    ensures var run := [Send(id)] + ([TakeResult(id)] + []);
            && Valid(s, run)
            && HasResult(Final(s, run), id, r) && Final(s, run).log == s.log && Final(s, run).rejected == s.rejected
  {
    var s1 := Step(s, Send(id));
    StepThen(s1, TakeResult(id), []);
    StepThen(s, Send(id), [TakeResult(id)] + []);
  }

  /** From every state, an accepted call hands its caller what the function returns, and the breaker its success. */
  lemma AcceptedCall(s: State, id: nat, r: Result) returns (run: seq<Action>)
    requires id !in s.calls
    ensures Valid(s, run) && HasResult(Final(s, run), id, r)
    ensures Final(s, run).log == s.log + [Recorded(id, r.Success?, true)]
  {
    var s1 := Step(s, Enter(id, false));
    var s2 := Step(s1, Accept(id));
    var s3 := Step(s2, Return(id, r));
    var rest := [Send(id)] + ([TakeResult(id)] + []);
    Delivered(s3, id, r);
    StepThen(s2, Return(id, r), rest);
    StepThen(s1, Accept(id), [Return(id, r)] + rest);
    StepThen(s, Enter(id, false), [Accept(id)] + ([Return(id, r)] + rest));
    run := [Enter(id, false)] + ([Accept(id)] + ([Return(id, r)] + rest));
  }

  /** One that is turned away hands its caller the breaker's error, and nothing is recorded. */
  lemma RejectedCall(s: State, id: nat, error: string) returns (run: seq<Action>)
    requires id !in s.calls
    ensures Valid(s, run) && HasResult(Final(s, run), id, Failure(error))
    ensures Final(s, run).log == s.log && Final(s, run).rejected == s.rejected + 1
  {
    var s1 := Step(s, Enter(id, false));
    var s2 := Step(s1, Reject(id, error));
    var rest := [Send(id)] + ([TakeResult(id)] + []);
    Delivered(s2, id, Failure(error));
    StepThen(s1, Reject(id, error), rest);
    StepThen(s, Enter(id, false), [Reject(id, error)] + rest);
    run := [Enter(id, false)] + ([Reject(id, error)] + rest);
  }

  /** Goroutines started, calls turned away and functions that returned, counted in the run. */
  function Launches(run: seq<Action>): nat {
    if run == [] then 0 else (if run[0].Enter? && !run[0].ctxDone then 1 else 0) + Launches(run[1..])
  }

  function Rejections(run: seq<Action>): nat {
    if run == [] then 0 else (if run[0].Reject? then 1 else 0) + Rejections(run[1..])
  }

  function Returns(run: seq<Action>): nat {
    if run == [] then 0 else (if run[0].Return? then 1 else 0) + Returns(run[1..])
  }

  lemma {:induction false} RunCounts(s: State, run: seq<Action>)
    requires Valid(s, run)
    ensures var s' := Final(s, run);
            && s'.launched == s.launched + Launches(run) && s'.rejected == s.rejected + Rejections(run)
            && Recordings(s'.log) == Recordings(s.log) + Returns(run)
    decreases run
  {
    if run != [] {
      var s1 := Step(s, run[0]);
      if |s1.log| > |s.log| {
        LogNext(s.log, s1.log[|s.log|], 0);
      }
      RunCounts(s1, run[1..]);
    }
  }

  /** Every goroutine started was turned away, has returned, or is still in flight. */
  lemma EveryLaunchIsAccountedFor(run: seq<Action>)
    requires Valid(Init(), run)
    ensures Launches(run) == Rejections(run) + Returns(run) + |InFlight(Final(Init(), run))|
  {
    NothingIsLost(run);
    RunCounts(Init(), run);
  }

  // ----- Tripping -----

  /**
   The breaker's count of consecutive failures: up by one on a failure, back to zero on a success or a new generation.
   */
  function ConsecutiveFailures(log: seq<Event>): nat {
    if log == [] then 0
    else
      var rest := log[..|log| - 1];
      match log[|log| - 1]
      case Cleared => 0
      case Recorded(_, success, counted) =>
        if !counted then ConsecutiveFailures(rest) else if success then 0 else ConsecutiveFailures(rest) + 1
  }

  predicate ReadyToTrip(log: seq<Event>, threshold: nat) {
    ConsecutiveFailures(log) >= threshold
  }

  /** The outcomes that counted since the current generation began. */
  function Recent(log: seq<Event>): seq<bool> {
    if log == [] || log[|log| - 1].Cleared? then []
    else Recent(log[..|log| - 1]) + if log[|log| - 1].counted then [log[|log| - 1].success] else []
  }

  predicate EndsInFailures(outcomes: seq<bool>, threshold: nat) {
    threshold <= |outcomes| && forall k :: |outcomes| - threshold <= k < |outcomes| ==> !outcomes[k]
  }

  lemma OneMoreFailure(outcomes: seq<bool>, threshold: nat)
    requires threshold > 0
    ensures EndsInFailures(outcomes + [false], threshold) <==> EndsInFailures(outcomes, threshold - 1)
  {
    var more := outcomes + [false];
    if EndsInFailures(more, threshold) {
      forall k | |outcomes| - (threshold - 1) <= k < |outcomes|
        ensures !outcomes[k]
      {
        assert !more[k];
      }
    }
  }

  /**
   The breaker is ready to trip exactly when the last `threshold` outcomes counted in the current generation are
   failures.
   */
  lemma {:induction false} ReadyToTripIff(log: seq<Event>, threshold: nat)
    ensures ReadyToTrip(log, threshold) <==> EndsInFailures(Recent(log), threshold)
  {
    if log != [] && threshold > 0 {
      var rest, last := log[..|log| - 1], log[|log| - 1];
      if last.Recorded? && !last.counted {
        ReadyToTripIff(rest, threshold);
        assert Recent(log) == Recent(rest);
      } else if last.Recorded? && last.success {
        assert Recent(log)[|Recent(log)| - 1];
      } else if last.Recorded? {
        ReadyToTripIff(rest, threshold - 1);
        OneMoreFailure(Recent(rest), threshold);
        assert Recent(log) == Recent(rest) + [false];
      }
    }
  }
}
