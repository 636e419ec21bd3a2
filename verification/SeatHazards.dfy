/**
 * Why both hypotheses of `Seat.IncrementalRefinesFull` are needed: a scope closed over a pending dispatch,
 * and a completion whose counts the event schema rejects, each lead from a new seat to an incremental
 * prompt that does not continue the session it is sent to.
 */
module SeatHazards {
  import opened Options
  import opened SnapshotRender
  import opened Seat
  import Rec = SessionReconciler
  import Race = TurnRace
  import Runs = DriverRuns
  import Sessions = Transcripts

  // ---------------------------------------------------------------------------------------------
  // Runs put together
  // ---------------------------------------------------------------------------------------------

  lemma {:induction false} RunUnfolds(s: Seat, step: Step, rest: seq<Step>)
    ensures Run(s, [step] + rest) == Run(Advance(s, step), rest)
    ensures StartsSafely(s, [step] + rest) <==>
            (step == StartTurn ==> StartIsSafe(s)) && StartsSafely(Advance(s, step), rest)
    ensures Careful(s, [step] + rest) <==>
            StepIsCareful(s, step) && Careful(Advance(s, step), rest)
  {
    assert ([step] + rest)[1..] == rest;
  }

  lemma {:induction false} RunsJoin(s: Seat, before: seq<Step>, after: seq<Step>)
    ensures Run(s, before + after) == Run(Run(s, before), after)
    ensures StartsSafely(s, before + after) <==> StartsSafely(s, before) && StartsSafely(Run(s, before), after)
    ensures Careful(s, before + after) <==> Careful(s, before) && Careful(Run(s, before), after)
    decreases |before|
  {
    if before == [] {
      assert before + after == after;
    } else {
      assert (before + after)[1..] == before[1..] + after;
      RunsJoin(Advance(s, before[0]), before[1..], after);
    }
  }

  lemma {:induction false} RunOfNone(s: Seat)
    ensures Run(s, []) == s && Careful(s, [])
  {
  }

  // ---------------------------------------------------------------------------------------------
  // A turn from its start to its reply
  // ---------------------------------------------------------------------------------------------

  /** A reply that reports `tokens` input tokens and nothing else of usage. */
  function ReplyTo(d: Dispatch, tokens: real): Race.Reply {
    Race.Reply("x", false, if d.coldStart then Some("s") else None, Race.Usage(Some(tokens), None, None))
  }

  function Done(tokens: real): Race.Ending {
    Race.Completed("x", Some(Race.Usage(Some(tokens), None, None)))
  }

  /** The callbacks of a turn up to the end of its output. */
  function Talk(n: nat, d: Dispatch, tokens: real): seq<Step> {
    [Callback(n, Race.Spawned), Callback(n, Race.Output(Some(ReplyTo(d, tokens)), false)), Callback(n, Race.StdoutEnd)]
  }

  const CLEAN_EXIT := Race.Exit(Some(0))

  /** The last turn, of dispatch `d`, has begun and nothing has happened to it yet. */
  ghost predicate Begun(s: Seat, n: nat, d: Dispatch) {
    && s.pending == None && s.driver.active == Some(n) && s.driver.phase == Race.Busy
    && |s.driver.turns| == |s.dispatches| == n + 1 && s.dispatches[n] == d
    && var t := s.driver.turns[n];
       && t.coldStart == d.coldStart && !t.cancelling && !t.settled && t.terminals == []
       && t.drain.exitCode == None && !t.drain.settled && !t.drain.processExit
  }

  /** Its process has replied and closed its output. */
  ghost predicate Replied(s: Seat, n: nat, d: Dispatch, tokens: real) {
    && Begun(s, n, d)
    && var t := s.driver.turns[n];
       t.attached && t.reply == Some(ReplyTo(d, tokens)) && t.drain.stdoutEnded
  }

  /** Nothing but the turn itself has changed. */
  predicate Unmoved(s: Seat, s': Seat) {
    s' == s.(driver := s'.driver) && s'.driver == s.driver.(turns := s'.driver.turns)
  }

  lemma {:induction false} TalkUnfolds(s: Seat, n: nat, d: Dispatch, tokens: real)
    ensures var talk := Talk(n, d, tokens);
            var s1 := Advance(s, talk[0]);
            var s2 := Advance(s1, talk[1]);
            && Run(s, talk) == Advance(s2, talk[2]) && StartsSafely(s, talk)
            && (Careful(s, talk) <==>
                  StepIsCareful(s, talk[0]) && StepIsCareful(s1, talk[1]) && StepIsCareful(s2, talk[2]))
  {
    var steps := Talk(n, d, tokens);
    hide Advance, StepIsCareful;
    var s1 := Advance(s, steps[0]);
    RunUnfolds(s, steps[0], [steps[1]] + ([steps[2]] + []));
    RunUnfolds(s1, steps[1], [steps[2]] + []);
    RunUnfolds(Advance(s1, steps[1]), steps[2], []);
    assert [steps[0]] + ([steps[1]] + ([steps[2]] + [])) == steps;
  }

  lemma {:induction false} TurnSpawns(s: Seat, n: nat, d: Dispatch)
    requires Begun(s, n, d)
    ensures var s' := Advance(s, Callback(n, Race.Spawned));
            && Begun(s', n, d) && Unmoved(s, s') && s'.driver.turns[n].attached
            && StepIsCareful(s, Callback(n, Race.Spawned))
  {
  }

  lemma {:induction false} TurnOutputs(s: Seat, n: nat, d: Dispatch, tokens: real)
    requires Begun(s, n, d) && s.driver.turns[n].attached
    ensures var output := Callback(n, Race.Output(Some(ReplyTo(d, tokens)), false));
            var s' := Advance(s, output);
            && Begun(s', n, d) && Unmoved(s, s') && StepIsCareful(s, output)
            && s'.driver.turns[n].attached && s'.driver.turns[n].reply == Some(ReplyTo(d, tokens))
  {
  }

  lemma {:induction false} TurnEndsOutput(s: Seat, n: nat, d: Dispatch, tokens: real)
    requires Begun(s, n, d) && s.driver.turns[n].attached && s.driver.turns[n].reply == Some(ReplyTo(d, tokens))
    ensures var s' := Advance(s, Callback(n, Race.StdoutEnd)); Replied(s', n, d, tokens) && Unmoved(s, s')
    ensures StepIsCareful(s, Callback(n, Race.StdoutEnd))
  {
  }

  lemma {:induction false} TurnReplies(s: Seat, n: nat, d: Dispatch, tokens: real)
    requires Begun(s, n, d)
    ensures var s' := Run(s, Talk(n, d, tokens)); Replied(s', n, d, tokens) && Unmoved(s, s')
    ensures Careful(s, Talk(n, d, tokens)) && StartsSafely(s, Talk(n, d, tokens))
  {
    TalkUnfolds(s, n, d, tokens);
    hide Advance, Replied, ReplyTo, Run, Careful, StartsSafely, StepIsCareful;
    TurnSpawns(s, n, d);
    var s1 := Advance(s, Callback(n, Race.Spawned));
    TurnOutputs(s1, n, d, tokens);
    var s2 := Advance(s1, Callback(n, Race.Output(Some(ReplyTo(d, tokens)), false)));
    TurnEndsOutput(s2, n, d, tokens);
  }

  lemma {:induction false} ReplyCompletes(s: Seat, n: nat, d: Dispatch, tokens: real)
    requires Replied(s, n, d, tokens)
    ensures CompletesWith(s, n, CLEAN_EXIT)
    ensures Loses(s, n, CLEAN_EXIT) <==> tokens < 0.0
    ensures var driver := Runs.Advance(s.driver, Runs.Call(n, CLEAN_EXIT));
            && driver.epoch == s.driver.epoch && driver.active == None && driver.phase == Race.Ready
            && driver.turns[n].terminals == [Done(tokens)]
            && driver.session == if d.coldStart then Some("s") else s.driver.session
  {
    var g := Race.Handle(Runs.FocusOn(s.driver, n), CLEAN_EXIT);
    assert g.turn.settled && g.turn.terminals == [Done(tokens)];
  }

  // ---------------------------------------------------------------------------------------------
  // Closing over a pending dispatch
  // ---------------------------------------------------------------------------------------------

  /** A record left behind by an earlier scope's driver, one completed turn over `snapshot` at its epoch. */
  ghost predicate Stale(s: Seat, snapshot: Snapshot) {
    && s.scope == Open && !s.busy && s.pending == None
    && s.driver.phase == Race.Ready && s.driver.active == None && s.driver.session == None
    && LastTurnSettled(s.driver) && |s.dispatches| == |s.driver.turns|
    && s.record.Some? && Rec.Describes(s.record.value, snapshot)
    && s.record.value.executionCount == 1 && s.record.value.cumulativeInputTokens == 0.0
    && s.record.value.sessionEpoch >= s.driver.epoch
  }

  lemma {:induction false} LateTurnBegins(s: Seat)
    requires SeatOk(s) && s.scope == Open && s.pending.Some?
    ensures var s' := Advance(Advance(Advance(s, CloseBegin), CloseDriverDone), StartTurn);
            Begun(s', |s.driver.turns|, s.pending.value) && s'.scope == DriverClosed && s'.record == None
  {
    hide RenderTurn, RecordOk, Fits, Race.Handle;
    var s0 := Advance(Advance(s, CloseBegin), CloseDriverDone);
    assert s0.scope == DriverClosed && s0.record == None && s0.pending == s.pending;
    assert s0.driver.active == None && s0.driver.turns == s.driver.turns;
  }

  lemma ScopeReopensStale(s: Seat, d: Dispatch, epoch: nat)
    requires s.scope == DriverClosed
    requires s.record == Some(Rec.Apply(None, d.snapshot, d.executionId, epoch, 0.0))
    ensures Stale(Advance(Advance(s, Release), Reopen), d.snapshot)
  {
  }

  /** A failing turn in the new scope moves its driver one epoch closer to the stale record's. */
  lemma {:induction false} FailedTurnStaysStale(s: Seat, snapshot: Snapshot)
    requires Stale(s, snapshot) && s.record.value.sessionEpoch > s.driver.epoch
    ensures var s' := Advance(Advance(Advance(Advance(s, Execute("e", snapshot, None)), StartTurn),
                                      Callback(|s.driver.turns|, Race.SpawnFailed)), Finally);
            Stale(s', snapshot) && s'.driver.epoch == s.driver.epoch + 1 && s'.record == s.record
  {
    var n := |s.driver.turns|;
    var s1 := Advance(Advance(s, Execute("e", snapshot, None)), StartTurn);
    assert s1.driver.active == Some(n) && !s1.driver.turns[n].settled && !s1.driver.turns[n].cancelling;
    var f := Runs.FocusOn(s1.driver, n);
    assert Race.Handle(f, Race.SpawnFailed).turn.settled;
  }

  /** From a stale record, some further run sends an incremental prompt to no session at all. */
  lemma {:induction false} StaleRecordMisleads(s: Seat, snapshot: Snapshot) returns (steps: seq<Step>)
    requires Stale(s, snapshot)
    ensures Careful(s, steps) && !StartsSafely(s, steps)
    decreases s.record.value.sessionEpoch - s.driver.epoch
  {
    if InSync(s) {
      Rec.IncrementalIffAppendOnly(s.record.value, snapshot, snapshot, None);
      var s1 := Advance(s, Execute("e", snapshot, None));
      assert s1.pending.Some? && !s1.pending.value.coldStart && !StartIsSafe(s1);
      steps := [Execute("e", snapshot, None)] + ([StartTurn] + []);
      RunUnfolds(s1, StartTurn, []);
      RunUnfolds(s, Execute("e", snapshot, None), [StartTurn] + []);
    } else {
      FailedTurnStaysStale(s, snapshot);
      var n := |s.driver.turns|;
      var s1 := Advance(s, Execute("e", snapshot, None));
      var s2 := Advance(s1, StartTurn);
      var s3 := Advance(s2, Callback(n, Race.SpawnFailed));
      var rest := StaleRecordMisleads(Advance(s3, Finally), snapshot);
      RunUnfolds(s3, Finally, rest);
      RunUnfolds(s2, Callback(n, Race.SpawnFailed), [Finally] + rest);
      RunUnfolds(s1, StartTurn, [Callback(n, Race.SpawnFailed)] + ([Finally] + rest));
      RunUnfolds(s, Execute("e", snapshot, None), [StartTurn] + ([Callback(n, Race.SpawnFailed)] + ([Finally] + rest)));
      steps := [Execute("e", snapshot, None)] + ([StartTurn] + ([Callback(n, Race.SpawnFailed)] + ([Finally] + rest)));
    }
  }

  /** The exit of a turn that ends after its own driver was closed is recorded all the same. */
  lemma {:induction false} LateExitIsRecorded(s: Seat, n: nat, d: Dispatch)
    requires Replied(s, n, d, 0.0) && s.scope == DriverClosed && s.record == None
    ensures var s' := Advance(s, Callback(n, CLEAN_EXIT));
            && s'.scope == DriverClosed
            && s'.record == Some(Rec.Apply(None, d.snapshot, d.executionId, s.driver.epoch, 0.0))
  {
    ReplyCompletes(s, n, d, 0.0);
    hide Race.Handle, Rec.Apply, Grown;
  }

  lemma {:induction false} LateReplyMisleads(s: Seat, n: nat, d: Dispatch) returns (steps: seq<Step>)
    requires Replied(s, n, d, 0.0) && s.scope == DriverClosed && s.record == None
    ensures Careful(s, steps) && !StartsSafely(s, steps)
  {
    ReplyCompletes(s, n, d, 0.0);
    LateExitIsRecorded(s, n, d);
    var s1 := Advance(s, Callback(n, CLEAN_EXIT));
    var s2 := Advance(s1, Release);
    ScopeReopensStale(s1, d, s.driver.epoch);
    hide Advance, Stale, Replied, Rec.Apply;
    var rest := StaleRecordMisleads(Advance(s2, Reopen), d.snapshot);
    RunUnfolds(s2, Reopen, rest);
    RunUnfolds(s1, Release, [Reopen] + rest);
    RunUnfolds(s, Callback(n, CLEAN_EXIT), [Release] + ([Reopen] + rest));
    steps := [Callback(n, CLEAN_EXIT)] + ([Release] + ([Reopen] + rest));
  }

  /** A dispatch pending at the close can outlive it, complete, and leave a stale record behind. */
  lemma {:induction false} PendingCloseMisleads(s: Seat) returns (steps: seq<Step>)
    requires SeatOk(s) && s.scope == Open && s.pending.Some?
    ensures Careful(Advance(s, CloseBegin), steps)
    ensures !StartsSafely(Advance(s, CloseBegin), steps)
  {
    var (n, d) := (|s.driver.turns|, s.pending.value);
    var s1 := Advance(s, CloseBegin);
    var s2 := Advance(s1, CloseDriverDone);
    var s3 := Advance(s2, StartTurn);
    LateTurnBegins(s);
    hide Advance, SeatOk, Begun, Replied, StartIsSafe;
    TurnReplies(s3, n, d, 0.0);
    assert Unmoved(s3, Run(s3, Talk(n, d, 0.0)));
    var rest := LateReplyMisleads(Run(s3, Talk(n, d, 0.0)), n, d);
    RunsJoin(s3, Talk(n, d, 0.0), rest);
    RunUnfolds(s2, StartTurn, Talk(n, d, 0.0) + rest);
    RunUnfolds(s1, CloseDriverDone, [StartTurn] + (Talk(n, d, 0.0) + rest));
    steps := [CloseDriverDone] + ([StartTurn] + (Talk(n, d, 0.0) + rest));
  }

  /** It happens: in a new scope that is closed between accepting its first turn and starting it. */
  lemma {:induction false} PendingCloseHappens(snapshot: Snapshot) returns (steps: seq<Step>)
    ensures |steps| >= 2 && steps[..2] == [Execute("e", snapshot, None), CloseBegin]
    ensures Careful(Run(NEW_SEAT, steps[..2]), steps[2..])
    ensures !StartsSafely(NEW_SEAT, steps)
  {
    var accepted := Advance(NEW_SEAT, Execute("e", snapshot, None));
    StepKeepsSeatOk(NEW_SEAT, Execute("e", snapshot, None));
    assert accepted.scope == Open && accepted.pending.Some?;
    var rest := PendingCloseMisleads(accepted);
    RunUnfolds(accepted, CloseBegin, rest);
    RunUnfolds(NEW_SEAT, Execute("e", snapshot, None), [CloseBegin] + rest);
    RunUnfolds(accepted, CloseBegin, []);
    RunUnfolds(NEW_SEAT, Execute("e", snapshot, None), [CloseBegin] + []);
    steps := [Execute("e", snapshot, None)] + ([CloseBegin] + rest);
    assert steps[..2] == [Execute("e", snapshot, None)] + ([CloseBegin] + []) && steps[2..] == rest;
  }

  /**
   * Exactly when closing is safe: an open seat may be closed without endangering any later turn if and
   * only if no dispatch is pending at that moment.
   */
  lemma {:induction false} CloseIsSafeIffNothingPending(s: Seat)
    requires SeatOk(s) && s.scope == Open
    ensures s.pending == None <==>
            forall steps :: Careful(Advance(s, CloseBegin), steps) ==>
                              StartsSafely(Advance(s, CloseBegin), steps)
  {
    if s.pending == None {
      StepKeepsSeatOk(s, CloseBegin);
      forall steps | Careful(Advance(s, CloseBegin), steps)
        ensures StartsSafely(Advance(s, CloseBegin), steps)
      {
        IncrementalRefinesFull(Advance(s, CloseBegin), steps);
      }
    } else {
      var steps := PendingCloseMisleads(s);
    }
  }

  // ---------------------------------------------------------------------------------------------
  // Negative counts
  // ---------------------------------------------------------------------------------------------

  /** A window in which the budget is not what stands in the way. */
  function WideWindow(r: Rec.SessionState): real {
    (r.cumulativeInputTokens + 1.0) / Rec.CONTEXT_WINDOW_THRESHOLD_RATIO
  }

  /** A seat whose session has been told more than the record knows. */
  ghost predicate Ahead(s: Seat, told: Snapshot) {
    && s.scope == Open && s.pending == None && LastTurnSettled(s.driver) && s.driver.phase != Race.Closed
    && InSync(s) && s.record.value.executionCount < Rec.SESSION_MAX_EXECUTIONS
    && s.applied.Some? && Rec.Describes(s.record.value, s.applied.value)
    && Rec.AppendOnly(s.applied.value, told) && |s.applied.value.items| < |told.items|
    && s.driver.session.Some? && s.driver.session.value in s.transcripts
    && Sessions.Holds(s.transcripts[s.driver.session.value], told)
  }

  lemma {:induction false} LostCompletionIsAhead(s: Seat, i: nat, c: Race.Callback)
    requires SeatOk(s) && s.driver.active == Some(i) && Loses(s, i, c) && !MayGoUnrecorded(s, i)
    ensures Ahead(Advance(s, Callback(i, c)), s.dispatches[i].snapshot)
  {
    hide Race.Handle, RenderTurn, Sessions.Holds, Rec.Describes, Race.UsageConforms;
    Race.HandleSteps(Runs.FocusOn(s.driver, i), c);
    Race.HandleKeepsOpen(Runs.FocusOn(s.driver, i), c);
    CompletionDelivers(s, i, c);
  }

  /** The next turn repeats to the session what it has been told beyond the record. */
  lemma {:induction false} AheadMisleads(s: Seat, told: Snapshot) returns (steps: seq<Step>)
    requires Ahead(s, told)
    ensures Careful(s, steps) && !StartsSafely(s, steps)
  {
    hide RenderTurn, Sessions.Holds;
    var again := Execute("e", told, Some(WideWindow(s.record.value)));
    Rec.IncrementalIffAppendOnly(s.record.value, s.applied.value, told, again.windowTokens);
    var s1 := Advance(s, Finally);
    var s2 := Advance(s1, again);
    assert s2.pending.Some? && !s2.pending.value.coldStart && s2.pending.value.snapshot == told;
    Sessions.HoldsNoLess(s2.transcripts[s.driver.session.value], told, |s.applied.value.items|);
    assert !StartIsSafe(s2);
    RunUnfolds(s2, StartTurn, []);
    RunUnfolds(s1, again, [StartTurn] + []);
    RunUnfolds(s, Finally, [again] + ([StartTurn] + []));
    steps := [Finally] + ([again] + ([StartTurn] + []));
  }

  /** After a completion that was lost some run goes wrong. */
  lemma {:induction false} LostCompletionMisleads(s: Seat, i: nat, c: Race.Callback) returns (steps: seq<Step>)
    requires SeatOk(s) && s.driver.active == Some(i) && Loses(s, i, c) && !MayGoUnrecorded(s, i)
    ensures Careful(Advance(s, Callback(i, c)), steps)
    ensures !StartsSafely(Advance(s, Callback(i, c)), steps)
  {
    hide Advance, Ahead, Loses;
    LostCompletionIsAhead(s, i, c);
    steps := AheadMisleads(Advance(s, Callback(i, c)), s.dispatches[i].snapshot);
  }

  /**
   * Exactly when a completion is safe: it endangers no later turn if and only if the reply reports no
   * negative count, or the turn was a cold start, or it appended nothing.
   */
  lemma {:induction false} CompletionIsSafeIff(s: Seat, i: nat, c: Race.Callback)
    requires SeatOk(s) && s.driver.active == Some(i) && CompletesWith(s, i, c)
    ensures s.driver.turns[i].reply.Some?
    ensures var (usage, d) := (s.driver.turns[i].reply.value.usage, s.dispatches[i]);
            Race.UsageConforms(usage) || d.coldStart || d.fromIndex == |d.snapshot.items| <==>
            forall steps :: Careful(Advance(s, Callback(i, c)), steps) ==>
                              StartsSafely(Advance(s, Callback(i, c)), steps)
  {
    Race.HandleSteps(Runs.FocusOn(s.driver, i), c);
    var s' := Advance(s, Callback(i, c));
    if Loses(s, i, c) && !MayGoUnrecorded(s, i) {
      var steps := LostCompletionMisleads(s, i, c);
    } else {
      StepKeepsSeatOk(s, Callback(i, c));
      forall steps | Careful(s', steps) ensures StartsSafely(s', steps) {
        IncrementalRefinesFull(s', steps);
      }
    }
  }

  /** One turn of an idle seat, up to its reply. */
  lemma {:induction false} TurnRuns(s: Seat, x: string, snapshot: Snapshot, tokens: real)
    returns (steps: seq<Step>, d: Dispatch)
    requires SeatOk(s) && s.scope == Open && !s.busy
    requires !Rec.Decide(s.record, snapshot, s.driver.epoch, None).NeedsRebase?
    ensures Careful(s, steps) && SeatOk(Run(s, steps))
    ensures Replied(Run(s, steps), |s.driver.turns|, d, tokens) && d.snapshot == snapshot
    ensures match Rec.Decide(s.record, snapshot, s.driver.epoch, None)
            case Full(_) => d.coldStart
            case Incremental(k, _) => !d.coldStart && d.fromIndex == k
    ensures var s' := Run(s, steps);
            && s'.scope == Open && s'.record == s.record && s'.applied == s.applied && s'.transcripts == s.transcripts
            && s'.driver.epoch == s.driver.epoch
  {
    var execute := Execute(x, snapshot, None);
    var s1 := Advance(s, execute);
    StepKeepsSeatOk(s, execute);
    d := s1.pending.value;
    var s2 := Advance(s1, StartTurn);
    StepKeepsSeatOk(s1, StartTurn);
    var n := |s.driver.turns|;
    assert Begun(s2, n, d);
    TurnReplies(s2, n, d, tokens);
    IncrementalRefinesFull(s2, Talk(n, d, tokens));
    RunUnfolds(s1, StartTurn, Talk(n, d, tokens));
    RunUnfolds(s, execute, [StartTurn] + Talk(n, d, tokens));
    steps := [execute] + ([StartTurn] + Talk(n, d, tokens));
  }

  lemma {:induction false} FirstCompletes(s: Seat, d: Dispatch)
    requires SeatOk(s) && Replied(s, 0, d, 0.0) && s.record == None && s.scope == Open
    ensures var s' := Advance(s, Callback(0, CLEAN_EXIT));
            && SeatOk(s') && s'.pending == None && s'.scope == Open && |s'.driver.turns| == 1
            && LastTurnSettled(s'.driver) && InSync(s') && s'.applied == Some(d.snapshot)
            && s'.record == Some(Rec.Apply(None, d.snapshot, d.executionId, s.driver.epoch, 0.0))
  {
    ReplyCompletes(s, 0, d, 0.0);
    CompletionDelivers(s, 0, CLEAN_EXIT);
    StepKeepsSeatOk(s, Callback(0, CLEAN_EXIT));
    hide SeatOk, CompletesWith, Rec.Apply, Rec.Describes;
  }

  lemma {:induction false} SeatIsFreed(s: Seat)
    requires SeatOk(s) && s.pending == None && LastTurnSettled(s.driver)
    ensures Advance(s, Finally) == s.(busy := false) && SeatOk(s.(busy := false))
  {
    StepKeepsSeatOk(s, Finally);
    hide SeatOk;
  }

  /** The first turn of a new scope, completed and recorded. */
  lemma {:induction false} FirstTurn(first: Snapshot) returns (steps: seq<Step>)
    ensures Careful(NEW_SEAT, steps)
    ensures var s := Run(NEW_SEAT, steps);
            && SeatOk(s) && s.scope == Open && !s.busy && |s.driver.turns| == 1 && InSync(s)
            && s.applied == Some(first) && Rec.Describes(s.record.value, first)
            && s.record.value.executionCount == 1 && s.record.value.cumulativeInputTokens == 0.0
  {
    var one, d := TurnRuns(NEW_SEAT, "a", first, 0.0);
    var s1 := Run(NEW_SEAT, one);
    hide Run, Careful, StartsSafely, SeatOk, Replied;
    FirstCompletes(s1, d);
    var s2 := Advance(s1, Callback(0, CLEAN_EXIT));
    SeatIsFreed(s2);
    hide Advance;
    RunUnfolds(s2, Finally, []);
    RunUnfolds(s1, Callback(0, CLEAN_EXIT), [Finally] + []);
    RunOfNone(Advance(s2, Finally));
    steps := one + ([Callback(0, CLEAN_EXIT)] + ([Finally] + []));
    RunsJoin(NEW_SEAT, one, [Callback(0, CLEAN_EXIT)] + ([Finally] + []));
  }

  /** It happens: to the second turn of a new scope, whatever it appends, if it reports -1 input tokens. */
  lemma {:induction false} LostCompletionHappens(first: Snapshot, second: Snapshot)
    returns (before: seq<Step>, after: seq<Step>)
    requires Rec.AppendOnly(first, second) && |first.items| < |second.items|
    ensures Careful(NEW_SEAT, before)
    ensures var s := Run(NEW_SEAT, before);
            var s' := Advance(s, Callback(1, CLEAN_EXIT));
            && |s'.driver.turns| == 2 && s'.driver.turns[1].terminals == [Done(-1.0)] && !Race.Conforms(Done(-1.0))
            && s'.record == s.record && Careful(s', after) && !StartsSafely(s', after)
  {
    var one := FirstTurn(first);
    var s := Run(NEW_SEAT, one);
    hide Run, SeatOk, Careful, StartsSafely;
    Rec.IncrementalIffAppendOnly(s.record.value, first, second, None);
    hide Rec.Decide, Rec.Describes, Rec.AppendOnly;
    var two, d := TurnRuns(s, "b", second, -1.0);
    var s' := Run(s, two);
    ReplyCompletes(s', 1, d, -1.0);
    LostTurnsRecord(s', 1, CLEAN_EXIT);
    hide Advance;
    assert !MayGoUnrecorded(s', 1);
    after := LostCompletionMisleads(s', 1, CLEAN_EXIT);
    before := one + two;
    RunsJoin(NEW_SEAT, one, two);
  }

  lemma {:induction false} LostTurnsRecord(s: Seat, i: nat, c: Race.Callback)
    requires SeatOk(s) && s.driver.active == Some(i) && Loses(s, i, c)
    ensures var s' := Advance(s, Callback(i, c));
            s'.record == s.record && s'.driver == Runs.Advance(s.driver, Runs.Call(i, c))
  {
    hide Race.Handle, RecordOk, RenderTurn, Rec.Apply, Grown;
    CompletionDelivers(s, i, c);
  }
}
