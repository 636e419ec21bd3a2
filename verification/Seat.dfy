/**
 * One seat over its life: the dispatching part of the scope manager, the reconciler and the driver
 * together. Every await of the source ends a step, so steps of different calls interleave freely.
 */
module Seat {
  import opened Options
  import opened Text16
  import opened SnapshotRender
  import Rec = SessionReconciler
  import Race = TurnRace
  import Runs = DriverRuns
  import Sessions = Transcripts

  /** A turn accepted by the scope manager. */
  datatype Dispatch = Dispatch(executionId: string, snapshot: Snapshot, coldStart: bool, fromIndex: nat, prompt: Text)

  /** `DriverClosed`: this seat is torn down while the scope still waits for its other seats. */
  datatype ScopePhase = Open | Closing | DriverClosed | Closed

  datatype Seat = Seat(
    scope: ScopePhase,
    driver: Runs.Driver,
    record: Option<Rec.SessionState>,
    busy: bool,                              // the entry's busyExecutionId is set
    pending: Option<Dispatch>,               // dispatched, the working directory not yet laid out
    dispatches: seq<Dispatch>,               // history: the dispatch behind each of the driver's turns
    applied: Option<Snapshot>,               // history: the newest snapshot recorded as applied
    transcripts: map<string, Sessions.Transcript>)   // history: the command-line sessions by id

  datatype Step =
    | Execute(executionId: string, snapshot: Snapshot, windowTokens: Option<real>)
    | StartTurn
    | StartFails
    | Callback(turn: nat, callback: Race.Callback)
    | Finally
    | Cancel(executionId: string)
    | CloseBegin
    | CloseDriverDone
    | Release
    | Reopen

  const PREWARMED := Runs.NEW_DRIVER.(phase := Race.Ready)

  const NEW_SEAT := Seat(Open, PREWARMED, None, false, None, [], None, map[])

  /** What the session has been told once a turn with this dispatch completed in it. */
  function Grown(transcripts: map<string, Sessions.Transcript>, d: Dispatch, resume: Option<string>)
    : Sessions.Transcript
  {
    if !d.coldStart && resume.Some? && resume.value in transcripts then
      Sessions.Continued(transcripts[resume.value], d.prompt, d.snapshot, d.fromIndex)
    else Sessions.Opened([], d.prompt, d.snapshot)
  }

  predicate Completes(before: Runs.Driver, after: Runs.Driver, i: nat) {
    && i < |before.turns| && i < |after.turns|
    && !before.turns[i].settled && after.turns[i].settled
    && after.turns[i].terminals != [] && after.turns[i].terminals[0].Completed?
  }

  /**
   * The emit callback: a completion is recorded as applied if the registry takes it for one. It does not when
   * the event violates the schema, nor once the scope's executions have been released.
   */
  function Settle(s: Seat, driver: Runs.Driver, i: nat): Seat {
    if !Completes(s.driver, driver, i) || i >= |s.dispatches| then s.(driver := driver)
    else
      var (d, t) := (s.dispatches[i], driver.turns[i]);
      var grown := if driver.session == None then s.transcripts
                   else s.transcripts[driver.session.value := Grown(s.transcripts, d, t.resume)];
      if !Race.Conforms(t.terminals[0]) || s.scope == Closed then s.(driver := driver, transcripts := grown)
      else
        var tokens := Race.InputTokens(t.terminals[0].usage);
        s.(driver := driver, transcripts := grown, applied := Some(d.snapshot),
           record := Some(Rec.Apply(s.record, d.snapshot, d.executionId, driver.epoch, tokens)))
  }

  predicate LastTurnSettled(d: Runs.Driver) {
    d.turns == [] || d.turns[|d.turns| - 1].settled
  }

  function Advance(s: Seat, step: Step): Seat {
    match step
    case Execute(executionId, snapshot, windowTokens) =>
      if s.scope != Open || s.busy || s.driver.phase == Race.Closed then s
      else (
        match Rec.Decide(s.record, snapshot, s.driver.epoch, windowTokens)
        case Full(prompt) => s.(busy := true, pending := Some(Dispatch(executionId, snapshot, true, 0, prompt)))
        case Incremental(k, prompt) =>
          s.(busy := true, pending := Some(Dispatch(executionId, snapshot, false, k, prompt)))
        case NeedsRebase(_) => s)
    case StartTurn =>
      if s.pending == None then s
      else
        var d := s.pending.value;
        s.(pending := None, dispatches := s.dispatches + [d],
           driver := Runs.Advance(s.driver, Runs.Begin(d.executionId, d.coldStart)))
    case StartFails => s.(pending := None)
    case Callback(i, c) => Settle(s, Runs.Advance(s.driver, Runs.Call(i, c)), i)
    case Finally => if s.pending == None && LastTurnSettled(s.driver) then s.(busy := false) else s
    case Cancel(executionId) =>
      if s.scope == Open then s.(driver := Runs.Advance(s.driver, Runs.Cancel(executionId))) else s
    case CloseBegin =>
      if s.scope == Open then s.(scope := Closing, driver := Runs.Advance(s.driver, Runs.CloseBegin)) else s
    case CloseDriverDone =>
      if s.scope == Closing then
        s.(scope := DriverClosed, record := None, driver := Runs.Advance(s.driver, Runs.CloseEnd))
      else s
    case Release => if s.scope == DriverClosed then s.(scope := Closed) else s
    case Reopen =>
      if s.scope == Closed then
        s.(scope := Open, driver := PREWARMED, busy := false, pending := None, dispatches := [])
      else s
  }

  function Run(s: Seat, steps: seq<Step>): Seat
    decreases |steps|
  {
    if steps == [] then s else Run(Advance(s, steps[0]), steps[1..])
  }

  // ---------------------------------------------------------------------------------------------
  // The invariant
  // ---------------------------------------------------------------------------------------------

  predicate InSync(s: Seat) {
    s.record.Some? && s.record.value.sessionEpoch == s.driver.epoch
  }

  /** A dispatch fits the record it was decided on. */
  ghost predicate Fits(s: Seat, d: Dispatch) {
    d.prompt == RenderTurn(d.snapshot, d.fromIndex) &&
    if d.coldStart then d.fromIndex == 0 && !InSync(s)
    else
      && InSync(s) && s.applied.Some?
      && d.fromIndex == |s.applied.value.items|
      && Rec.AppendOnly(s.applied.value, d.snapshot)
      && s.record.value.executionCount < Rec.SESSION_MAX_EXECUTIONS
  }

  /** What is recorded is what was applied, and it is what the driver's session holds. */
  ghost predicate RecordOk(s: Seat) {
    s.record.Some? ==>
      && s.applied.Some? && Rec.Describes(s.record.value, s.applied.value)
      && s.record.value.sessionEpoch <= s.driver.epoch
      && 1 <= s.record.value.executionCount <= Rec.SESSION_MAX_EXECUTIONS
      && (InSync(s) ==>
            && s.driver.session.Some? && s.driver.session.value in s.transcripts
            && Sessions.Holds(s.transcripts[s.driver.session.value], s.applied.value))
  }

  ghost predicate ActiveOk(s: Seat, i: nat)
    requires i < |s.driver.turns| && i < |s.dispatches|
  {
    var (t, d) := (s.driver.turns[i], s.dispatches[i]);
    && t.coldStart == d.coldStart
    && (if t.cancelling then s.driver.session == None && s.driver.epoch > t.startEpoch && !InSync(s)
        else
          && s.driver.epoch == t.startEpoch && Fits(s, d)
          && (!t.coldStart ==> t.resume == s.driver.session))
  }

  ghost predicate SeatOk(s: Seat) {
    && Runs.DriverOk(s.driver)
    && |s.dispatches| == |s.driver.turns|
    && (forall i | 0 <= i < |s.driver.turns| && !s.driver.turns[i].settled :: s.driver.active == Some(i))
    && (s.driver.active.Some? ==>
          && s.driver.active.value == |s.driver.turns| - 1
          && s.busy && s.pending == None
          && ActiveOk(s, s.driver.active.value))
    && (s.pending.Some? ==> s.busy && s.scope == Open && Fits(s, s.pending.value))
    && (s.scope == Open ==> s.driver.phase != Race.Closing && s.driver.phase != Race.Closed)
    && RecordOk(s)
    && (s.scope == Closing && s.driver.active.Some? ==>
          s.driver.closeTurn == s.driver.active && s.driver.turns[s.driver.active.value].cancelling)
    && (s.scope == DriverClosed || s.scope == Closed ==> s.record == None && s.driver.active == None)
  }

  // ---------------------------------------------------------------------------------------------
  // The two hypotheses, and what safety means
  // ---------------------------------------------------------------------------------------------

  /** Turn `i` completes with this callback. */
  predicate CompletesWith(s: Seat, i: nat, c: Race.Callback) {
    Completes(s.driver, Runs.Advance(s.driver, Runs.Call(i, c)), i)
  }

  /** Turn `i` completes with this callback, but its reply reports a negative count. */
  predicate Loses(s: Seat, i: nat, c: Race.Callback) {
    && CompletesWith(s, i, c)
    && s.driver.turns[i].reply.Some? && !Race.UsageConforms(s.driver.turns[i].reply.value.usage)
  }

  /** If the completion of turn `i` is not recorded, the session is still no further than the record. */
  predicate MayGoUnrecorded(s: Seat, i: nat)
    requires i < |s.dispatches|
  {
    s.dispatches[i].coldStart || s.dispatches[i].fromIndex >= |s.dispatches[i].snapshot.items|
  }

  /**
   * The scope is closed only while no dispatch is between acceptance and the start of its turn, and a
   * completed turn reports a negative count only if it was a cold start or appended nothing.
   */
  predicate StepIsCareful(s: Seat, step: Step) {
    && (step == CloseBegin ==> s.pending == None)
    && (step.Callback? && Loses(s, step.turn, step.callback) && step.turn < |s.dispatches| ==>
          MayGoUnrecorded(s, step.turn))
  }

  predicate Careful(s: Seat, steps: seq<Step>)
    decreases |steps|
  {
    steps == [] || (StepIsCareful(s, steps[0]) && Careful(Advance(s, steps[0]), steps[1..]))
  }

  /**
   * A cold turn is sent the full prompt; an incremental one resumes the very session which, with what it is
   * sent, has been told exactly what the full prompt says.
   */
  predicate StartIsSafe(s: Seat) {
    s.pending.Some? ==>
      var d := s.pending.value;
      if d.coldStart then d.prompt == RenderTurn(d.snapshot, 0)
      else
        && s.driver.session.Some? && s.driver.session.value in s.transcripts
        && Sessions.Completes(s.transcripts[s.driver.session.value], d.prompt, d.snapshot, d.fromIndex)
  }

  predicate StartsSafely(s: Seat, steps: seq<Step>)
    decreases |steps|
  {
    steps == [] ||
    ((steps[0] == StartTurn ==> StartIsSafe(s)) && StartsSafely(Advance(s, steps[0]), steps[1..]))
  }

  // ---------------------------------------------------------------------------------------------
  // Every step keeps the invariant
  // ---------------------------------------------------------------------------------------------

  lemma {:induction false} PendingStartIsSafe(s: Seat)
    requires SeatOk(s)
    ensures StartIsSafe(s)
  {
    if s.pending.Some? && !s.pending.value.coldStart {
      var d := s.pending.value;
      Sessions.PromptCompletes(s.transcripts[s.driver.session.value], s.applied.value, d.snapshot);
    }
  }

  lemma {:induction false} ExecuteKeepsSeatOk(
    s: Seat, executionId: string, snapshot: Snapshot, windowTokens: Option<real>)
    requires SeatOk(s)
    ensures SeatOk(Advance(s, Execute(executionId, snapshot, windowTokens)))
  {
    if s.scope == Open && !s.busy && InSync(s) {
      Rec.IncrementalIffAppendOnly(s.record.value, s.applied.value, snapshot, windowTokens);
    }
    hide RenderTurn, Sessions.Holds;
  }

  lemma RecordIsKept(s: Seat, s': Seat)
    requires RecordOk(s) && s'.record == s.record && s'.applied == s.applied && s'.transcripts == s.transcripts
    requires s'.driver.session == s.driver.session && s'.driver.epoch == s.driver.epoch
    ensures RecordOk(s')
  {
  }

  lemma {:induction false} StartKeepsSeatOk(s: Seat)
    requires SeatOk(s)
    ensures SeatOk(Advance(s, StartTurn))
  {
    hide RenderTurn, Rec.AppendOnly, RecordOk;
    if s.pending.Some? {
      var d := s.pending.value;
      Runs.AdvanceKeepsDriverOk(s.driver, Runs.Begin(d.executionId, d.coldStart));
      RecordIsKept(s, Advance(s, StartTurn));
    }
  }

  lemma {:induction false} LateCallbackKeepsSeatOk(s: Seat, i: nat, c: Race.Callback)
    requires SeatOk(s) && i < |s.driver.turns| && s.driver.active != Some(i)
    ensures SeatOk(Advance(s, Callback(i, c)))
  {
    Runs.AdvanceKeepsDriverOk(s.driver, Runs.Call(i, c));
    Race.HandleKeepsOpen(Runs.FocusOn(s.driver, i), c);
    Race.HandleSteps(Runs.FocusOn(s.driver, i), c);
  }

  lemma {:induction false} GrownHolds(s: Seat, d: Dispatch)
    requires RecordOk(s) && Fits(s, d)
    ensures Sessions.Holds(Grown(s.transcripts, d, s.driver.session), d.snapshot)
  {
    if d.coldStart {
      Sessions.OpeningHolds([], d.snapshot);
    } else {
      Sessions.ContinuedHolds(s.transcripts[s.driver.session.value], s.applied.value, d.snapshot);
    }
    hide Sessions.Holds, Sessions.Continued, Sessions.Opened, RenderTurn, Rec.Describes;
  }

  lemma {:induction false} CompletionEnds(s: Seat, i: nat, c: Race.Callback)
    requires SeatOk(s) && s.driver.active == Some(i) && CompletesWith(s, i, c)
    ensures var (t, driver) := (s.driver.turns[i], Runs.Advance(s.driver, Runs.Call(i, c)));
            && t.reply.Some? && !t.cancelling && driver.session.Some? && driver.epoch == s.driver.epoch
            && driver.turns[i].resume == t.resume
            && driver.turns[i].terminals[0] == Race.Completed(t.reply.value.text, Race.Reported(t.reply.value.usage))
  {
    hide Race.Handle, Race.Reported, RenderTurn, Sessions.Holds, Rec.Describes;
    Race.HandleSteps(Runs.FocusOn(s.driver, i), c);
  }

  /** What a completion does, in terms of the dispatch and the reply of its turn. */
  lemma {:induction false} CompletionSettles(s: Seat, i: nat, c: Race.Callback)
    requires SeatOk(s) && s.driver.active == Some(i) && CompletesWith(s, i, c)
    ensures s.driver.turns[i].reply.Some? && !s.driver.turns[i].cancelling
    ensures var (s', d, reply) := (Advance(s, Callback(i, c)), s.dispatches[i], s.driver.turns[i].reply.value);
            && s'.driver.session.Some? && s'.driver.epoch == s.driver.epoch
            && s'.transcripts == s.transcripts[s'.driver.session.value := Grown(s.transcripts, d, s.driver.session)]
            && if Loses(s, i, c) then s'.record == s.record && s'.applied == s.applied
               else
                 && s'.applied == Some(d.snapshot)
                 && s'.record == Some(Rec.Apply(s.record, d.snapshot, d.executionId, s.driver.epoch,
                                                if reply.usage.inputTokens.Some? then reply.usage.inputTokens.value
                                                else 0.0))
  {
    hide Runs.Advance, RecordOk, Fits, Rec.Apply, RenderTurn, Sessions.Opened, Sessions.Continued;
    CompletionEnds(s, i, c);
    assert ActiveOk(s, i);
    assert Grown(s.transcripts, s.dispatches[i], s.driver.turns[i].resume) ==
           Grown(s.transcripts, s.dispatches[i], s.driver.session);
  }

  /**
   * A completed turn leaves a session that has been told the whole newest snapshot. The record says so
   * exactly if no reported count is negative, with the turn's tokens and id; otherwise it stays as it was.
   */
  lemma {:induction false} CompletionDelivers(s: Seat, i: nat, c: Race.Callback)
    requires SeatOk(s) && s.driver.active == Some(i)
    requires Completes(s.driver, Runs.Advance(s.driver, Runs.Call(i, c)), i)
    ensures s.driver.turns[i].reply.Some?
    ensures var (s', inputTokens) := (Advance(s, Callback(i, c)), s.driver.turns[i].reply.value.usage.inputTokens);
            && s'.driver.session.Some? && s'.driver.session.value in s'.transcripts
            && Sessions.Holds(s'.transcripts[s'.driver.session.value], s.dispatches[i].snapshot)
            && s'.driver.epoch == s.driver.epoch
            && if Loses(s, i, c) then s'.record == s.record && s'.applied == s.applied
               else
                 && s'.applied == Some(s.dispatches[i].snapshot)
                 && s'.record.Some? && s'.record.value.sessionEpoch == s.driver.epoch
                 && Rec.Describes(s'.record.value, s.dispatches[i].snapshot)
                 && 1 <= s'.record.value.executionCount <= Rec.SESSION_MAX_EXECUTIONS
                 && s'.record.value.cumulativeInputTokens ==
                    (if InSync(s) then s.record.value.cumulativeInputTokens else 0.0)
                    + (if inputTokens.Some? then inputTokens.value else 0.0)
                 && s.dispatches[i].executionId in s'.record.value.executionIds
  {
    hide Advance, Loses, Grown, Sessions.Holds, RenderTurn;
    CompletionSettles(s, i, c);
    GrownHolds(s, s.dispatches[i]);
  }

  /**
   * An active turn that ends in any other way leaves no session and a later epoch than it began with,
   * so that the next accepted dispatch sends the whole discussion.
   */
  lemma {:induction false} OtherEndingForcesFull(s: Seat, i: nat, c: Race.Callback)
    requires SeatOk(s) && s.driver.active == Some(i)
    requires var driver := Runs.Advance(s.driver, Runs.Call(i, c));
             driver.turns[i].settled && !Completes(s.driver, driver, i)
    ensures var s' := Advance(s, Callback(i, c));
            && s'.driver.session == None
            && s'.driver.epoch > s'.driver.turns[i].startEpoch
            && s'.record == s.record && !InSync(s')
            && forall snapshot, w :: Rec.Decide(s'.record, snapshot, s'.driver.epoch, w).Full?
  {
    Race.HandleSteps(Runs.FocusOn(s.driver, i), c);
  }

  lemma {:induction false} CompletionKeepsRecordOk(s: Seat, i: nat, c: Race.Callback)
    requires SeatOk(s) && s.driver.active == Some(i) && (Loses(s, i, c) ==> MayGoUnrecorded(s, i))
    requires CompletesWith(s, i, c)
    ensures RecordOk(Advance(s, Callback(i, c)))
  {
    hide Advance, Loses, RenderTurn, Rec.Describes, Sessions.Discussion;
    var (s', d) := (Advance(s, Callback(i, c)), s.dispatches[i]);
    CompletionDelivers(s, i, c);
    assert ActiveOk(s, i);
    if Loses(s, i, c) && !d.coldStart {
      var t := s'.transcripts[s'.driver.session.value];
      assert s.applied.value.items == d.snapshot.items;
      Sessions.DiscussionDependsOn(s.applied.value.(contextRevision := t.revision),
                                   d.snapshot.(contextRevision := t.revision));
      assert Sessions.Holds(t, s.applied.value);
    }
  }

  lemma {:induction false} CompletionFrees(s: Seat, i: nat, c: Race.Callback)
    requires SeatOk(s) && s.driver.active == Some(i) && CompletesWith(s, i, c)
    ensures var driver := Runs.Advance(s.driver, Runs.Call(i, c));
            && Runs.DriverOk(driver) && driver.active == None && |driver.turns| == |s.driver.turns|
            && (forall j | 0 <= j < |driver.turns| :: driver.turns[j].settled)
            && (driver.phase == s.driver.phase || driver.phase == Race.Ready)
  {
    hide Race.Handle, RecordOk, ActiveOk;
    Runs.AdvanceKeepsDriverOk(s.driver, Runs.Call(i, c));
    Race.HandleKeepsOpen(Runs.FocusOn(s.driver, i), c);
    Race.HandleSteps(Runs.FocusOn(s.driver, i), c);
  }

  lemma {:induction false} CompletionKeepsSeatOk(s: Seat, i: nat, c: Race.Callback)
    requires SeatOk(s) && s.driver.active == Some(i) && (Loses(s, i, c) ==> MayGoUnrecorded(s, i))
    requires CompletesWith(s, i, c)
    ensures SeatOk(Advance(s, Callback(i, c)))
  {
    hide Runs.Advance, RecordOk, ActiveOk, Fits, Grown, Race.Conforms, Rec.Apply;
    CompletionKeepsRecordOk(s, i, c);
    CompletionFrees(s, i, c);
  }

  lemma {:induction false} OtherCallbackKeepsSeatOk(s: Seat, i: nat, c: Race.Callback)
    requires SeatOk(s) && s.driver.active == Some(i) && !CompletesWith(s, i, c)
    ensures SeatOk(Advance(s, Callback(i, c)))
  {
    hide Race.Handle, Race.UsageConforms, Grown, RenderTurn, Sessions.Holds;
    Runs.AdvanceKeepsDriverOk(s.driver, Runs.Call(i, c));
    Race.HandleKeepsOpen(Runs.FocusOn(s.driver, i), c);
    Race.HandleSteps(Runs.FocusOn(s.driver, i), c);
    if Runs.Advance(s.driver, Runs.Call(i, c)).turns[i].settled { OtherEndingForcesFull(s, i, c); }
  }

  lemma {:induction false} ActiveCallbackKeepsSeatOk(s: Seat, i: nat, c: Race.Callback)
    requires SeatOk(s) && s.driver.active == Some(i) && (Loses(s, i, c) ==> MayGoUnrecorded(s, i))
    ensures SeatOk(Advance(s, Callback(i, c)))
  {
    hide SeatOk, Advance, Loses;
    if CompletesWith(s, i, c) { CompletionKeepsSeatOk(s, i, c); } else { OtherCallbackKeepsSeatOk(s, i, c); }
  }

  lemma {:induction false} LatchKeepsSeatOk(s: Seat, step: Step)
    requires SeatOk(s) && (step.Cancel? || (step == CloseBegin && s.pending == None))
    ensures SeatOk(Advance(s, step))
  {
    match step
    case Cancel(executionId) => Runs.AdvanceKeepsDriverOk(s.driver, Runs.Cancel(executionId));
    case CloseBegin => Runs.AdvanceKeepsDriverOk(s.driver, Runs.CloseBegin);
  }

  /** Once the scope's executions are released, nothing a turn may still say is recorded. */
  lemma {:induction false} ReleasedRecordsNothing(s: Seat, i: nat, c: Race.Callback)
    requires s.scope == Closed
    ensures var s' := Advance(s, Callback(i, c)); s'.record == s.record && s'.applied == s.applied
  {
    hide Race.Handle, Grown, Rec.Apply;
  }

  /** The end of a close forgets the session's record, and closes the driver. */
  lemma {:induction false} CloseForgets(s: Seat)
    requires SeatOk(s) && s.scope == Closing
    ensures var s' := Advance(s, CloseDriverDone);
            && s'.scope == DriverClosed && s'.record == None
            && s'.driver.phase == Race.Closed && s'.driver.active == None
  {
    CloseDriverDoneKeepsSeatOk(s);
    Runs.CloseEndsTurn(s.driver);
  }

  /**
   * A cancel of the active turn of an open scope latches that turn and drops its session at once: whatever
   * the turn may still say, the next accepted dispatch sends the whole discussion. It does nothing else.
   */
  lemma {:induction false} CancelForcesFull(s: Seat, executionId: string)
    requires SeatOk(s) && s.scope == Open
    ensures var s' := Advance(s, Cancel(executionId));
            && s' == s.(driver := s'.driver)
            && if s.driver.active.Some? && s.driver.turns[s.driver.active.value].executionId == executionId then
                 && s'.driver.active == s.driver.active && s'.driver.turns[s.driver.active.value].cancelling
                 && s'.driver.session == None && s'.driver.epoch == s.driver.epoch + 1
                 && forall snapshot, w :: Rec.Decide(s'.record, snapshot, s'.driver.epoch, w).Full?
               else s' == s
  {
  }

  lemma {:induction false} CloseDriverDoneKeepsSeatOk(s: Seat)
    requires SeatOk(s)
    ensures SeatOk(Advance(s, CloseDriverDone))
  {
    if s.scope == Closing {
      Runs.AdvanceKeepsDriverOk(s.driver, Runs.CloseEnd);
      if s.driver.closeTurn.Some? && s.driver.closeTurn.value < |s.driver.turns| {
        Race.HandleSteps(Runs.FocusOn(s.driver, s.driver.closeTurn.value), Race.LatchFinished);
      }
    }
  }

  lemma {:induction false} StepKeepsSeatOk(s: Seat, step: Step)
    requires SeatOk(s) && StepIsCareful(s, step)
    ensures SeatOk(Advance(s, step))
  {
    match step
    case Execute(executionId, snapshot, w) => ExecuteKeepsSeatOk(s, executionId, snapshot, w);
    case StartTurn => StartKeepsSeatOk(s);
    case Callback(i, c) =>
      if s.driver.active == Some(i) {
        ActiveCallbackKeepsSeatOk(s, i, c);
      } else if i < |s.driver.turns| {
        LateCallbackKeepsSeatOk(s, i, c);
      }
    case Cancel(_) => LatchKeepsSeatOk(s, step);
    case CloseBegin => LatchKeepsSeatOk(s, step);
    case CloseDriverDone => CloseDriverDoneKeepsSeatOk(s);
    case _ =>
  }

  /**
   * Over every run in which scopes close only while nothing is pending, and negative counts come only where
   * they do no harm, each incremental prompt is sent with `--resume` of the session that completed its
   * prefix, under the same topic and background.
   */
  lemma {:induction false} IncrementalRefinesFull(s: Seat, steps: seq<Step>)
    requires SeatOk(s) && Careful(s, steps)
    ensures SeatOk(Run(s, steps)) && StartsSafely(s, steps)
    decreases |steps|
  {
    if steps != [] {
      PendingStartIsSafe(s);
      StepKeepsSeatOk(s, steps[0]);
      IncrementalRefinesFull(Advance(s, steps[0]), steps[1..]);
    }
  }

  lemma {:induction false} RunsFromANewSeat(steps: seq<Step>)
    requires Careful(NEW_SEAT, steps)
    ensures StartsSafely(NEW_SEAT, steps)
    ensures var s := Run(NEW_SEAT, steps);
            s.record.Some? ==> s.record.value.executionCount <= Rec.SESSION_MAX_EXECUTIONS
    ensures var s := Run(NEW_SEAT, steps);
            InSync(s) ==> s.driver.session.Some? && s.driver.session.value in s.transcripts && s.applied.Some?
                          && Sessions.Holds(s.transcripts[s.driver.session.value], s.applied.value)
  {
    IncrementalRefinesFull(NEW_SEAT, steps);
  }

  // ---------------------------------------------------------------------------------------------
  // Commands that report no negative counts
  // ---------------------------------------------------------------------------------------------

  predicate ReportsHonestly(step: Step) {
    step.Callback? && step.callback.Output? && step.callback.reply.Some? ==>
      Race.UsageConforms(step.callback.reply.value.usage)
  }

  /** No reply a turn has given so far names a negative count. */
  ghost predicate RepliesConform(s: Seat) {
    forall i | 0 <= i < |s.driver.turns| && s.driver.turns[i].reply.Some? ::
      Race.UsageConforms(s.driver.turns[i].reply.value.usage)
  }

  predicate ClosesIdle(s: Seat, steps: seq<Step>)
    decreases |steps|
  {
    steps == [] || ((steps[0] == CloseBegin ==> s.pending == None) && ClosesIdle(Advance(s, steps[0]), steps[1..]))
  }

  lemma {:induction false} StepKeepsReplies(s: Seat, step: Step)
    requires RepliesConform(s) && ReportsHonestly(step)
    ensures RepliesConform(Advance(s, step))
  {
    if step.Callback? && step.turn < |s.driver.turns| {
      Race.HandleTellsNews(Runs.FocusOn(s.driver, step.turn), step.callback);
    }
    if step.CloseDriverDone? && s.driver.closeTurn.Some? && s.driver.closeTurn.value < |s.driver.turns| {
      Race.HandleTellsNews(Runs.FocusOn(s.driver, s.driver.closeTurn.value), Race.LatchFinished);
    }
    hide Race.Handle, Race.UsageConforms;
  }

  /** With such commands only closing over a pending dispatch can go wrong. */
  lemma {:induction false} HonestRunsAreCareful(s: Seat, steps: seq<Step>)
    requires RepliesConform(s) && ClosesIdle(s, steps) && forall k | 0 <= k < |steps| :: ReportsHonestly(steps[k])
    ensures Careful(s, steps)
    decreases |steps|
  {
    hide Advance, ReportsHonestly;
    if steps != [] {
      StepKeepsReplies(s, steps[0]);
      HonestRunsAreCareful(Advance(s, steps[0]), steps[1..]);
    }
  }
}
