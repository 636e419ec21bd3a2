/** How many turns a session may serve: at most `SESSION_MAX_EXECUTIONS` turns begin in one epoch. */
module SeatEpochs {
  import opened Options
  import opened SnapshotRender
  import opened Seat
  import Rec = SessionReconciler
  import Race = TurnRace
  import Runs = DriverRuns
  import Sessions = Transcripts

  /** The turns of a driver that began in epoch `e`. */
  function TurnsOf(d: Runs.Driver, e: nat): set<nat> {
    set i: nat | i < |d.turns| && d.turns[i].startEpoch == e
  }

  /** The turns of the present epoch that the record counts. */
  function Recorded(s: Seat): nat {
    if InSync(s) then s.record.value.executionCount else 0
  }

  /** The turn of the present epoch that may still be recorded. */
  function Unfinished(d: Runs.Driver): nat {
    if d.active.Some? && d.active.value < |d.turns| && !d.turns[d.active.value].cancelling then 1 else 0
  }

  /** The completions a step loses. */
  function Losses(s: Seat, step: Step): nat {
    if step.Callback? && Loses(s, step.turn, step.callback) then 1 else 0
  }

  function Lost(s: Seat, steps: seq<Step>): nat
    decreases |steps|
  {
    if steps == [] then 0 else Losses(s, steps[0]) + Lost(Advance(s, steps[0]), steps[1..])
  }

  /**
   * While its scope is open or closing, a turn of the driver's present epoch is recorded, active, or one
   * of the `lost` ones; so no epoch has more turns than one session may serve, and the lost ones.
   */
  ghost predicate EpochsOk(s: Seat, lost: nat) {
    && (forall i | 0 <= i < |s.driver.turns| :: s.driver.turns[i].startEpoch <= s.driver.epoch)
    && (forall e :: |TurnsOf(s.driver, e)| <= Rec.SESSION_MAX_EXECUTIONS + lost)
    && (s.scope == Open || s.scope == Closing ==>
          |TurnsOf(s.driver, s.driver.epoch)| <= Recorded(s) + Unfinished(s.driver) + lost)
  }

  /** The driver's turns are the same ones, and its epoch is the same or one nobody has begun in. */
  predicate SameTurns(d: Runs.Driver, d': Runs.Driver) {
    && |d'.turns| == |d.turns| && d'.epoch >= d.epoch
    && forall i | 0 <= i < |d.turns| :: d'.turns[i].startEpoch == d.turns[i].startEpoch
  }

  lemma {:induction false} SameTurnsSameEpochs(d: Runs.Driver, d': Runs.Driver, e: nat)
    requires SameTurns(d, d')
    ensures TurnsOf(d', e) == TurnsOf(d, e)
  {
  }

  lemma {:induction false} LaterEpochIsEmpty(d: Runs.Driver, e: nat)
    requires forall i | 0 <= i < |d.turns| :: d.turns[i].startEpoch < e
    ensures TurnsOf(d, e) == {}
  {
  }

  /** Steps that begin no turn. */
  lemma {:induction false} KeepsEpochsOk(s: Seat, s': Seat, lost: nat, lost': nat)
    requires EpochsOk(s, lost) && SameTurns(s.driver, s'.driver) && lost <= lost'
    requires s'.scope == Open || s'.scope == Closing ==>
               && (s.scope == Open || s.scope == Closing)
               && (s'.driver.epoch == s.driver.epoch ==>
                     Recorded(s) + Unfinished(s.driver) + lost <= Recorded(s') + Unfinished(s'.driver) + lost')
    ensures EpochsOk(s', lost')
  {
    forall e ensures |TurnsOf(s'.driver, e)| <= Rec.SESSION_MAX_EXECUTIONS + lost' {
      SameTurnsSameEpochs(s.driver, s'.driver, e);
    }
    if s'.driver.epoch == s.driver.epoch {
      SameTurnsSameEpochs(s.driver, s'.driver, s.driver.epoch);
    } else {
      LaterEpochIsEmpty(s'.driver, s'.driver.epoch);
    }
  }

  lemma {:induction false} StartKeepsEpochsOk(s: Seat, lost: nat)
    requires SeatOk(s) && EpochsOk(s, lost)
    ensures EpochsOk(Advance(s, StartTurn), lost)
  {
    hide RecordOk, RenderTurn, Rec.AppendOnly;
    if s.pending.Some? {
      var d' := Advance(s, StartTurn).driver;
      forall e ensures |TurnsOf(d', e)| <= |TurnsOf(s.driver, e)| + (if e == s.driver.epoch then 1 else 0) {
        assert TurnsOf(d', e) <= TurnsOf(s.driver, e) + {|s.driver.turns|};
        if e == s.driver.epoch {
          assert TurnsOf(d', e) == TurnsOf(s.driver, e) + {|s.driver.turns|};
        } else {
          assert TurnsOf(d', e) == TurnsOf(s.driver, e);
        }
      }
    }
  }

  lemma {:induction false} CallbackKeepsTurns(s: Seat, step: Step)
    requires SeatOk(s) && step.Callback?
    ensures SameTurns(s.driver, Advance(s, step).driver) && Advance(s, step).scope == s.scope
  {
    hide Race.Handle, RenderTurn, Rec.Apply, Rec.AppendOnly, Rec.Describes, Sessions.Holds, Grown;
    if step.turn < |s.driver.turns| { Race.HandleSteps(Runs.FocusOn(s.driver, step.turn), step.callback); }
  }

  /** What the record gains when a turn completes, the turn no longer stands for. */
  ghost predicate Balances(s: Seat, s': Seat, lost: nat) {
    (s'.scope == Open || s'.scope == Closing) && s'.driver.epoch == s.driver.epoch ==>
      Recorded(s) + Unfinished(s.driver) <= Recorded(s') + Unfinished(s'.driver) + lost
  }

  lemma {:induction false} ActiveCallbackBalances(s: Seat, step: Step)
    requires SeatOk(s) && step.Callback? && s.driver.active == Some(step.turn)
    ensures Balances(s, Advance(s, step), Losses(s, step))
  {
    hide Race.Handle, RenderTurn, Rec.AppendOnly, Rec.Describes, Sessions.Holds, Grown;
    Race.HandleSteps(Runs.FocusOn(s.driver, step.turn), step.callback);
  }

  lemma {:induction false} LateCallbackBalances(s: Seat, step: Step)
    requires SeatOk(s) && step.Callback? && s.driver.active != Some(step.turn)
    ensures Balances(s, Advance(s, step), Losses(s, step))
  {
    hide Race.Handle, RenderTurn, Rec.Apply, Rec.AppendOnly, Rec.Describes, Sessions.Holds, Grown;
    if step.turn < |s.driver.turns| { Race.HandleSteps(Runs.FocusOn(s.driver, step.turn), step.callback); }
  }

  lemma {:induction false} CallbackKeepsEpochsOk(s: Seat, step: Step, lost: nat)
    requires SeatOk(s) && StepIsCareful(s, step) && EpochsOk(s, lost) && step.Callback?
    ensures EpochsOk(Advance(s, step), lost + Losses(s, step))
  {
    hide EpochsOk, Advance, SeatOk, Recorded, Unfinished, Losses, StepIsCareful, SameTurns;
    var s' := Advance(s, step);
    CallbackKeepsTurns(s, step);
    if s.driver.active == Some(step.turn) { ActiveCallbackBalances(s, step); } else { LateCallbackBalances(s, step); }
    KeepsEpochsOk(s, s', lost, lost + Losses(s, step));
  }

  lemma {:induction false} LatchKeepsEpochsOk(s: Seat, step: Step, lost: nat)
    requires SeatOk(s) && EpochsOk(s, lost) && (step.Cancel? || step.CloseBegin?)
    ensures EpochsOk(Advance(s, step), lost)
  {
    hide RecordOk, Fits, RenderTurn;
    KeepsEpochsOk(s, Advance(s, step), lost, lost);
  }

  lemma {:induction false} CloseDriverDoneKeepsEpochsOk(s: Seat, lost: nat)
    requires SeatOk(s) && EpochsOk(s, lost)
    ensures EpochsOk(Advance(s, CloseDriverDone), lost)
  {
    if s.scope == Closing && s.driver.closeTurn.Some? && s.driver.closeTurn.value < |s.driver.turns| {
      Race.HandleSteps(Runs.FocusOn(s.driver, s.driver.closeTurn.value), Race.LatchFinished);
    }
    KeepsEpochsOk(s, Advance(s, CloseDriverDone), lost, lost);
  }

  lemma {:induction false} ReopenKeepsEpochsOk(s: Seat, lost: nat)
    requires SeatOk(s) && EpochsOk(s, lost)
    ensures EpochsOk(Advance(s, Reopen), lost)
  {
    if s.scope == Closed {
      forall e ensures TurnsOf(PREWARMED, e) == {} { LaterEpochIsEmpty(PREWARMED, e); }
    }
  }

  lemma {:induction false} StepKeepsEpochsOk(s: Seat, step: Step, lost: nat)
    requires SeatOk(s) && StepIsCareful(s, step) && EpochsOk(s, lost)
    ensures EpochsOk(Advance(s, step), lost + Losses(s, step))
  {
    hide RecordOk, ActiveOk, RenderTurn;
    match step
    case StartTurn => StartKeepsEpochsOk(s, lost);
    case Callback(_, _) => CallbackKeepsEpochsOk(s, step, lost);
    case Cancel(_) => LatchKeepsEpochsOk(s, step, lost);
    case CloseBegin => LatchKeepsEpochsOk(s, step, lost);
    case CloseDriverDone => CloseDriverDoneKeepsEpochsOk(s, lost);
    case Reopen => ReopenKeepsEpochsOk(s, lost);
    case _ => KeepsEpochsOk(s, Advance(s, step), lost, lost);
  }

  lemma {:induction false} RunKeepsEpochsOk(s: Seat, steps: seq<Step>, lost: nat)
    requires SeatOk(s) && Careful(s, steps) && EpochsOk(s, lost)
    ensures EpochsOk(Run(s, steps), lost + Lost(s, steps))
    decreases |steps|
  {
    if steps != [] {
      StepKeepsSeatOk(s, steps[0]);
      StepKeepsEpochsOk(s, steps[0], lost);
      RunKeepsEpochsOk(Advance(s, steps[0]), steps[1..], lost + Losses(s, steps[0]));
    }
  }

  lemma {:induction false} NothingIsLost(s: Seat, steps: seq<Step>)
    requires RepliesConform(s) && forall k | 0 <= k < |steps| :: ReportsHonestly(steps[k])
    ensures Lost(s, steps) == 0
    decreases |steps|
  {
    hide Advance, ReportsHonestly;
    if steps != [] {
      StepKeepsReplies(s, steps[0]);
      NothingIsLost(Advance(s, steps[0]), steps[1..]);
    }
  }

  /**
   * However turns, cancels and closes interleave, at most 32 turns of a driver begin in one session epoch,
   * and one more for each completion that was not recorded: if no output reports a negative count, none.
   */
  lemma {:induction false} AtMost32TurnsPerEpoch(steps: seq<Step>, e: nat)
    requires Careful(NEW_SEAT, steps)
    ensures |TurnsOf(Run(NEW_SEAT, steps).driver, e)| <= 32 + Lost(NEW_SEAT, steps)
    ensures (forall k | 0 <= k < |steps| :: ReportsHonestly(steps[k])) ==>
              |TurnsOf(Run(NEW_SEAT, steps).driver, e)| <= 32
  {
    forall e ensures TurnsOf(PREWARMED, e) == {} { LaterEpochIsEmpty(PREWARMED, e); }
    RunKeepsEpochsOk(NEW_SEAT, steps, 0);
    if forall k | 0 <= k < |steps| :: ReportsHonestly(steps[k]) { NothingIsLost(NEW_SEAT, steps); }
  }
}
