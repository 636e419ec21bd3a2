/** All turns of one driver over any interleaving of their callbacks, cancels and closes. */
module DriverRuns {
  import opened Options
  import opened TurnRace

  datatype Driver = Driver(
    phase: Phase,
    epoch: nat,
    session: Option<string>,
    active: Option<nat>,
    turns: seq<Turn>,              // every turn ever begun
    closeTurn: Option<nat>)        // the turn that was active when `close` began

  datatype Step =
    | Begin(executionId: string, coldStart: bool)
    | Call(turn: nat, callback: Callback)
    | Cancel(executionId: string)
    | CloseBegin
    | CloseEnd

  const NEW_DRIVER := Driver(Cold, 0, None, None, [], None)

  function FocusOn(d: Driver, i: nat): Focus
    requires i < |d.turns|
  {
    Focus(d.phase, d.epoch, d.session,
          if d.active == None then Nobody else if d.active == Some(i) then This else Another,
          d.turns[i])
  }

  function PutBack(d: Driver, i: nat, f: Focus): Driver
    requires i < |d.turns|
  {
    d.(phase := f.phase, epoch := f.epoch, session := f.session,
       active := if f.active == Nobody then None else d.active,
       turns := d.turns[i := f.turn])
  }

  function LatchActive(d: Driver): Driver {
    if d.active.Some? && d.active.value < |d.turns| then
      PutBack(d, d.active.value, Latch(FocusOn(d, d.active.value)))
    else d
  }

  function Advance(d: Driver, s: Step): Driver {
    match s
    case Begin(executionId, coldStart) =>
      d.(phase := Busy, active := Some(|d.turns|),
         turns := d.turns + [NewTurn(executionId, coldStart, d.epoch, d.session)])
    case Call(i, c) => if i < |d.turns| then PutBack(d, i, Handle(FocusOn(d, i), c)) else d
    case Cancel(executionId) =>
      if d.active.Some? && d.active.value < |d.turns| && d.turns[d.active.value].executionId == executionId
      then LatchActive(d) else d
    case CloseBegin => LatchActive(d.(phase := Closing, closeTurn := d.active))
    case CloseEnd =>
      var e := if d.closeTurn.Some? && d.closeTurn.value < |d.turns|
               then PutBack(d, d.closeTurn.value, Handle(FocusOn(d, d.closeTurn.value), LatchFinished)) else d;
      e.(phase := Closed)
  }

  function Run(d: Driver, steps: seq<Step>): Driver
    decreases |steps|
  {
    if steps == [] then d else Run(Advance(d, steps[0]), steps[1..])
  }

  ghost predicate DriverOk(d: Driver) {
    && (forall i | 0 <= i < |d.turns| :: TurnOk(d.turns[i]))
    && (d.active.Some? ==> d.active.value < |d.turns| && !d.turns[d.active.value].settled)
  }

  lemma {:induction false} AdvanceKeepsDriverOk(d: Driver, s: Step)
    requires DriverOk(d)
    ensures DriverOk(Advance(d, s))
    ensures |d.turns| <= |Advance(d, s).turns|
    ensures forall i | 0 <= i < |d.turns| :: var (t, u) := (d.turns[i], Advance(d, s).turns[i]);
              && (t.cancelling ==> u.cancelling)
              && (t.settled ==> u.settled && u.terminals == t.terminals)
  {
    match s
    case Call(i, c) =>
      if i < |d.turns| { HandleSteps(FocusOn(d, i), c); }
    case CloseEnd =>
      if d.closeTurn.Some? && d.closeTurn.value < |d.turns| {
        HandleSteps(FocusOn(d, d.closeTurn.value), LatchFinished);
      }
    case _ =>
  }

  /**
   * Under every interleaving a turn emits at most one terminal, and its promise is resolved exactly
   * when it did; what it emitted never changes again.
   */
  lemma {:induction false} EveryRunIsOk(d: Driver, steps: seq<Step>)
    requires DriverOk(d)
    ensures DriverOk(Run(d, steps))
    ensures |d.turns| <= |Run(d, steps).turns|
    ensures forall i | 0 <= i < |d.turns| :: var (t, u) := (d.turns[i], Run(d, steps).turns[i]);
              && (t.cancelling ==> u.cancelling)
              && (t.settled ==> u.settled && u.terminals == t.terminals)
    decreases |steps|
  {
    if steps != [] {
      AdvanceKeepsDriverOk(d, steps[0]);
      EveryRunIsOk(Advance(d, steps[0]), steps[1..]);
    }
  }

  lemma {:induction false} AtMostOneTerminal(steps: seq<Step>, i: nat)
    requires i < |Run(NEW_DRIVER, steps).turns|
    ensures var t := Run(NEW_DRIVER, steps).turns[i];
            && |t.terminals| <= 1
            && (t.resolutions == 1 <==> |t.terminals| == 1)
            && t.resolutions <= 1
  {
    EveryRunIsOk(NEW_DRIVER, steps);
  }

  /** Once cancel or close has latched an unsettled turn, its terminal can only be `user_cancelled`. */
  lemma {:induction false} LatchDecidesTerminal(before: seq<Step>, latch: Step, after: seq<Step>, i: nat)
    requires var d := Run(NEW_DRIVER, before);
             && d.active == Some(i) && i < |d.turns|
             && (latch == CloseBegin || latch == Cancel(d.turns[i].executionId))
    ensures var d := Run(Advance(Run(NEW_DRIVER, before), latch), after);
            && i < |d.turns|
            && d.turns[i].cancelling
            && (d.turns[i].settled ==> d.turns[i].terminals == [Interrupted(UserCancelled)])
  {
    EveryRunIsOk(NEW_DRIVER, before);
    var d := Run(NEW_DRIVER, before);
    AdvanceKeepsDriverOk(d, latch);
    assert Advance(d, latch).turns[i].cancelling;
    EveryRunIsOk(Advance(d, latch), after);
  }

  /**
   * A turn begins as the active one, unsettled and unlatched. It resumes the driver's session unless it is a
   * cold start, which resumes none; the driver's other turns and its session are left alone.
   */
  lemma TurnBegins(d: Driver, executionId: string, coldStart: bool)
    ensures var e := Advance(d, Begin(executionId, coldStart));
            && e.active == Some(|d.turns|) && |e.turns| == |d.turns| + 1 && e.turns[..|d.turns|] == d.turns
            && e.session == d.session && e.epoch == d.epoch && e.phase == Busy
            && var t := e.turns[|d.turns|];
            && t.executionId == executionId && t.coldStart == coldStart && t.startEpoch == d.epoch
            && t.resume == (if coldStart then None else d.session)
            && !t.settled && !t.cancelling && !t.attached && t.terminals == [] && t.reply == None
            && t.drain == Drain(false, None, false, false, false, false, false)
  {
  }

  /** When a close is done the driver is closed, and the turn it was closed over, if unsettled, is interrupted. */
  lemma {:induction false} CloseEndsTurn(d: Driver)
    requires DriverOk(d)
    ensures var e := Advance(d, CloseEnd);
            && e.phase == Closed
            && (d.closeTurn.Some? && d.closeTurn.value < |d.turns| && d.turns[d.closeTurn.value].cancelling ==>
                  && e.turns[d.closeTurn.value].settled
                  && e.turns[d.closeTurn.value].terminals == [Interrupted(UserCancelled)]
                  && (d.active == d.closeTurn && !d.turns[d.closeTurn.value].settled ==> e.active == None))
  {
  }

  /** A busy driver has a turn to wait for. */
  predicate BusyWithTurn(d: Driver) {
    d.phase == Busy ==> d.active.Some?
  }

  /** In no run is a driver busy without an active turn: whatever ends one also makes room for the next. */
  lemma {:induction false} NeverBusyForNothing(d: Driver, steps: seq<Step>)
    requires BusyWithTurn(d)
    ensures BusyWithTurn(Run(d, steps))
    decreases |steps|
  {
    hide Handle;
    if steps != [] {
      var s := steps[0];
      if s.Call? && s.turn < |d.turns| { HandleFrees(FocusOn(d, s.turn), s.callback); }
      if s.CloseEnd? && d.closeTurn.Some? && d.closeTurn.value < |d.turns| {
        HandleFrees(FocusOn(d, d.closeTurn.value), LatchFinished);
      }
      NeverBusyForNothing(Advance(d, s), steps[1..]);
    }
  }

  // ---------------------------------------------------------------------------------------------
  // Late callbacks
  // ---------------------------------------------------------------------------------------------

  /** The callbacks that ask whether their turn may still be settled. */
  predicate AsksFirst(c: Callback) {
    c.SpawnFailed? || c.SupervisionFailed? || c.GraceTimer? || c.OneshotTimer? || c.TurnTimer?
  }

  /** The turn has given up the driver, or a cancel or close has latched it. */
  predicate GivenUp(d: Driver, i: nat) {
    i < |d.turns| && (d.active != Some(i) || d.turns[i].cancelling)
  }

  lemma {:induction false} StaysGivenUp(d: Driver, steps: seq<Step>, i: nat)
    requires DriverOk(d) && GivenUp(d, i)
    ensures GivenUp(Run(d, steps), i)
    decreases |steps|
  {
    if steps != [] {
      AdvanceKeepsDriverOk(d, steps[0]);
      StaysGivenUp(Advance(d, steps[0]), steps[1..], i);
    }
  }

  /**
   * From the moment a turn ends or is latched, none of its timers and failures, however late they come,
   * ends any turn, drops the session or moves the epoch on; a turn that began in between keeps the driver.
   */
  lemma {:induction false} LateCallbacksAreHarmless(before: seq<Step>, after: seq<Step>, i: nat, c: Callback)
    requires GivenUp(Run(NEW_DRIVER, before), i) && AsksFirst(c)
    ensures var d := Run(Run(NEW_DRIVER, before), after);
            var e := Advance(d, Call(i, c));
            && e.session == d.session && e.epoch == d.epoch && e.active == d.active && |e.turns| == |d.turns|
            && forall j | 0 <= j < |d.turns| ::
                 e.turns[j].terminals == d.turns[j].terminals && e.turns[j].settled == d.turns[j].settled
  {
    EveryRunIsOk(NEW_DRIVER, before);
    StaysGivenUp(Run(NEW_DRIVER, before), after, i);
  }

  /** Before that moment each of them, once it can come, ends the turn and with it the session. */
  lemma {:induction false} DeadlinesEndLiveTurns(d: Driver, i: nat, c: Callback)
    requires DriverOk(d) && i < |d.turns| && !GivenUp(d, i) && AsksFirst(c)
    requires c.SpawnFailed? || d.turns[i].attached
    requires c.GraceTimer? ==> d.turns[i].drain.graceArmed && !d.turns[i].drain.settled
    ensures var e := Advance(d, Call(i, c));
            && e.active == None && e.session == None && e.epoch == d.epoch + 1
            && e.turns[i].terminals == [match c
                                        case OneshotTimer => Failed(OneshotTimeout)
                                        case TurnTimer => Interrupted(Timeout)
                                        case GraceTimer => Failed(StreamDrainTimeout)
                                        case _ => Failed(DriverSpawnFailed)]
            && e.phase == if d.phase == Busy then Ready else d.phase
  {
    assert MaySettle(FocusOn(d, i));
  }

  // ---------------------------------------------------------------------------------------------
  // What a completion goes back to
  // ---------------------------------------------------------------------------------------------

  /** The callback a step is for turn `i`, if any. */
  function CallOf(d: Driver, s: Step, i: nat): seq<Callback> {
    if s.Call? && s.turn == i && i < |d.turns| then [s.callback] else []
  }

  /** The callbacks of turn `i` in a run. */
  function CallsOf(d: Driver, steps: seq<Step>, i: nat): seq<Callback>
    decreases |steps|
  {
    if steps == [] then [] else CallOf(d, steps[0], i) + CallsOf(Advance(d, steps[0]), steps[1..], i)
  }

  /** Each thing on a turn's record was reported by one of its callbacks. */
  ghost predicate Reports(t: Turn, calls: seq<Callback>) {
    && (t.attached ==> Spawned in calls)
    && (t.reply.Some? ==> exists auth :: Output(t.reply, auth) in calls)
    && (t.drain.exitCode.Some? ==> Exit(t.drain.exitCode) in calls)
    && (t.drain.stdoutEnded ==> StdoutEnd in calls)
    && (t.drain.stderrGraceArmed ==> t.drain.stdoutEnded)
  }

  /** A completed turn has replied this, ended its output and exited with 0. */
  ghost predicate Caused(t: Turn, calls: seq<Callback>) {
    t.terminals != [] && t.terminals[0].Completed? ==>
      && Spawned in calls && StdoutEnd in calls && Exit(Some(0)) in calls
      && exists reply, auth ::
           && Output(Some(reply), auth) in calls && !reply.blank
           && t.terminals[0] == TurnRace.Completed(reply.text, Reported(reply.usage))
  }

  lemma {:induction false} HandleKeepsReports(f: Focus, c: Callback, calls: seq<Callback>)
    requires Reports(f.turn, calls)
    ensures Reports(Handle(f, c).turn, calls + [c])
  {
    HandleTellsNews(f, c);
    hide Handle;
  }

  /** Completing takes an exit with 0 and output read to its end. */
  lemma {:induction false} HandleKeepsCaused(f: Focus, c: Callback, calls: seq<Callback>)
    requires FocusOk(f) && Reports(f.turn, calls) && Caused(f.turn, calls)
    ensures Caused(Handle(f, c).turn, calls + [c])
  {
    HandleSteps(f, c);
    hide Handle;
  }

  ghost predicate Explained(d: Driver, i: nat, calls: seq<Callback>) {
    if i < |d.turns| then Reports(d.turns[i], calls) && Caused(d.turns[i], calls) else calls == []
  }

  lemma {:induction false} LatchIsNoNews(d: Driver, i: nat, calls: seq<Callback>)
    requires Explained(d, i, calls)
    ensures Explained(LatchActive(d), i, calls)
  {
    hide Reported;
  }

  lemma {:induction false} CloseEndIsNoNews(d: Driver, i: nat, calls: seq<Callback>)
    requires DriverOk(d) && Explained(d, i, calls)
    ensures Explained(Advance(d, CloseEnd), i, calls)
  {
    hide Reported, TrySettle, FinishSettle;
  }

  lemma {:induction false} AdvanceKeepsExplained(d: Driver, s: Step, i: nat, calls: seq<Callback>)
    requires DriverOk(d) && Explained(d, i, calls)
    ensures Explained(Advance(d, s), i, calls + CallOf(d, s, i))
  {
    hide Handle, Reports, Caused, LatchActive;
    assert calls + [] == calls;
    match s
    case Begin(_, _) => BeginIsNoNews(d, s, i, calls);
    case Call(k, c) =>
      if k == i && i < |d.turns| {
        HandleKeepsReports(FocusOn(d, i), c, calls);
        HandleKeepsCaused(FocusOn(d, i), c, calls);
      }
    case Cancel(_) => LatchIsNoNews(d, i, calls);
    case CloseBegin => LatchIsNoNews(d.(phase := Closing, closeTurn := d.active), i, calls);
    case CloseEnd => CloseEndIsNoNews(d, i, calls);
  }

  lemma {:induction false} BeginIsNoNews(d: Driver, s: Step, i: nat, calls: seq<Callback>)
    requires s.Begin? && Explained(d, i, calls)
    ensures Explained(Advance(d, s), i, calls)
  {
    hide Reported;
  }

  lemma {:induction false} RunKeepsExplained(d: Driver, steps: seq<Step>, i: nat, calls: seq<Callback>)
    requires DriverOk(d) && Explained(d, i, calls)
    ensures Explained(Run(d, steps), i, calls + CallsOf(d, steps, i))
    decreases |steps|
  {
    hide Advance, Explained, DriverOk, CallOf;
    if steps == [] {
      assert calls + [] == calls;
    } else {
      AdvanceKeepsDriverOk(d, steps[0]);
      AdvanceKeepsExplained(d, steps[0], i, calls);
      var now := calls + CallOf(d, steps[0], i);
      RunKeepsExplained(Advance(d, steps[0]), steps[1..], i, now);
      assert now + CallsOf(Advance(d, steps[0]), steps[1..], i) == calls + CallsOf(d, steps, i);
    }
  }

  /**
   * In every run, a turn has completed only if its process was adopted, ended its output and exited with 0,
   * and it completed with a reply it gave, more than white space: if every exit reported of it is another,
   * it has not.
   */
  lemma {:induction false} CompletionHasCause(steps: seq<Step>, i: nat)
    requires i < |Run(NEW_DRIVER, steps).turns|
    ensures Caused(Run(NEW_DRIVER, steps).turns[i], CallsOf(NEW_DRIVER, steps, i))
    ensures var (t, calls) := (Run(NEW_DRIVER, steps).turns[i], CallsOf(NEW_DRIVER, steps, i));
            (forall k | 0 <= k < |calls| && calls[k].Exit? :: calls[k].code != Some(0)) ==>
              forall e | e in t.terminals :: !e.Completed?
  {
    RunKeepsExplained(NEW_DRIVER, steps, i, []);
    EveryRunIsOk(NEW_DRIVER, steps);
    hide Run, CallsOf;
    assert [] + CallsOf(NEW_DRIVER, steps, i) == CallsOf(NEW_DRIVER, steps, i);
  }
}
