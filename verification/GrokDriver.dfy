/**
 * The one-shot driver as an object: shared state and the active turn, both changed in place by
 * callbacks. Every callback is proved to do to the focus exactly what `TurnRace` says.
 */
module GrokDriver {
  import opened Options
  import opened TurnRace

  class ActiveTurn {
    const executionId: string
    const coldStart: bool
    const resume: Option<string>
    var reply: Option<Reply>
    var authFailure: bool
    var cancelling: bool
    var settled: bool
    var attached: bool
    var drain: Drain
    ghost const startEpoch: nat
    ghost var terminals: seq<Ending>
    ghost var resolutions: nat

    constructor (executionId: string, coldStart: bool, epoch: nat, session: Option<string>)
      ensures View() == NewTurn(executionId, coldStart, epoch, session)
    {
      this.executionId, this.coldStart, this.startEpoch := executionId, coldStart, epoch;
      resume := if coldStart then None else session;
      reply, authFailure, cancelling, settled, attached := None, false, false, false, false;
      drain := Drain(false, None, false, false, false, false, false);
      terminals, resolutions := [], 0;
    }

    ghost function View(): Turn
      reads this
    {
      Turn(executionId, coldStart, resume, reply, authFailure, cancelling, settled, attached, drain,
           startEpoch, terminals, resolutions)
    }
  }

  class Driver {
    var state: Phase
    var sessionEpoch: nat
    var sessionId: Option<string>
    var activeTurn: ActiveTurn?

    constructor ()
      ensures state == Cold && sessionEpoch == 0 && sessionId == None && activeTurn == null
    {
      state, sessionEpoch, sessionId, activeTurn := Cold, 0, None, null;
    }

    ghost function FocusOn(turn: ActiveTurn): Focus
      reads this, turn
    {
      Focus(state, sessionEpoch, sessionId,
            if activeTurn == null then Nobody else if activeTurn == turn then This else Another, turn.View())
    }

    /** The active turn can only be replaced by nothing while other turns' callbacks run. */
    twostate predicate OnlyReleases()
      reads this
    {
      activeTurn == old(activeTurn) || activeTurn == null
    }

    method InvalidateSession()
      modifies this`sessionId, this`sessionEpoch
      ensures sessionId == None && sessionEpoch == old(sessionEpoch) + 1
    {
      sessionId := None;
      sessionEpoch := sessionEpoch + 1;
    }

    method Emit(turn: ActiveTurn, event: Ending)
      modifies this`state, this`activeTurn, turn
      ensures FocusOn(turn) == EmitTerminal(old(FocusOn(turn)), event) && OnlyReleases()
    {
      if turn.settled { return; }
      turn.settled := true;
      if activeTurn == turn { activeTurn := null; }
      if state == Busy { state := Ready; }
      turn.terminals := turn.terminals + [event];
      turn.resolutions := turn.resolutions + 1;
    }

    method ExitSettles(turn: ActiveTurn)
      modifies this, turn
      ensures FocusOn(turn) == SettleOnExit(old(FocusOn(turn))) && OnlyReleases()
    {
      if turn.settled { return; }
      if turn.cancelling {
        Emit(turn, Interrupted(UserCancelled));
        return;
      }
      if turn.drain.exitCode != Some(0) {
        InvalidateSession();
        Emit(turn, Failed(if turn.authFailure then AuthRequired else DriverCrash));
        return;
      }
      if turn.reply == None || turn.reply.value.blank {
        InvalidateSession();
        Emit(turn, Failed(EmptyOutput));
        return;
      }
      var reply := turn.reply.value;
      if turn.coldStart && reply.sessionId == None {
        InvalidateSession();
        Emit(turn, Failed(IncompatibleDriver));
        return;
      }
      if reply.sessionId != None {
        if turn.coldStart {
          sessionId := reply.sessionId;
        } else if sessionId != None && reply.sessionId != sessionId {
          InvalidateSession();
          Emit(turn, Failed(IncompatibleDriver));
          return;
        } else {
          sessionId := reply.sessionId;
        }
      }
      Emit(turn, Completed(reply.text, Reported(reply.usage)));
    }

    method Finish(turn: ActiveTurn)
      modifies this, turn
      ensures FocusOn(turn) == FinishSettle(old(FocusOn(turn))) && OnlyReleases()
    {
      if turn.drain.settled || turn.settled { return; }
      turn.drain := turn.drain.(settled := true, graceArmed := false, stderrGraceArmed := false);
      if activeTurn == turn { ExitSettles(turn); }
    }

    method Try(turn: ActiveTurn)
      modifies this, turn
      ensures FocusOn(turn) == TrySettle(old(FocusOn(turn))) && OnlyReleases()
    {
      if turn.drain.settled || turn.settled || !turn.drain.processExit { return; }
      if !turn.drain.stdoutEnded {
        turn.drain := turn.drain.(graceArmed := true);
        return;
      }
      if turn.drain.exitCode != Some(0) && !turn.cancelling && !turn.drain.stderrEnded {
        turn.drain := turn.drain.(stderrGraceArmed := true);
        return;
      }
      Finish(turn);
    }

    method DeadlineMaySettle(turn: ActiveTurn) returns (may: bool)
      ensures may == MaySettle(FocusOn(turn))
    {
      may := activeTurn == turn && !turn.cancelling && !turn.settled;
    }

    method FailAsOwner(turn: ActiveTurn, event: Ending)
      modifies this, turn
      ensures FocusOn(turn) == FailIfOwner(old(FocusOn(turn)), event) && OnlyReleases()
    {
      var may := DeadlineMaySettle(turn);
      if may {
        InvalidateSession();
        Emit(turn, event);
      }
    }

    /** A turn begins: the prompt file is written and the spawn requested. */
    method RunTurn(executionId: string, coldStart: bool) returns (turn: ActiveTurn)
      modifies this
      ensures fresh(turn) && activeTurn == turn && state == Busy
      ensures sessionEpoch == old(sessionEpoch) && sessionId == old(sessionId)
      ensures turn.View() == NewTurn(executionId, coldStart, sessionEpoch, sessionId)
    {
      state := Busy;
      turn := new ActiveTurn(executionId, coldStart, sessionEpoch, sessionId);
      activeTurn := turn;
    }

    method OnSpawned(turn: ActiveTurn)
      modifies this, turn
      ensures FocusOn(turn) == Handle(old(FocusOn(turn)), Spawned) && OnlyReleases()
    {
      if state == Closing || state == Closed || turn.settled || activeTurn != turn { return; }
      turn.attached := true;
    }

    method OnSpawnFailed(turn: ActiveTurn)
      modifies this, turn
      ensures FocusOn(turn) == Handle(old(FocusOn(turn)), SpawnFailed) && OnlyReleases()
    {
      FailAsOwner(turn, Failed(DriverSpawnFailed));
      if state == Busy { state := Ready; }
    }

    method OnStdoutData(turn: ActiveTurn, reply: Option<Reply>, authFailure: bool)
      requires turn.attached
      modifies turn
      ensures FocusOn(turn) == Handle(old(FocusOn(turn)), Output(reply, authFailure))
    {
      turn.reply, turn.authFailure := reply, authFailure;
    }

    method OnStdoutEnd(turn: ActiveTurn)
      requires turn.attached
      modifies this, turn
      ensures FocusOn(turn) == Handle(old(FocusOn(turn)), StdoutEnd) && OnlyReleases()
    {
      turn.drain := turn.drain.(stdoutEnded := true);
      Try(turn);
    }

    method OnStderrEnd(turn: ActiveTurn)
      requires turn.attached
      modifies this, turn
      ensures FocusOn(turn) == Handle(old(FocusOn(turn)), StderrEnd) && OnlyReleases()
    {
      turn.drain := turn.drain.(stderrEnded := true);
      Try(turn);
    }

    method OnExit(turn: ActiveTurn, code: Option<int>)
      requires turn.attached
      modifies this, turn
      ensures FocusOn(turn) == Handle(old(FocusOn(turn)), Exit(code)) && OnlyReleases()
    {
      turn.drain := turn.drain.(processExit := true, exitCode := code);
      Try(turn);
      if state == Busy { state := Ready; }
    }

    method OnSupervisionFailed(turn: ActiveTurn)
      requires turn.attached
      modifies this, turn
      ensures FocusOn(turn) == Handle(old(FocusOn(turn)), SupervisionFailed) && OnlyReleases()
    {
      FailAsOwner(turn, Failed(DriverSpawnFailed));
    }

    method FireGraceTimer(turn: ActiveTurn)
      requires turn.attached && turn.drain.graceArmed
      modifies this, turn
      ensures FocusOn(turn) == Handle(old(FocusOn(turn)), GraceTimer) && OnlyReleases()
    {
      turn.drain := turn.drain.(graceArmed := false);
      var may := DeadlineMaySettle(turn);
      if !turn.drain.settled && may {
        turn.drain := turn.drain.(settled := true);
        activeTurn := null;
        InvalidateSession();
        Emit(turn, Failed(StreamDrainTimeout));
      }
    }

    method FireStderrGraceTimer(turn: ActiveTurn)
      requires turn.attached && turn.drain.stderrGraceArmed
      modifies this, turn
      ensures FocusOn(turn) == Handle(old(FocusOn(turn)), StderrGraceTimer) && OnlyReleases()
    {
      turn.drain := turn.drain.(stderrGraceArmed := false);
      Finish(turn);
    }

    method FireOneshotTimer(turn: ActiveTurn)
      requires turn.attached
      modifies this, turn
      ensures FocusOn(turn) == Handle(old(FocusOn(turn)), OneshotTimer) && OnlyReleases()
    {
      FailAsOwner(turn, Failed(OneshotTimeout));
    }

    method FireTurnTimer(turn: ActiveTurn)
      requires turn.attached
      modifies this, turn
      ensures FocusOn(turn) == Handle(old(FocusOn(turn)), TurnTimer) && OnlyReleases()
    {
      FailAsOwner(turn, Interrupted(Timeout));
    }

    /** `cancel` up to its first await; the latched turn, if the execution is the active one. */
    method CancelBegin(executionId: string) returns (turn: ActiveTurn?)
      modifies this, activeTurn
      ensures turn == if old(activeTurn) != null && old(activeTurn.executionId) == executionId
                      then old(activeTurn) else null
      ensures turn != null ==> FocusOn(turn) == Latch(old(FocusOn(activeTurn)))
      ensures turn == null ==> state == old(state) && sessionEpoch == old(sessionEpoch) && sessionId == old(sessionId)
      ensures activeTurn == old(activeTurn)
      ensures turn == null && old(activeTurn) != null ==> activeTurn.View() == old(activeTurn.View())
    {
      turn := activeTurn;
      if turn == null || turn.executionId != executionId { return null; }
      turn.cancelling := true;
      InvalidateSession();
    }

    /** `close` up to its first await. */
    method CloseBegin() returns (turn: ActiveTurn?)
      modifies this, activeTurn
      ensures turn == old(activeTurn) == activeTurn && state == Closing
      ensures turn != null ==> FocusOn(turn) == Latch(old(FocusOn(activeTurn)).(phase := Closing))
      ensures turn == null ==> sessionEpoch == old(sessionEpoch) && sessionId == old(sessionId)
    {
      state := Closing;
      turn := activeTurn;
      if turn != null {
        turn.cancelling := true;
        InvalidateSession();
      }
    }

    /** The latched turn's process is gone: `cancel` and `close` settle it if nothing else has. */
    method SettleLatched(turn: ActiveTurn)
      requires turn.cancelling
      modifies this, turn
      ensures FocusOn(turn) == Handle(old(FocusOn(turn)), LatchFinished) && OnlyReleases()
    {
      if !turn.settled { Emit(turn, Interrupted(UserCancelled)); }
    }
  }
}
