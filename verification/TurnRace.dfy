/**
 * The race that settles one turn of the one-shot driver, on values. A focus is the driver's shared
 * state together with one of its turns; every callback of that turn maps a focus to a focus.
 *
 * A callback may run whenever its turn is attached to a process, once or repeatedly: timers that were
 * cleared but already queued, late pipe ends and late exits are all included.
 */
module TurnRace {
  import opened Options

  datatype Phase = Cold | Ready | Busy | Closing | Closed

  datatype FailureCode =
    | AuthRequired
    | DriverCrash
    | EmptyOutput
    | IncompatibleDriver
    | StreamDrainTimeout
    | DriverSpawnFailed
    | OneshotTimeout

  datatype InterruptReason = UserCancelled | Timeout

  /** What the command reports of a turn: any finite numbers, and each only if it is one. */
  datatype Usage = Usage(inputTokens: Option<real>, outputTokens: Option<real>, costUsd: Option<real>)

  datatype Ending =
    | Completed(output: string, usage: Option<Usage>)
    | Failed(code: FailureCode)
    | Interrupted(reason: InterruptReason)

  /** The JSON object the command prints; `blank` says that its text is only white space. */
  datatype Reply = Reply(text: string, blank: bool, sessionId: Option<string>, usage: Usage)

  /** A completion says nothing of usage if no number was reported. */
  function Reported(u: Usage): Option<Usage> {
    if u == Usage(None, None, None) then None else Some(u)
  }

  predicate Nonnegative(x: Option<real>) {
    x.Some? ==> x.value >= 0.0
  }

  /** The event schema takes no negative counts, although a reply may name them. */
  predicate UsageConforms(u: Usage) {
    Nonnegative(u.inputTokens) && Nonnegative(u.outputTokens) && Nonnegative(u.costUsd)
  }

  predicate Conforms(e: Ending) {
    e.Completed? && e.usage.Some? ==> UsageConforms(e.usage.value)
  }

  function InputTokens(usage: Option<Usage>): real {
    if usage.Some? && usage.value.inputTokens.Some? then usage.value.inputTokens.value else 0.0
  }

  /** What the pipe ends, the exit and the two grace timers of a turn's process have done so far. */
  datatype Drain = Drain(
    processExit: bool,
    exitCode: Option<int>,
    stdoutEnded: bool,
    stderrEnded: bool,
    settled: bool,
    graceArmed: bool,
    stderrGraceArmed: bool)

  datatype Turn = Turn(
    executionId: string,
    coldStart: bool,
    resume: Option<string>,        // the session named by --resume, if any
    reply: Option<Reply>,          // what the standard output so far parses to
    authFailure: bool,             // whether the output so far looks like a login failure
    cancelling: bool,
    settled: bool,
    attached: bool,                // the spawned process was adopted and its callbacks registered
    drain: Drain,
    startEpoch: nat,               // history: the session epoch when the turn began
    terminals: seq<Ending>,        // history: the terminal events emitted
    resolutions: nat)              // history: how often the turn's promise was resolved

  /** Which turn the driver holds active, seen from the focused one. */
  datatype Active = Nobody | This | Another

  datatype Focus = Focus(phase: Phase, epoch: nat, session: Option<string>, active: Active, turn: Turn)

  function NewTurn(executionId: string, coldStart: bool, epoch: nat, session: Option<string>): Turn {
    Turn(executionId, coldStart, if coldStart then None else session, None, false, false, false, false,
         Drain(false, None, false, false, false, false, false), epoch, [], 0)
  }

  // ---------------------------------------------------------------------------------------------
  // Settling
  // ---------------------------------------------------------------------------------------------

  function Invalidate(f: Focus): Focus {
    f.(session := None, epoch := f.epoch + 1)
  }

  function EmitTerminal(f: Focus, e: Ending): Focus {
    if f.turn.settled then f
    else
      f.(phase := if f.phase == Busy then Ready else f.phase,
         active := if f.active == This then Nobody else f.active,
         turn := f.turn.(settled := true, terminals := f.turn.terminals + [e], resolutions := f.turn.resolutions + 1))
  }

  /** The guard of every late callback: the turn is the active, unsettled and unlatched one. */
  predicate MaySettle(f: Focus) {
    f.active == This && !f.turn.cancelling && !f.turn.settled
  }

  function SettleOnExit(f: Focus): Focus {
    var t := f.turn;
    if t.settled then f
    else if t.cancelling then EmitTerminal(f, Interrupted(UserCancelled))
    else if t.drain.exitCode != Some(0) then
      EmitTerminal(Invalidate(f), Failed(if t.authFailure then AuthRequired else DriverCrash))
    else if t.reply == None || t.reply.value.blank then EmitTerminal(Invalidate(f), Failed(EmptyOutput))
    else SettleReply(f, t.reply.value)
  }

  /** A reply of a clean exit: the session it names must be there on a cold start and must not change. */
  function SettleReply(f: Focus, reply: Reply): Focus {
    var done := Completed(reply.text, Reported(reply.usage));
    if f.turn.coldStart && reply.sessionId == None then EmitTerminal(Invalidate(f), Failed(IncompatibleDriver))
    else if reply.sessionId == None then EmitTerminal(f, done)
    else if f.turn.coldStart then EmitTerminal(f.(session := reply.sessionId), done)
    else if f.session != None && reply.sessionId != f.session then
      EmitTerminal(Invalidate(f), Failed(IncompatibleDriver))
    else EmitTerminal(f.(session := reply.sessionId), done)
  }

  function WithDrain(f: Focus, d: Drain): Focus {
    f.(turn := f.turn.(drain := d))
  }

  function FinishSettle(f: Focus): Focus {
    if f.turn.drain.settled || f.turn.settled then f
    else
      var g := WithDrain(f, f.turn.drain.(settled := true, graceArmed := false, stderrGraceArmed := false));
      if g.active == This then SettleOnExit(g) else g
  }

  function TrySettle(f: Focus): Focus {
    var d := f.turn.drain;
    if d.settled || f.turn.settled || !d.processExit then f
    else if !d.stdoutEnded then WithDrain(f, d.(graceArmed := true))
    else if d.exitCode != Some(0) && !f.turn.cancelling && !d.stderrEnded then
      WithDrain(f, d.(stderrGraceArmed := true))
    else FinishSettle(f)
  }

  // ---------------------------------------------------------------------------------------------
  // Callbacks
  // ---------------------------------------------------------------------------------------------

  datatype Callback =
    | Spawned
    | SpawnFailed
    | Output(reply: Option<Reply>, authFailure: bool)
    | StdoutEnd
    | StderrEnd
    | Exit(code: Option<int>)
    | SupervisionFailed
    | GraceTimer
    | StderrGraceTimer
    | OneshotTimer
    | TurnTimer
    | LatchFinished                // `cancel` or `close` has reaped the process of the turn it latched

  predicate NeedsProcess(c: Callback) {
    !c.Spawned? && !c.SpawnFailed? && !c.LatchFinished?
  }

  function FailIfOwner(f: Focus, e: Ending): Focus {
    if MaySettle(f) then EmitTerminal(Invalidate(f), e) else f
  }

  function ReadyIfBusy(f: Focus): Focus {
    if f.phase == Busy then f.(phase := Ready) else f
  }

  function OnGraceTimer(f: Focus): Focus {
    if !f.turn.drain.graceArmed then f
    else
      var g := WithDrain(f, f.turn.drain.(graceArmed := false));
      if g.turn.drain.settled || !MaySettle(g) then g
      else
        var h := WithDrain(g.(active := Nobody), g.turn.drain.(settled := true));
        EmitTerminal(Invalidate(h), Failed(StreamDrainTimeout))
  }

  function Handle(f: Focus, c: Callback): Focus {
    var d := f.turn.drain;
    if NeedsProcess(c) && !f.turn.attached then f
    else match c
      case Spawned =>
        if f.phase == Closing || f.phase == Closed || f.turn.settled || f.active != This then f
        else f.(turn := f.turn.(attached := true))
      case SpawnFailed => ReadyIfBusy(FailIfOwner(f, Failed(DriverSpawnFailed)))
      case Output(reply, authFailure) => f.(turn := f.turn.(reply := reply, authFailure := authFailure))
      case StdoutEnd => TrySettle(WithDrain(f, d.(stdoutEnded := true)))
      case StderrEnd => TrySettle(WithDrain(f, d.(stderrEnded := true)))
      case Exit(code) => ReadyIfBusy(TrySettle(WithDrain(f, d.(processExit := true, exitCode := code))))
      case SupervisionFailed => FailIfOwner(f, Failed(DriverSpawnFailed))
      case GraceTimer => OnGraceTimer(f)
      case StderrGraceTimer =>
        if d.stderrGraceArmed then FinishSettle(WithDrain(f, d.(stderrGraceArmed := false))) else f
      case OneshotTimer => FailIfOwner(f, Failed(OneshotTimeout))
      case TurnTimer => FailIfOwner(f, Interrupted(Timeout))
      case LatchFinished => if f.turn.cancelling then EmitTerminal(f, Interrupted(UserCancelled)) else f
  }

  /** `cancel` and `close` up to their first await, on the active turn. */
  function Latch(f: Focus): Focus {
    if f.active == This then Invalidate(f.(turn := f.turn.(cancelling := true))) else f
  }

  // ---------------------------------------------------------------------------------------------
  // What every callback keeps
  // ---------------------------------------------------------------------------------------------

  /** At most one terminal, the promise resolved exactly with it, and a latch decides which it is. */
  predicate TurnOk(t: Turn) {
    && |t.terminals| == t.resolutions == (if t.settled then 1 else 0)
    && (t.cancelling && t.settled ==> t.terminals == [Interrupted(UserCancelled)])
  }

  predicate FocusOk(f: Focus) {
    && TurnOk(f.turn)
    && (f.active == This ==> !f.turn.settled)
  }

  /** The turn is the same one: what was fixed when it began, and whether it is latched. */
  predicate SameTurn(t: Turn, u: Turn) {
    && u.executionId == t.executionId && u.coldStart == t.coldStart && u.resume == t.resume
    && u.startEpoch == t.startEpoch && u.cancelling == t.cancelling
  }

  /**
   * One step of a turn. A turn settles only while it is active or latched. Completion keeps the epoch,
   * leaves a session, and passes on the reply of a process that exited with 0; every other ending of an
   * unlatched turn leaves none and starts a new epoch. Without an ending the session is untouched.
   */
  predicate Stepped(f: Focus, g: Focus) {
    && FocusOk(g)
    && SameTurn(f.turn, g.turn)
    && (f.turn.settled ==> g.turn.settled && g.turn.terminals == f.turn.terminals)
    && g.active == (if f.active == This && g.turn.settled then Nobody else f.active)
    && (f.turn.settled || !g.turn.settled ==> g.epoch == f.epoch && g.session == f.session)
    && (!f.turn.settled && g.turn.settled ==>
          && (f.active == This || f.turn.cancelling)
          && (if g.turn.terminals[0].Completed? then
                && !f.turn.cancelling && g.epoch == f.epoch
                && (f.turn.coldStart ==> g.session.Some?)
                && (!f.turn.coldStart && f.session.Some? ==> g.session == f.session)
                && g.turn.drain.exitCode == Some(0)
                && f.turn.reply.Some? && !f.turn.reply.value.blank
                && g.turn.terminals[0] == Completed(f.turn.reply.value.text, Reported(f.turn.reply.value.usage))
              else if f.turn.cancelling then g.epoch == f.epoch && g.session == f.session
              else g.epoch == f.epoch + 1 && g.session == None))
  }

  lemma SettleReplySteps(f: Focus, reply: Reply)
    requires FocusOk(f) && f.active == This && !f.turn.settled && !f.turn.cancelling
    requires f.turn.reply == Some(reply) && !reply.blank && f.turn.drain.exitCode == Some(0)
    ensures Stepped(f, SettleReply(f, reply))
  {
  }

  lemma {:induction false} SettleOnExitSteps(f: Focus)
    requires FocusOk(f) && f.active == This
    ensures Stepped(f, SettleOnExit(f))
  {
    hide SettleReply;
    var t := f.turn;
    if !t.settled && !t.cancelling && t.drain.exitCode == Some(0) && t.reply.Some? && !t.reply.value.blank {
      SettleReplySteps(f, t.reply.value);
    }
  }

  lemma {:induction false} FinishSettleSteps(f: Focus)
    requires FocusOk(f)
    ensures Stepped(f, FinishSettle(f))
  {
    var g := WithDrain(f, f.turn.drain.(settled := true, graceArmed := false, stderrGraceArmed := false));
    if g.active == This { SettleOnExitSteps(g); }
  }

  lemma {:induction false} TrySettleSteps(f: Focus)
    requires FocusOk(f)
    ensures Stepped(f, TrySettle(f))
  {
    FinishSettleSteps(f);
  }

  lemma FailIfOwnerSteps(f: Focus, e: Ending)
    requires FocusOk(f) && !e.Completed?
    ensures Stepped(f, FailIfOwner(f, e))
  {
  }

  lemma OnGraceTimerSteps(f: Focus)
    requires FocusOk(f)
    ensures Stepped(f, OnGraceTimer(f))
  {
  }

  /** No callback of a turn closes the driver. */
  lemma HandleKeepsOpen(f: Focus, c: Callback)
    ensures Handle(f, c).phase == f.phase || (f.phase == Busy && Handle(f, c).phase == Ready)
  {
  }

  /** What ends the active turn leaves no busy driver. */
  lemma {:induction false} HandleFrees(f: Focus, c: Callback)
    ensures f.active != Nobody && Handle(f, c).active == Nobody ==> Handle(f, c).phase != Busy
    ensures Handle(f, c).phase == Busy ==> f.phase == Busy
  {
  }

  lemma {:induction false} SettlingKeepsRecord(f: Focus)
    ensures var t := SettleOnExit(f).turn;
            && t.reply == f.turn.reply && t.authFailure == f.turn.authFailure
            && t.attached == f.turn.attached && t.drain == f.turn.drain
  {
  }

  /** Settling is no news of the turn's process. */
  predicate SameNews(t: Turn, u: Turn) {
    && u.reply == t.reply && u.authFailure == t.authFailure && u.attached == t.attached
    && u.drain.exitCode == t.drain.exitCode && u.drain.stdoutEnded == t.drain.stdoutEnded
    && (u.drain.stderrGraceArmed ==> t.drain.stderrGraceArmed || t.drain.stdoutEnded)
  }

  lemma {:induction false} TryingIsNoNews(f: Focus)
    ensures SameNews(f.turn, FinishSettle(f).turn) && SameNews(f.turn, TrySettle(f).turn)
  {
    SettlingKeepsRecord(WithDrain(f, f.turn.drain.(settled := true, graceArmed := false, stderrGraceArmed := false)));
    hide SettleOnExit;
  }

  lemma EmittingIsNoNews(f: Focus, e: Ending)
    ensures SameNews(f.turn, EmitTerminal(f, e).turn)
  {
  }

  lemma {:induction false} FailingIsNoNews(f: Focus, e: Ending)
    ensures SameNews(f.turn, FailIfOwner(f, e).turn) && SameNews(f.turn, OnGraceTimer(f).turn)
  {
  }

  /** Each piece of news of a turn's process comes by the callback that tells it. */
  lemma {:induction false} HandleTellsNews(f: Focus, c: Callback)
    ensures var (t, u) := (f.turn, Handle(f, c).turn);
            && u.reply == (if c.Output? && t.attached then c.reply else t.reply)
            && u.authFailure == (if c.Output? && t.attached then c.authFailure else t.authFailure)
            && u.drain.exitCode == (if c.Exit? && t.attached then c.code else t.drain.exitCode)
            && u.drain.stdoutEnded == (t.drain.stdoutEnded || (c.StdoutEnd? && t.attached))
            && (u.attached <==> t.attached || (c.Spawned? && f.active == This && !t.settled
                                               && f.phase != Closing && f.phase != Closed))
            && (u.drain.stderrGraceArmed ==> t.drain.stderrGraceArmed || u.drain.stdoutEnded)
  {
    hide FinishSettle, TrySettle, FailIfOwner, OnGraceTimer, EmitTerminal;
    var d := f.turn.drain;
    match c
    case SpawnFailed => FailingIsNoNews(f, Failed(DriverSpawnFailed));
    case SupervisionFailed => FailingIsNoNews(f, Failed(DriverSpawnFailed));
    case GraceTimer => FailingIsNoNews(f, Failed(DriverSpawnFailed));
    case OneshotTimer => FailingIsNoNews(f, Failed(OneshotTimeout));
    case TurnTimer => FailingIsNoNews(f, Interrupted(Timeout));
    case LatchFinished => EmittingIsNoNews(f, Interrupted(UserCancelled));
    case StdoutEnd => TryingIsNoNews(WithDrain(f, d.(stdoutEnded := true)));
    case StderrEnd => TryingIsNoNews(WithDrain(f, d.(stderrEnded := true)));
    case Exit(code) => TryingIsNoNews(WithDrain(f, d.(processExit := true, exitCode := code)));
    case StderrGraceTimer => TryingIsNoNews(WithDrain(f, d.(stderrGraceArmed := false)));
    case _ =>
  }

  /** Neither the drain flags nor the driver's phase are part of what a step keeps. */
  lemma DrainAndPhaseAreFree(f: Focus, d: Drain, g: Focus)
    requires Stepped(WithDrain(f, d), g)
    ensures Stepped(f, g) && Stepped(f, ReadyIfBusy(g))
  {
  }

  lemma {:induction false} DrainThenTrySettle(f: Focus, d: Drain)
    requires FocusOk(f)
    ensures Stepped(f, TrySettle(WithDrain(f, d))) && Stepped(f, ReadyIfBusy(TrySettle(WithDrain(f, d))))
  {
    hide TrySettle;
    TrySettleSteps(WithDrain(f, d));
    DrainAndPhaseAreFree(f, d, TrySettle(WithDrain(f, d)));
  }

  /** The theorem about one callback, whichever it is and whenever it runs. */
  lemma {:induction false} HandleSteps(f: Focus, c: Callback)
    requires FocusOk(f)
    ensures Stepped(f, Handle(f, c))
  {
    hide TrySettle, FinishSettle, FailIfOwner, OnGraceTimer;
    var d := f.turn.drain;
    match c
    case SpawnFailed =>
      FailIfOwnerSteps(f, Failed(DriverSpawnFailed));
    case StdoutEnd =>
      DrainThenTrySettle(f, d.(stdoutEnded := true));
    case StderrEnd =>
      DrainThenTrySettle(f, d.(stderrEnded := true));
    case Exit(code) =>
      DrainThenTrySettle(f, d.(processExit := true, exitCode := code));
    case SupervisionFailed =>
      FailIfOwnerSteps(f, Failed(DriverSpawnFailed));
    case GraceTimer =>
      OnGraceTimerSteps(f);
    case StderrGraceTimer =>
      FinishSettleSteps(WithDrain(f, d.(stderrGraceArmed := false)));
      DrainAndPhaseAreFree(f, d.(stderrGraceArmed := false), FinishSettle(WithDrain(f, d.(stderrGraceArmed := false))));
    case OneshotTimer =>
      FailIfOwnerSteps(f, Failed(OneshotTimeout));
    case TurnTimer =>
      FailIfOwnerSteps(f, Interrupted(Timeout));
    case _ =>
  }

  // ---------------------------------------------------------------------------------------------
  // Which ending an exit gives
  // ---------------------------------------------------------------------------------------------

  /**
   * The verdict on an exit. A turn completes if and only if it is not latched, its process exited with 0 and
   * replied with more than white space, a cold start names its session, and a resumed turn names none or
   * the driver's own. Every way to fail this has its own code.
   */
  lemma {:induction false} ExitVerdict(f: Focus)
    requires f.active == This && !f.turn.settled && f.turn.terminals == []
    ensures var (t, g) := (f.turn, SettleOnExit(f));
            var exited := !t.cancelling && t.drain.exitCode == Some(0);
            var replied := exited && t.reply.Some? && !t.reply.value.blank;
            && g.turn.settled && |g.turn.terminals| == 1
            && var ending := g.turn.terminals[0];
            && (ending.Completed? <==>
                  && replied && (t.coldStart ==> t.reply.value.sessionId.Some?)
                  && (!t.coldStart && t.reply.value.sessionId.Some? && f.session.Some? ==>
                        t.reply.value.sessionId == f.session))
            && (ending == Interrupted(UserCancelled) <==> t.cancelling)
            && (ending == Failed(AuthRequired) <==> !t.cancelling && t.drain.exitCode != Some(0) && t.authFailure)
            && (ending == Failed(DriverCrash) <==> !t.cancelling && t.drain.exitCode != Some(0) && !t.authFailure)
            && (ending == Failed(EmptyOutput) <==> exited && !replied)
            && (ending == Failed(IncompatibleDriver) <==> replied && !ending.Completed?)
            && (ending.Completed? ==>
                  g.session == if t.reply.value.sessionId.Some? then t.reply.value.sessionId else f.session)
  {
  }

  /** An unsettled turn whose process may still be read, and whose exit has not been judged. */
  predicate Running(f: Focus) {
    f.active == This && !f.turn.settled && f.turn.terminals == [] && f.turn.attached && !f.turn.drain.settled
  }

  /**
   * When an exit is judged: once the process has exited and its output has ended, and for a failing exit
   * also its error output, unless the turn is latched. Until then a grace timer is armed for the pipe that
   * is still open.
   */
  lemma {:induction false} JudgedWhen(f: Focus)
    requires Running(f)
    ensures var (d, g) := (f.turn.drain, TrySettle(f));
            var judged := && d.processExit && d.stdoutEnded
                          && (d.exitCode == Some(0) || f.turn.cancelling || d.stderrEnded);
            && (g.turn.settled <==> judged)
            && (judged ==> g.turn.terminals == SettleOnExit(f).turn.terminals)
            && (!judged ==> g == WithDrain(f, g.turn.drain))
            && (!judged ==>
                  g.turn.drain == d.(graceArmed := d.graceArmed || (d.processExit && !d.stdoutEnded),
                                     stderrGraceArmed := d.stderrGraceArmed || (d.processExit && d.stdoutEnded)))
  {
  }

  predicate IsEnd(c: Callback) {
    c.Exit? || c.StdoutEnd? || c.StderrEnd?
  }

  /** What the end of a pipe or the exit leaves on record. */
  function Noted(d: Drain, c: Callback): Drain
    requires IsEnd(c)
  {
    match c
    case Exit(code) => d.(processExit := true, exitCode := code)
    case StdoutEnd => d.(stdoutEnded := true)
    case StderrEnd => d.(stderrEnded := true)
  }

  predicate ToBeJudged(t: Turn, d: Drain) {
    d.processExit && d.stdoutEnded && (d.exitCode == Some(0) || t.cancelling || d.stderrEnded)
  }

  /** The same turn and session; what is left open is the driver's phase and what has ended so far. */
  predicate SameUpToDrain(f: Focus, g: Focus) {
    g == f.(phase := g.phase, turn := f.turn.(drain := g.turn.drain))
  }

  predicate SameFlags(d: Drain, e: Drain) {
    e == d.(graceArmed := e.graceArmed, stderrGraceArmed := e.stderrGraceArmed)
  }

  /** It has ended as an exit with this code says. */
  predicate EndedBy(f: Focus, code: Option<int>, g: Focus) {
    var exited := SettleOnExit(WithDrain(f, f.turn.drain.(exitCode := code)));
    && g.turn.settled && g.turn.terminals == exited.turn.terminals
    && g.session == exited.session && g.epoch == exited.epoch && g.active == Nobody
  }

  lemma {:induction false} TryingIsNoted(f: Focus, d: Drain)
    requires Running(f) && !d.settled
    ensures var g := TrySettle(WithDrain(f, d));
            if ToBeJudged(f.turn, d) then EndedBy(f, d.exitCode, g)
            else SameUpToDrain(f, g) && SameFlags(d, g.turn.drain)
  {
    var h := WithDrain(f, d.(settled := true, graceArmed := false, stderrGraceArmed := false));
    VerdictNeedsCode(f, h, d.exitCode);
    hide SettleOnExit, EndedBy;
  }

  lemma {:induction false} EndIsNoted(f: Focus, c: Callback)
    requires Running(f) && IsEnd(c)
    ensures var (d, g) := (Noted(f.turn.drain, c), Handle(f, c));
            if ToBeJudged(f.turn, d) then EndedBy(f, d.exitCode, g)
            else SameUpToDrain(f, g) && SameFlags(d, g.turn.drain)
  {
    TryingIsNoted(f, Noted(f.turn.drain, c));
    hide SettleOnExit, TrySettle;
  }

  /** They have ended alike, in session and epoch too. */
  predicate Alike(f: Focus, h: Focus) {
    && h.turn.settled == f.turn.settled && h.turn.terminals == f.turn.terminals
    && h.session == f.session && h.epoch == f.epoch && h.active == f.active
  }

  lemma {:induction false} EmitAlike(f: Focus, h: Focus, e: Ending)
    requires Alike(f, h)
    ensures Alike(EmitTerminal(f, e), EmitTerminal(h, e))
  {
  }

  lemma {:induction false} SettleReplyAlike(f: Focus, h: Focus, reply: Reply)
    requires SameUpToDrain(f, h)
    ensures Alike(SettleReply(f, reply), SettleReply(h, reply))
  {
    hide EmitTerminal, Reported;
    var done := Completed(reply.text, Reported(reply.usage));
    EmitAlike(Invalidate(f), Invalidate(h), Failed(IncompatibleDriver));
    EmitAlike(f, h, done);
    EmitAlike(f.(session := reply.sessionId), h.(session := reply.sessionId), done);
  }

  lemma {:induction false} SettleAlike(f: Focus, h: Focus)
    requires SameUpToDrain(f, h) && f.turn.drain.exitCode == h.turn.drain.exitCode
    ensures Alike(SettleOnExit(f), SettleOnExit(h))
  {
    hide EmitTerminal, SettleReply;
    var t := f.turn;
    EmitAlike(f, h, Interrupted(UserCancelled));
    EmitAlike(Invalidate(f), Invalidate(h), Failed(if t.authFailure then AuthRequired else DriverCrash));
    EmitAlike(Invalidate(f), Invalidate(h), Failed(EmptyOutput));
    if t.reply.Some? { SettleReplyAlike(f, h, t.reply.value); }
  }

  lemma {:induction false} VerdictNeedsCode(f: Focus, h: Focus, code: Option<int>)
    requires Running(f) && SameUpToDrain(f, h) && h.turn.drain.exitCode == code
    ensures EndedBy(f, code, SettleOnExit(h))
  {
    hide SettleOnExit;
    SettleAlike(WithDrain(f, f.turn.drain.(exitCode := code)), h);
    SettlingFrees(h);
  }

  lemma SettlingFrees(f: Focus)
    requires f.active == This && !f.turn.settled
    ensures SettleOnExit(f).turn.settled && SettleOnExit(f).active == Nobody
  {
  }

  lemma {:induction false} EndedStaysEnded(f: Focus, code: Option<int>, g: Focus, c: Callback)
    requires EndedBy(f, code, g) && FocusOk(g)
    ensures EndedBy(f, code, Handle(g, c)) && FocusOk(Handle(g, c))
  {
    HandleSteps(g, c);
    hide Handle, SettleOnExit;
  }

  /**
   * In whatever order the two pipes end and the process exits, the turn ends as the exit says, as soon as
   * that is to be judged.
   */
  lemma {:induction false} OrderDoesNotMatter(f: Focus, code: Option<int>, a: Callback, b: Callback, c: Callback)
    requires Running(f) && FocusOk(f) && f.turn.drain == Drain(false, None, false, false, false, false, false)
    requires multiset{a, b, c} == multiset{Exit(code), StdoutEnd, StderrEnd}
    ensures EndedBy(f, code, Handle(Handle(Handle(f, a), b), c))
  {
    assert a in multiset{a, b, c} && b in multiset{a, b, c} && c in multiset{a, b, c};
    assert Exit(code) in multiset{a, b, c} && StdoutEnd in multiset{a, b, c} && StderrEnd in multiset{a, b, c};
    hide Handle, SettleOnExit;
    var g := Handle(f, a);
    EndIsNoted(f, a);
    HandleSteps(f, a);
    var h := Handle(g, b);
    EndIsNoted(g, b);
    HandleSteps(g, b);
    if h.turn.settled {
      EndedBySame(f, g, code, h);
      EndedStaysEnded(f, code, h, c);
    } else {
      EndIsNoted(h, c);
      EndedBySame(f, h, code, Handle(h, c));
    }
  }

  lemma {:induction false} EndedBySame(f: Focus, g: Focus, code: Option<int>, h: Focus)
    requires Running(f) && Running(g) && SameUpToDrain(f, g) && EndedBy(g, code, h)
    ensures EndedBy(f, code, h)
  {
    var exited := WithDrain(g, g.turn.drain.(exitCode := code));
    VerdictNeedsCode(f, exited, code);
    hide SettleOnExit;
  }

  /** The grace timers end a turn whose pipes stay open: one gives up its output, the other reads the exit. */
  lemma {:induction false} GraceEnds(f: Focus)
    requires Running(f) && !f.turn.cancelling
    ensures f.turn.drain.graceArmed ==>
              var g := Handle(f, GraceTimer);
              && g.turn.terminals == [Failed(StreamDrainTimeout)] && g.active == Nobody && g.session == None
              && g.epoch == f.epoch + 1
    ensures f.turn.drain.stderrGraceArmed ==> EndedBy(f, f.turn.drain.exitCode, Handle(f, StderrGraceTimer))
    ensures !f.turn.drain.graceArmed ==> Handle(f, GraceTimer) == f
    ensures !f.turn.drain.stderrGraceArmed ==> Handle(f, StderrGraceTimer) == f
  {
    var d := f.turn.drain.(settled := true, graceArmed := false, stderrGraceArmed := false);
    VerdictNeedsCode(f, WithDrain(f, d), d.exitCode);
    hide SettleOnExit, EndedBy;
  }
}
