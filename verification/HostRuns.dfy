/**
 * Scope manager, reconciler and driver as one machine, seen from one participant: it belongs to one scope
 * after the other, the manager grants its turns and closes its scopes, and its seat does what `Seat` says.
 */
module HostRuns {
  import opened Options
  import opened SnapshotRender
  import Rec = SessionReconciler
  import Scopes = ScopeSteps
  import ScopeRuns
  import Seats = Seat
  import SeatEpochs
  import Race = TurnRace

  datatype Host = Host(
    manager: Scopes.Manager,
    home: Option<string>,          // the newest scope of the participant
    seat: Seats.Seat)

  const NEW_HOST := Host(Scopes.NEW_MANAGER, None, Seats.NEW_SEAT.(scope := Seats.Closed))

  /** A request, continuation or timer of the manager, or a step of the participant's driver. */
  datatype Event =
    | Manage(event: Scopes.Event, snapshot: Snapshot, windowTokens: Option<real>)
    | Drive(step: Seats.Step)

  predicate AtHome(h: Host, p: string, scopeId: string, participantId: string) {
    h.home == Some(scopeId) && participantId == p
  }

  /** Whether a turn must be rebased is not the caller's choice: the reconciler answers it. */
  function Answered(h: Host, p: string, e: Event): Scopes.Event
    requires e.Manage?
  {
    if e.event.Execute? && AtHome(h, p, e.event.scopeId, e.event.participantId) then
      e.event.(rebase := Rec.Decide(h.seat.record, e.snapshot, h.seat.driver.epoch, e.windowTokens).NeedsRebase?)
    else e.event
  }

  /** A new scope with a seat for the participant. */
  predicate Moves(h: Host, p: string, x: Scopes.Event) {
    var m := Scopes.Step(h.manager, x).0;
    x.Create? && x.scopeId !in h.manager.scopes && x.scopeId in m.scopes && p in m.scopes[x.scopeId].seats
  }

  /** What the participant's seat does when its home scope takes a step from `s` to `t`. */
  function SeatStep(
    h: Host, p: string, x: Scopes.Event, reply: Scopes.Reply, s: Scopes.Scope, t: Scopes.Scope, snapshot: Snapshot,
    windowTokens: Option<real>): Option<Seats.Step>
  {
    if x.Execute? && AtHome(h, p, x.scopeId, x.participantId) then
      if reply == Scopes.Dispatched then Some(Seats.Execute(x.executionId, snapshot, windowTokens)) else None
    else if x.TurnSettled? && AtHome(h, p, x.scopeId, x.participantId) then Some(Seats.Finally)
    else if x.SeatClosed? && AtHome(h, p, x.scopeId, x.participantId) then
      if s.phase == Scopes.Closing then Some(Seats.CloseDriverDone) else None
    else if Scopes.Open(s.phase) && !Scopes.Open(t.phase) then Some(Seats.CloseBegin)
    else if s.phase != Scopes.Closed && t.phase == Scopes.Closed then Some(Seats.Release)
    else None
  }

  function Follows(h: Host, p: string, e: Event): Option<Seats.Step> {
    match e
    case Drive(step) => Some(step)
    case Manage(_, snapshot, windowTokens) =>
      var x := Answered(h, p, e);
      var (m, reply) := Scopes.Step(h.manager, x);
      if Moves(h, p, x) then Some(Seats.Reopen)
      else if h.home.Some? && h.home.value in h.manager.scopes && h.home.value in m.scopes then
        SeatStep(h, p, x, reply, h.manager.scopes[h.home.value], m.scopes[h.home.value], snapshot, windowTokens)
      else None
  }

  function Take(seat: Seats.Seat, step: Option<Seats.Step>): Seats.Seat {
    match step case Some(a) => Seats.Advance(seat, a) case None => seat
  }

  /** The execution whose terminal a step of the seat emits. */
  function Ends(seat: Seats.Seat, step: Option<Seats.Step>): Option<string> {
    match step
    case Some(StartFails) => if seat.pending.Some? then Some(seat.pending.value.executionId) else None
    case Some(Callback(_, _)) => EndOfActive(seat, Seats.Advance(seat, step.value))
    case Some(CloseDriverDone) => EndOfActive(seat, Seats.Advance(seat, step.value))
    case _ => None
  }

  function EndOfActive(seat: Seats.Seat, next: Seats.Seat): Option<string> {
    if seat.driver.active.Some? && seat.driver.active.value < |seat.dispatches| && next.driver.active == None
    then Some(seat.dispatches[seat.driver.active.value].executionId) else None
  }

  /** An event without the terminal it may emit. */
  function React(h: Host, p: string, e: Event): Host {
    var seat := Take(h.seat, Follows(h, p, e));
    match e
    case Drive(_) => h.(seat := seat)
    case Manage(_, _, _) =>
      var x := Answered(h, p, e);
      Host(Scopes.Step(h.manager, x).0, if Moves(h, p, x) then Some(x.scopeId) else h.home, seat)
  }

  function Emit(h: Host, terminal: Option<string>): Host {
    match terminal
    case Some(x) => h.(manager := Scopes.Step(h.manager, Scopes.Terminal(x)).0)
    case None => h
  }

  function Step(h: Host, p: string, e: Event): Host {
    Emit(React(h, p, e), Ends(h.seat, Follows(h, p, e)))
  }

  /** An execution of the participant in its newest scope. */
  predicate IsOwn(h: Host, p: string, x: string) {
    && x in h.manager.executions
    && AtHome(h, p, h.manager.executions[x].scopeId, h.manager.executions[x].participantId)
  }

  predicate IsDriverStep(step: Seats.Step) {
    step.StartTurn? || step.StartFails? || step.Callback? || step.Cancel?
  }

  /**
   * What can happen: the driver takes its own steps only; the promise of a turn settles only when it has,
   * and the terminal of the participant's own turn comes from its driver; and a participant moves to a new
   * scope only when its scope before is closed.
   */
  predicate CanHappen(h: Host, p: string, e: Event) {
    match e
    case Drive(step) => IsDriverStep(step)
    case Manage(event, _, _) =>
      && (event.TurnSettled? && AtHome(h, p, event.scopeId, event.participantId) ==>
            h.seat.pending == None && Seats.LastTurnSettled(h.seat.driver))
      && (event.Terminal? ==> !IsOwn(h, p, event.executionId))
      && (Moves(h, p, Answered(h, p, e)) && h.home.Some? && h.home.value in h.manager.scopes ==>
            h.manager.scopes[h.home.value].phase == Scopes.Closed)
  }

  // ---------------------------------------------------------------------------------------------
  // The manager's seat and the participant's seat agree
  // ---------------------------------------------------------------------------------------------

  predicate Matches(s: Scopes.Scope, q: Scopes.Seat, seat: Seats.Seat) {
    && (seat.busy <==> q.busy.Some?)
    && (s.phase == Scopes.Creating ==> q.busy == None)
    && (Scopes.Open(s.phase) ==> !q.released)
    && seat.scope == match s.phase
                     case Creating => Seats.Open
                     case Active => Seats.Open
                     case Closing => if q.released then Seats.DriverClosed else Seats.Closing
                     case Closed => Seats.Closed
  }

  predicate Coupled(h: Host, p: string) {
    match h.home
    case None => h.seat.scope == Seats.Closed
    case Some(id) =>
      && id in h.manager.scopes && p in h.manager.scopes[id].seats
      && Matches(h.manager.scopes[id], h.manager.scopes[id].seats[p], h.seat)
  }

  /** The ways a scope may go on: open until it is closed by a request or timer, closed once all is released. */
  predicate PhaseStep(s: Scopes.Scope, t: Scopes.Scope) {
    || t.phase == s.phase
    || (Scopes.Open(s.phase) && (t.phase == Scopes.Active || t.phase == Scopes.Closing))
    || (s.phase == Scopes.Closing && t.phase == Scopes.Closed && Scopes.AllReleased(s))
  }

  predicate Targets(x: Scopes.Event, id: string, p: string) {
    (x.Execute? || x.TurnSettled? || x.SeatClosed?) && x.scopeId == id && x.participantId == p
  }

  /** What a step of the manager does to one seat of one scope, as far as turns and closing go. */
  predicate GoesOn(s: Scopes.Scope, t: Scopes.Scope, x: Scopes.Event, reply: Scopes.Reply, id: string, p: string) {
    && p in s.seats && p in t.seats && PhaseStep(s, t)
    && var (q, r) := (s.seats[p], t.seats[p]);
       && (if x.Execute? && Targets(x, id, p) && reply == Scopes.Dispatched then
             s.phase == Scopes.Active && q.busy == None && r.busy == Some(x.executionId) && !x.rebase
           else if x.TurnSettled? && Targets(x, id, p) then r.busy == None
           else r.busy == q.busy)
       && (if x.SeatClosed? && Targets(x, id, p) && s.phase == Scopes.Closing then r.released
           else r.released == q.released)
       && (Targets(x, id, p) ==> t.phase == s.phase)
  }

  predicate SeatGoesOn(m: Scopes.Manager, x: Scopes.Event, id: string, p: string)
    requires id in m.scopes
  {
    var (n, reply) := Scopes.Step(m, x);
    id in n.scopes && GoesOn(m.scopes[id], n.scopes[id], x, reply, id, p)
  }

  lemma {:induction false} OnScopeGoesOn(s: Scopes.Scope, e: Scopes.Event, p: string)
    requires p in s.seats
    ensures var t := Scopes.OnScope(s, e);
            && p in t.seats && PhaseStep(s, t)
            && t.seats[p].busy ==
               (if e.TurnSettled? && e.participantId == p then None else s.seats[p].busy)
            && t.seats[p].released ==
               (s.seats[p].released || (e.SeatClosed? && e.participantId == p && s.phase == Scopes.Closing))
            && (e.TurnSettled? || e.SeatClosed? ==> t.phase == s.phase)
  {
  }

  lemma {:induction false} CreateGoesOn(m: Scopes.Manager, x: Scopes.Event, id: string, p: string)
    requires id in m.scopes && p in m.scopes[id].seats && x.Create?
    ensures SeatGoesOn(m, x, id, p)
  {
    hide Scopes.DropBefore, Scopes.NewScope, Scopes.ActiveScopes, Scopes.LiveSeats;
    assert Scopes.Step(m, x).0.scopes[id] == m.scopes[id];
  }

  lemma {:induction false} ExecuteGoesOn(m: Scopes.Manager, x: Scopes.Event, id: string, p: string)
    requires id in m.scopes && p in m.scopes[id].seats && x.Execute?
    ensures SeatGoesOn(m, x, id, p)
  {
    hide Scopes.Running, Scopes.AllReleased;
  }

  lemma {:induction false} RequestGoesOn(m: Scopes.Manager, x: Scopes.Event, id: string, p: string)
    requires id in m.scopes && p in m.scopes[id].seats
    requires x.Activate? || x.Takeover? || x.Close? || x.CloseFinished? || x.Terminal?
    ensures SeatGoesOn(m, x, id, p)
  {
    hide Scopes.AllReleased;
  }

  /** The other events are the continuations and timers of a scope. */
  predicate IsRequest(x: Scopes.Event) {
    x.Create? || x.Execute? || x.Activate? || x.Takeover? || x.Close? || x.CloseFinished? || x.Terminal?
  }

  lemma {:induction false} ContinuationGoesOn(m: Scopes.Manager, x: Scopes.Event, id: string, p: string)
    requires id in m.scopes && p in m.scopes[id].seats && !IsRequest(x)
    ensures SeatGoesOn(m, x, id, p)
  {
    hide Scopes.OnScope, Scopes.AllReleased;
    OnScopeGoesOn(m.scopes[id], x, p);
  }

  lemma {:induction false} SeatsGoOn(m: Scopes.Manager, x: Scopes.Event, id: string, p: string)
    requires id in m.scopes && p in m.scopes[id].seats
    ensures SeatGoesOn(m, x, id, p)
  {
    hide SeatGoesOn;
    if x.Create? {
      CreateGoesOn(m, x, id, p);
    } else if x.Execute? {
      ExecuteGoesOn(m, x, id, p);
    } else if IsRequest(x) {
      RequestGoesOn(m, x, id, p);
    } else {
      ContinuationGoesOn(m, x, id, p);
    }
  }

  // ---------------------------------------------------------------------------------------------
  // Every step keeps them in agreement
  // ---------------------------------------------------------------------------------------------

  /** The turn of execution `x` is pending or active. */
  predicate Occupies(seat: Seats.Seat, x: string) {
    || (seat.pending.Some? && seat.pending.value.executionId == x)
    || (seat.driver.active.Some? && seat.driver.active.value < |seat.dispatches|
        && seat.dispatches[seat.driver.active.value].executionId == x)
  }

  predicate RunsAt(m: Scopes.Manager, id: string, p: string, x: string) {
    x in m.executions && m.executions[x] == Scopes.Execution(id, p, true)
  }

  ghost predicate ScopesKnown(m: Scopes.Manager) {
    forall x | x in m.executions :: m.executions[x].scopeId in m.scopes
  }

  /** Of the participant's executions exactly the pending or active one runs; executions have scopes. */
  ghost predicate RunsMatch(h: Host, p: string) {
    && ScopesKnown(h.manager)
    && match h.home
       case None => forall x :: !Occupies(h.seat, x)
       case Some(id) => forall x :: RunsAt(h.manager, id, p, x) <==> Occupies(h.seat, x)
  }

  ghost predicate HostOk(h: Host, p: string) {
    ScopeRuns.ManagerOk(h.manager) && Seats.SeatOk(h.seat) && Coupled(h, p) && RunsMatch(h, p)
  }

  /** What the theorems about seats ask of a step. */
  predicate IsCareful(h: Host, p: string, e: Event) {
    && CanHappen(h, p, e)
    && (Follows(h, p, e).Some? ==> Seats.StepIsCareful(h.seat, Follows(h, p, e).value))
  }

  /**
   * The manager dispatches to a seat only if its driver takes the turn: it has none, it is not closed, and
   * the reconciler has answered with a prompt.
   */
  lemma {:induction false} DispatchIsAccepted(h: Host, p: string, e: Event)
    requires HostOk(h, p) && e.Manage? && e.event.Execute? && AtHome(h, p, e.event.scopeId, e.event.participantId)
    requires Scopes.Step(h.manager, Answered(h, p, e)).1 == Scopes.Dispatched
    ensures h.seat.driver.active == None && h.seat.pending == None && h.seat.driver.phase != Race.Closed
    ensures var seat := Step(h, p, e).seat;
            && seat.busy && seat.scope == Seats.Open && seat.pending.Some?
            && seat.pending.value.executionId == e.event.executionId && seat.pending.value.snapshot == e.snapshot
            && seat.driver == h.seat.driver && seat.dispatches == h.seat.dispatches
  {
    SeatsGoOn(h.manager, Answered(h, p, e), h.home.value, p);
    hide Scopes.Step;
  }

  lemma {:induction false} DriverStepKeepsMatches(s: Scopes.Scope, q: Scopes.Seat, seat: Seats.Seat, step: Seats.Step)
    requires Matches(s, q, seat) && IsDriverStep(step)
    ensures Matches(s, q, Seats.Advance(seat, step))
  {
  }

  /** How closing, and the end of a turn, move a seat. */
  lemma {:induction false} SeatMoves(seat: Seats.Seat)
    ensures var s := Seats.Advance(seat, Seats.CloseBegin);
            s.busy == seat.busy && s.scope == if seat.scope == Seats.Open then Seats.Closing else seat.scope
    ensures var s := Seats.Advance(seat, Seats.CloseDriverDone);
            s.busy == seat.busy && s.scope == if seat.scope == Seats.Closing then Seats.DriverClosed else seat.scope
    ensures var s := Seats.Advance(seat, Seats.Release);
            s.busy == seat.busy && s.scope == if seat.scope == Seats.DriverClosed then Seats.Closed else seat.scope
    ensures seat.pending == None && Seats.LastTurnSettled(seat.driver) ==>
              Seats.Advance(seat, Seats.Finally) == seat.(busy := false)
  {
  }

  lemma {:induction false} SeatStepKeepsMatches(
    h: Host, p: string, id: string, x: Scopes.Event, reply: Scopes.Reply, s: Scopes.Scope, t: Scopes.Scope,
    snapshot: Snapshot, windowTokens: Option<real>)
    requires h.home == Some(id) && GoesOn(s, t, x, reply, id, p) && Matches(s, s.seats[p], h.seat)
    requires x.TurnSettled? && Targets(x, id, p) ==> h.seat.pending == None && Seats.LastTurnSettled(h.seat.driver)
    requires x.Execute? && Targets(x, id, p) && reply == Scopes.Dispatched ==>
               var seat := Seats.Advance(h.seat, Seats.Execute(x.executionId, snapshot, windowTokens));
               seat.busy && seat.scope == Seats.Open
    ensures Matches(t, t.seats[p], Take(h.seat, SeatStep(h, p, x, reply, s, t, snapshot, windowTokens)))
  {
    SeatMoves(h.seat);
    hide Seats.Advance, Seats.LastTurnSettled;
  }

  lemma {:induction false} ManagerStepKeepsMatches(h: Host, p: string, e: Event)
    requires HostOk(h, p) && CanHappen(h, p, e) && e.Manage? && h.home.Some? && !Moves(h, p, Answered(h, p, e))
    ensures Coupled(React(h, p, e), p)
  {
    var (x, id) := (Answered(h, p, e), h.home.value);
    var (m, reply) := Scopes.Step(h.manager, x);
    SeatsGoOn(h.manager, x, id, p);
    if x.Execute? && Targets(x, id, p) && reply == Scopes.Dispatched {
      DispatchIsAccepted(h, p, e);
    }
    hide Scopes.Step, Seats.SeatOk, ScopeRuns.ManagerOk, Seats.Advance, Moves, Rec.Decide, PhaseStep, SeatStep, Matches;
    hide Seats.LastTurnSettled;
    SeatStepKeepsMatches(h, p, id, x, reply, h.manager.scopes[id], m.scopes[id], e.snapshot, e.windowTokens);
  }

  /** The timers of a scope never close it over a pending dispatch; only a close that is asked for can. */
  lemma {:induction false} TimersCloseSafely(h: Host, p: string, e: Event)
    requires HostOk(h, p) && e.Manage? && (e.event.IdleTimer? || e.event.CreatingTimer?)
    requires Follows(h, p, e) == Some(Seats.CloseBegin)
    ensures h.seat.pending == None && h.seat.driver.active == None
    ensures CanHappen(h, p, e) ==> IsCareful(h, p, e)
  {
    hide ScopeRuns.ManagerOk, Seats.Advance, Scopes.OnCreate;
    var s := h.manager.scopes[h.home.value];
    assert s.seats[p].busy == None;
  }

  lemma {:induction false} MoveKeepsCoupled(h: Host, p: string, e: Event)
    requires HostOk(h, p) && CanHappen(h, p, e) && e.Manage? && Moves(h, p, Answered(h, p, e))
    ensures Coupled(React(h, p, e), p)
  {
    NewSeatsAreIdle(e.event.participants, p);
    hide Scopes.SeatsOf, Scopes.DropBefore, Scopes.ActiveScopes, Scopes.LiveSeats;
  }

  lemma {:induction false} NewSeatsAreIdle(participants: seq<Scopes.Participant>, p: string)
    ensures var seats := Scopes.SeatsOf(participants);
            p in seats ==> seats[p].busy == None && !seats[p].released
    decreases |participants|
  {
    if participants != [] { NewSeatsAreIdle(participants[..|participants| - 1], p); }
  }

  lemma {:induction false} ReactKeepsCoupled(h: Host, p: string, e: Event)
    requires HostOk(h, p) && IsCareful(h, p, e)
    ensures Coupled(React(h, p, e), p)
  {
    hide Seats.SeatOk, ScopeRuns.ManagerOk;
    match e
    case Drive(step) =>
      if h.home.Some? {
        var s := h.manager.scopes[h.home.value];
        DriverStepKeepsMatches(s, s.seats[p], h.seat, step);
      }
    case Manage(_, _, _) =>
      if Moves(h, p, Answered(h, p, e)) {
        MoveKeepsCoupled(h, p, e);
      } else if h.home.Some? {
        ManagerStepKeepsMatches(h, p, e);
      }
  }

  /** A terminal changes neither phases nor who occupies a seat. */
  lemma {:induction false} EmitKeepsCoupled(h: Host, p: string, terminal: Option<string>)
    requires Coupled(h, p)
    ensures Coupled(Emit(h, terminal), p)
  {
    if terminal.Some? && h.home.Some? {
      SeatsGoOn(h.manager, Scopes.Terminal(terminal.value), h.home.value, p);
      hide Scopes.Step;
    }
  }

  // ---------------------------------------------------------------------------------------------
  // The executions that run are those of pending and active turns
  // ---------------------------------------------------------------------------------------------

  /** A step of the seat that is neither a dispatch nor a new scope gives up exactly what it ends. */
  lemma {:induction false} OccupancyGoesOn(seat: Seats.Seat, step: Seats.Step, x: string)
    requires Seats.SeatOk(seat) && !step.Execute? && !step.Reopen?
    ensures Occupies(Seats.Advance(seat, step), x) <==> Occupies(seat, x) && Ends(seat, Some(step)) != Some(x)
  {
    hide Seats.RecordOk, Seats.ActiveOk, Seats.Fits, Seats.Grown, Rec.Apply, Race.Conforms;
  }

  /** A scope whose close is finished now. */
  predicate Finishes(m: Scopes.Manager, e: Scopes.Event, id: string) {
    && e.CloseFinished? && e.scopeId == id
    && id in m.scopes && m.scopes[id].phase == Scopes.Closing && Scopes.AllReleased(m.scopes[id])
  }

  /** Which executions of a participant run after a step of the manager. */
  lemma {:induction false} RunsGoOn(m: Scopes.Manager, e: Scopes.Event, id: string, p: string, x: string)
    ensures var (n, reply) := Scopes.Step(m, e);
            RunsAt(n, id, p, x) <==>
            || (RunsAt(m, id, p, x) && e != Scopes.Terminal(x) && !Finishes(m, e, id))
            || (e.Execute? && Targets(e, id, p) && reply == Scopes.Dispatched && e.executionId == x)
  {
    hide Scopes.DropBefore, Scopes.NewScope, Scopes.ActiveScopes, Scopes.LiveSeats, Scopes.Running, Scopes.OnScope;
    hide Scopes.AllReleased;
  }

  lemma {:induction false} ScopesStay(m: Scopes.Manager, e: Scopes.Event)
    requires ScopesKnown(m)
    ensures ScopesKnown(Scopes.Step(m, e).0)
  {
    hide Scopes.DropBefore, Scopes.NewScope, Scopes.ActiveScopes, Scopes.LiveSeats, Scopes.Running, Scopes.OnScope;
    hide Scopes.AllReleased;
  }

  lemma {:induction false} EmitEndsRun(h: Host, terminal: Option<string>, id: string, p: string, x: string)
    ensures RunsAt(Emit(h, terminal).manager, id, p, x) <==> RunsAt(h.manager, id, p, x) && terminal != Some(x)
  {
    if terminal.Some? { RunsGoOn(h.manager, Scopes.Terminal(terminal.value), id, p, x); }
    hide Scopes.Step;
  }

  lemma {:induction false} StepKeepsScopesKnown(h: Host, p: string, e: Event)
    requires ScopesKnown(h.manager)
    ensures ScopesKnown(Step(h, p, e).manager)
  {
    if e.Manage? { ScopesStay(h.manager, Answered(h, p, e)); }
    var ended := Ends(h.seat, Follows(h, p, e));
    if ended.Some? { ScopesStay(React(h, p, e).manager, Scopes.Terminal(ended.value)); }
    hide Scopes.Step, Follows, Ends, Answered, Moves, Take, ScopesKnown;
  }

  lemma {:induction false} DriveKeepsRuns(h: Host, p: string, step: Seats.Step, x: string)
    requires Seats.SeatOk(h.seat) && IsDriverStep(step)
    ensures var g := Step(h, p, Drive(step));
            && (Occupies(g.seat, x) <==> Occupies(h.seat, x) && Ends(h.seat, Some(step)) != Some(x))
            && forall id :: RunsAt(g.manager, id, p, x) <==>
                            RunsAt(h.manager, id, p, x) && Ends(h.seat, Some(step)) != Some(x)
  {
    OccupancyGoesOn(h.seat, step, x);
    forall id ensures RunsAt(Step(h, p, Drive(step)).manager, id, p, x) <==>
                      RunsAt(h.manager, id, p, x) && Ends(h.seat, Some(step)) != Some(x)
    {
      EmitEndsRun(React(h, p, Drive(step)), Ends(h.seat, Some(step)), id, p, x);
    }
    hide Seats.Advance, Seats.SeatOk, RunsAt, Occupies, Ends, Emit;
  }

  /** A new scope has no executions yet, and its seat no turns. */
  lemma {:induction false} MoveKeepsRuns(h: Host, p: string, e: Event, x: string)
    requires HostOk(h, p) && CanHappen(h, p, e) && e.Manage? && Moves(h, p, Answered(h, p, e))
    ensures !Occupies(Step(h, p, e).seat, x) && !RunsAt(Step(h, p, e).manager, e.event.scopeId, p, x)
  {
    RunsGoOn(h.manager, e.event, e.event.scopeId, p, x);
    assert Answered(h, p, e) == e.event;
    hide Scopes.Step, Seats.SeatOk, ScopeRuns.ManagerOk;
  }

  /** When a scope is closed for good, or a turn dispatched, its seat had none. */
  lemma {:induction false} NothingOccupies(h: Host, p: string, e: Event, x: string)
    requires HostOk(h, p) && e.Manage? && h.home.Some?
    requires var a := Answered(h, p, e);
             || Finishes(h.manager, a, h.home.value)
             || (a.Execute? && Targets(a, h.home.value, p) && Scopes.Step(h.manager, a).1 == Scopes.Dispatched)
    ensures !Occupies(h.seat, x) && !RunsAt(h.manager, h.home.value, p, x)
  {
    var a := Answered(h, p, e);
    if a.Execute? { DispatchIsAccepted(h, p, e); }
    hide Scopes.Step, ScopeRuns.ManagerOk, Rec.Decide;
  }

  /** What else the seat does is neither a dispatch nor a new scope. */
  lemma {:induction false} OtherwiseFollows(h: Host, p: string, e: Event)
    requires e.Manage? && h.home.Some? && !Moves(h, p, Answered(h, p, e))
    requires var a := Answered(h, p, e);
             !(a.Execute? && Targets(a, h.home.value, p) && Scopes.Step(h.manager, a).1 == Scopes.Dispatched)
    ensures Follows(h, p, e).Some? ==> !Follows(h, p, e).value.Execute? && !Follows(h, p, e).value.Reopen?
  {
    hide Scopes.Step, Moves, Rec.Decide;
  }

  lemma {:induction false} ManageKeepsRuns(h: Host, p: string, e: Event, x: string)
    requires HostOk(h, p) && CanHappen(h, p, e) && e.Manage? && h.home.Some? && !Moves(h, p, Answered(h, p, e))
    ensures RunsAt(Step(h, p, e).manager, h.home.value, p, x) <==> Occupies(Step(h, p, e).seat, x)
  {
    var (id, a) := (h.home.value, Answered(h, p, e));
    var (n, reply) := Scopes.Step(h.manager, a);
    var ended := Ends(h.seat, Follows(h, p, e));
    RunsGoOn(h.manager, a, id, p, x);
    EmitEndsRun(React(h, p, e), ended, id, p, x);
    assert RunsAt(h.manager, id, p, x) <==> Occupies(h.seat, x);
    var dispatched := a.Execute? && Targets(a, id, p) && reply == Scopes.Dispatched;
    if dispatched {
      DispatchIsAccepted(h, p, e);
      NothingOccupies(h, p, e, x);
      assert ended == None;
    } else {
      OtherwiseFollows(h, p, e);
      if Follows(h, p, e).Some? { OccupancyGoesOn(h.seat, Follows(h, p, e).value, x); }
      if Finishes(h.manager, a, id) { NothingOccupies(h, p, e, x); }
    }
    hide Scopes.Step, Seats.SeatOk, Seats.Advance, ScopeRuns.ManagerOk, Rec.Decide, Moves, Ends, Follows;
  }

  lemma {:induction false} StepKeepsRunsMatch(h: Host, p: string, e: Event)
    requires HostOk(h, p) && CanHappen(h, p, e)
    ensures RunsMatch(Step(h, p, e), p)
  {
    var g := Step(h, p, e);
    StepKeepsScopesKnown(h, p, e);
    match e
    case Drive(step) =>
      forall x ensures g.home.Some? ==> (RunsAt(g.manager, g.home.value, p, x) <==> Occupies(g.seat, x))
               ensures g.home == None ==> !Occupies(g.seat, x)
      {
        DriveKeepsRuns(h, p, step, x);
      }
    case Manage(_, _, _) =>
      if Moves(h, p, Answered(h, p, e)) {
        forall x ensures RunsAt(g.manager, g.home.value, p, x) <==> Occupies(g.seat, x) {
          MoveKeepsRuns(h, p, e, x);
        }
      } else if h.home.Some? {
        forall x ensures RunsAt(g.manager, g.home.value, p, x) <==> Occupies(g.seat, x) {
          ManageKeepsRuns(h, p, e, x);
        }
      }
    hide Scopes.Step, Seats.SeatOk, Seats.Advance, ScopeRuns.ManagerOk, RunsAt, Occupies, Ends;
  }

  lemma {:induction false} StepKeepsManagerOk(h: Host, p: string, e: Event)
    requires ScopeRuns.ManagerOk(h.manager)
    ensures ScopeRuns.ManagerOk(Step(h, p, e).manager)
  {
    if e.Manage? { ScopeRuns.StepKeepsManagerOk(h.manager, Answered(h, p, e)); }
    var ended := Ends(h.seat, Follows(h, p, e));
    if ended.Some? { ScopeRuns.StepKeepsManagerOk(React(h, p, e).manager, Scopes.Terminal(ended.value)); }
    hide Scopes.Step, Follows, Ends, Answered, Moves, Take, ScopeRuns.ManagerOk;
  }

  lemma {:induction false} StepKeepsHostOk(h: Host, p: string, e: Event)
    requires HostOk(h, p) && IsCareful(h, p, e)
    ensures HostOk(Step(h, p, e), p)
  {
    StepKeepsManagerOk(h, p, e);
    StepKeepsRunsMatch(h, p, e);
    if Follows(h, p, e).Some? { Seats.StepKeepsSeatOk(h.seat, Follows(h, p, e).value); }
    ReactKeepsCoupled(h, p, e);
    EmitKeepsCoupled(React(h, p, e), p, Ends(h.seat, Follows(h, p, e)));
    hide Scopes.Step, Follows, Ends, Answered, Moves, Seats.SeatOk, ScopeRuns.ManagerOk, RunsMatch, Coupled;
    hide Seats.Advance;
  }

  // ---------------------------------------------------------------------------------------------
  // Runs
  // ---------------------------------------------------------------------------------------------

  function Run(h: Host, p: string, events: seq<Event>): Host
    decreases |events|
  {
    if events == [] then h else Run(Step(h, p, events[0]), p, events[1..])
  }

  predicate Careful(h: Host, p: string, events: seq<Event>)
    decreases |events|
  {
    events == [] || (IsCareful(h, p, events[0]) && Careful(Step(h, p, events[0]), p, events[1..]))
  }

  /** What the manager goes through with an event: the event, if it is one of its own, and a terminal. */
  function ManagerEvents(h: Host, p: string, e: Event): seq<Scopes.Event> {
    (if e.Manage? then [Answered(h, p, e)] else [])
    + match Ends(h.seat, Follows(h, p, e)) case Some(x) => [Scopes.Terminal(x)] case None => []
  }

  /** What the manager has been through. */
  function ManagerRun(h: Host, p: string, events: seq<Event>): seq<Scopes.Event>
    decreases |events|
  {
    if events == [] then []
    else ManagerEvents(h, p, events[0]) + ManagerRun(Step(h, p, events[0]), p, events[1..])
  }

  /** What the participant's seat has been through. */
  function SeatRun(h: Host, p: string, events: seq<Event>): seq<Seats.Step>
    decreases |events|
  {
    if events == [] then []
    else
      (match Follows(h, p, events[0]) case Some(step) => [step] case None => [])
      + SeatRun(Step(h, p, events[0]), p, events[1..])
  }

  /** A run of the whole is a run of the manager and a run of the seat, and the two agree at its end. */
  lemma {:induction false} RunsOfBoth(h: Host, p: string, events: seq<Event>)
    requires HostOk(h, p) && Careful(h, p, events)
    ensures var g := Run(h, p, events);
            && HostOk(g, p)
            && g.manager == ScopeRuns.Run(h.manager, ManagerRun(h, p, events))
            && g.seat == Seats.Run(h.seat, SeatRun(h, p, events))
    ensures Seats.Careful(h.seat, SeatRun(h, p, events))
    decreases |events|
  {
    hide HostOk, Step, Follows, Answered, IsCareful, ManagerEvents;
    if events != [] {
      var (e, rest) := (events[0], events[1..]);
      var next := Step(h, p, e);
      StepKeepsHostOk(h, p, e);
      RunsOfBoth(next, p, rest);
      ManagerRunUnfolds(h, p, e, ManagerRun(next, p, rest));
      SeatRunUnfolds(h, p, e, SeatRun(next, p, rest));
    }
  }

  lemma {:induction false} ManagerRunUnfolds(h: Host, p: string, e: Event, rest: seq<Scopes.Event>)
    ensures ScopeRuns.Run(h.manager, ManagerEvents(h, p, e) + rest) == ScopeRuns.Run(Step(h, p, e).manager, rest)
  {
    hide Answered, Follows, Moves, Ends, Scopes.Step;
    var own := if e.Manage? then [Answered(h, p, e)] else [];
    var ended := match Ends(h.seat, Follows(h, p, e)) case Some(x) => [Scopes.Terminal(x)] case None => [];
    assert own + ended + rest == own + (ended + rest);
    RunsOne(h.manager, own, ended + rest);
    RunsOne(React(h, p, e).manager, ended, rest);
  }

  lemma {:induction false} RunsOne(m: Scopes.Manager, one: seq<Scopes.Event>, rest: seq<Scopes.Event>)
    requires |one| <= 1
    ensures ScopeRuns.Run(m, one + rest) == ScopeRuns.Run(if one == [] then m else Scopes.Step(m, one[0]).0, rest)
  {
    hide Scopes.Step;
    if one == [] {
      assert one + rest == rest;
    } else {
      assert (one + rest)[1..] == rest;
    }
  }

  lemma {:induction false} SeatRunUnfolds(h: Host, p: string, e: Event, rest: seq<Seats.Step>)
    requires IsCareful(h, p, e)
    ensures var steps := (match Follows(h, p, e) case Some(step) => [step] case None => []) + rest;
            && Seats.Run(h.seat, steps) == Seats.Run(Step(h, p, e).seat, rest)
            && (Seats.Careful(Step(h, p, e).seat, rest) ==> Seats.Careful(h.seat, steps))
  {
    hide Answered, Follows, Moves, Ends, Scopes.Step, Seats.Advance, Seats.StepIsCareful, CanHappen;
    match Follows(h, p, e)
    case Some(step) => assert ([step] + rest)[1..] == rest;
    case None => assert [] + rest == rest;
  }

  /**
   * Whatever requests, timers, continuations and callbacks come, in any order: over all scopes of a
   * participant each incremental prompt resumes the session that completed its prefix, no driver serves
   * more turns in one epoch than a session may, the manager's quotas hold, and the manager's view of the
   * seat is right.
   */
  lemma {:induction false} TurnsOfTheHostAreSafe(p: string, events: seq<Event>, e: nat)
    requires Careful(NEW_HOST, p, events)
    ensures Seats.StartsSafely(NEW_HOST.seat, SeatRun(NEW_HOST, p, events))
    ensures var h := Run(NEW_HOST, p, events);
            && HostOk(h, p)
            && h.manager == ScopeRuns.Run(Scopes.NEW_MANAGER, ManagerRun(NEW_HOST, p, events))
            && h.seat == Seats.Run(NEW_HOST.seat, SeatRun(NEW_HOST, p, events))
            && |SeatEpochs.TurnsOf(h.seat.driver, e)| <=
               32 + SeatEpochs.Lost(NEW_HOST.seat, SeatRun(NEW_HOST, p, events))
  {
    ScopeRuns.NewManagerIsOk();
    RunsOfBoth(NEW_HOST, p, events);
    var steps := SeatRun(NEW_HOST, p, events);
    Seats.IncrementalRefinesFull(NEW_HOST.seat, steps);
    forall n ensures SeatEpochs.TurnsOf(Seats.PREWARMED, n) == {} { SeatEpochs.LaterEpochIsEmpty(Seats.PREWARMED, n); }
    SeatEpochs.RunKeepsEpochsOk(NEW_HOST.seat, steps, 0);
  }

  /** The turns of a seat that are under way: accepted and not started, or started and not settled. */
  predicate Unsettled(seat: Seats.Seat, x: string) {
    || (seat.pending.Some? && seat.pending.value.executionId == x)
    || exists i :: 0 <= i < |seat.driver.turns| && i < |seat.dispatches|
                   && !seat.driver.turns[i].settled && seat.dispatches[i].executionId == x
  }

  /**
   * In every such run an execution of the participant's newest scope counts as running exactly as long as
   * its turn waits for its start or is unsettled, and at most one does.
   */
  lemma {:induction false} RunningIffUnsettled(p: string, events: seq<Event>, x: string, y: string)
    requires Careful(NEW_HOST, p, events) && Run(NEW_HOST, p, events).home.Some?
    ensures var h := Run(NEW_HOST, p, events);
            && (RunsAt(h.manager, h.home.value, p, x) <==> Unsettled(h.seat, x))
            && (RunsAt(h.manager, h.home.value, p, x) && RunsAt(h.manager, h.home.value, p, y) ==> x == y)
  {
    TurnsOfTheHostAreSafe(p, events, 0);
    hide Run, Careful;
    var h := Run(NEW_HOST, p, events);
    hide ScopeRuns.ManagerOk, Seats.RecordOk, Seats.Fits, Seats.ActiveOk;
    assert RunsAt(h.manager, h.home.value, p, x) <==> Occupies(h.seat, x);
    assert RunsAt(h.manager, h.home.value, p, y) <==> Occupies(h.seat, y);
    hide RunsAt;
  }
}
