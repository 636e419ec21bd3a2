/**
 * Which turns a scope serves. What a seat can do is told by its history alone: how it was created, how its
 * prewarm ended, and whether the turn dispatched last has settled.
 */
module ScopeTurns {
  import opened Options
  import opened ScopeSteps
  import ScopeRuns

  datatype Life = Life(
    starts: bool,                  // its installation was ready to prewarm
    prewarm: Option<Prewarm>,      // how the prewarm ended, once it has
    serving: Option<string>)       // the turn dispatched and not settled

  predicate Names(participants: seq<Participant>, p: string) {
    exists k | k in participants :: k.id == p
  }

  /** Whether the last participant of this name can start. */
  predicate Starts(participants: seq<Participant>, p: string) {
    if participants == [] then false
    else
      var last := participants[|participants| - 1];
      if last.id == p then last.starts else Starts(participants[..|participants| - 1], p)
  }

  predicate Concerns(e: Event, id: string, p: string) {
    (e.PrewarmSettled? || e.Execute? || e.TurnSettled?) && e.scopeId == id && e.participantId == p
  }

  predicate Creates(m: Manager, e: Event, id: string) {
    e.Create? && e.scopeId == id && id !in m.scopes && id in Step(m, e).0.scopes
  }

  function Lived(l: Option<Life>, m: Manager, e: Event, id: string, p: string): Option<Life> {
    if Creates(m, e, id) then
      if Names(e.participants, p) then Some(Life(Starts(e.participants, p), None, None)) else None
    else if l == None || !Concerns(e, id, p) then l
    else
      var a := l.value;
      match e
      case PrewarmSettled(_, _, outcome) =>
        if a.starts && a.prewarm == None then Some(a.(prewarm := Some(outcome))) else l
      case Execute(_, _, _, x, _, _) => if Step(m, e).1 == Dispatched then Some(a.(serving := Some(x))) else l
      case TurnSettled(_, _) => Some(a.(serving := None))
  }

  /** The life of the seat of `p` in scope `id`. */
  function LifeOf(m: Manager, events: seq<Event>, id: string, p: string, l: Option<Life>): Option<Life>
    decreases |events|
  {
    if events == [] then l else LifeOf(Step(m, events[0]).0, events[1..], id, p, Lived(l, m, events[0], id, p))
  }

  function RuntimeOf(a: Life): Runtime {
    if a.serving.Some? then Busy
    else if !a.starts then Failed
    else match a.prewarm
      case None => Prewarming
      case Some(Resolved(bound)) => if bound then Ready else Failed
      case Some(Cancelled) => Cold
      case Some(Rejected) => Failed
  }

  predicate SeatTells(phase: Phase, q: Seat, a: Life) {
    && q.busy == a.serving
    && (q.warming <==> a.starts && a.prewarm == None)
    && (Open(phase) ==>
          && q.runtime == RuntimeOf(a)
          && (q.bound <==> a.prewarm == Some(Resolved(true)))
          && (a.serving.Some? ==> a.starts && a.prewarm == Some(Resolved(true))))
  }

  predicate Tells(m: Manager, id: string, p: string, l: Option<Life>) {
    if id in m.scopes && p in m.scopes[id].seats then
      l.Some? && SeatTells(m.scopes[id].phase, m.scopes[id].seats[p], l.value)
    else l == None
  }

  lemma {:induction false} NewSeatsTell(participants: seq<Participant>, p: string)
    ensures var seats := SeatsOf(participants);
            && (p in seats <==> Names(participants, p))
            && (p in seats ==> SeatTells(Creating, seats[p], Life(Starts(participants, p), None, None)))
    decreases |participants|
  {
    if participants != [] {
      var (before, last) := (participants[..|participants| - 1], participants[|participants| - 1]);
      NewSeatsTell(before, p);
      assert participants == before + [last];
    }
  }

  lemma {:induction false} CreateTells(m: Manager, e: Event, id: string, p: string, l: Option<Life>)
    requires e.Create? && Tells(m, id, p, l)
    ensures Tells(Step(m, e).0, id, p, Lived(l, m, e, id, p))
  {
    hide DropBefore, ActiveScopes, LiveSeats, SeatsOf, SeatTells, Names, Starts;
    NewSeatsTell(e.participants, p);
  }

  lemma {:induction false} ExecuteTells(m: Manager, e: Event, id: string, p: string, l: Option<Life>)
    requires e.Execute? && Tells(m, id, p, l)
    ensures Tells(Step(m, e).0, id, p, Lived(l, m, e, id, p))
  {
    hide Running;
  }

  lemma {:induction false} RequestTells(m: Manager, e: Event, id: string, p: string, l: Option<Life>)
    requires Tells(m, id, p, l) && (e.Activate? || e.Takeover? || e.Close? || e.CloseFinished? || e.Terminal?)
    ensures Tells(Step(m, e).0, id, p, Lived(l, m, e, id, p))
  {
    hide AllReleased;
  }

  lemma {:induction false} OnScopeTells(s: Scope, e: Event, id: string, p: string, a: Life)
    requires p in s.seats && SeatTells(s.phase, s.seats[p], a) && !e.Create? && !e.Execute?
    requires !e.Activate? && !e.Takeover? && !e.Close? && !e.CloseFinished? && !e.Terminal? && e.scopeId == id
    ensures var t := OnScope(s, e);
            p in t.seats && SeatTells(t.phase, t.seats[p], Lived(Some(a), NEW_MANAGER, e, id, p).value)
  {
    hide AnyBusy;
  }

  lemma {:induction false} ContinuationTells(m: Manager, e: Event, id: string, p: string, l: Option<Life>)
    requires Tells(m, id, p, l) && !e.Create? && !e.Execute?
    requires !e.Activate? && !e.Takeover? && !e.Close? && !e.CloseFinished? && !e.Terminal?
    ensures Tells(Step(m, e).0, id, p, Lived(l, m, e, id, p))
  {
    hide SeatTells;
    if e.scopeId == id && id in m.scopes {
      if p in m.scopes[id].seats { OnScopeTells(m.scopes[id], e, id, p, l.value); }
      ScopeKeepsSeats(m.scopes[id], e);
    }
  }

  lemma {:induction false} ScopeKeepsSeats(s: Scope, e: Event)
    ensures OnScope(s, e).seats.Keys == s.seats.Keys
  {
  }

  lemma {:induction false} StepTells(m: Manager, e: Event, id: string, p: string, l: Option<Life>)
    requires Tells(m, id, p, l)
    ensures Tells(Step(m, e).0, id, p, Lived(l, m, e, id, p))
  {
    hide Tells, Lived, Step;
    if e.Create? { CreateTells(m, e, id, p, l); }
    else if e.Execute? { ExecuteTells(m, e, id, p, l); }
    else if e.Activate? || e.Takeover? || e.Close? || e.CloseFinished? || e.Terminal? { RequestTells(m, e, id, p, l); }
    else { ContinuationTells(m, e, id, p, l); }
  }

  /** In every reachable state each seat is what its history makes it. */
  lemma {:induction false} RunTells(m: Manager, events: seq<Event>, id: string, p: string, l: Option<Life>)
    requires Tells(m, id, p, l)
    ensures Tells(ScopeRuns.Run(m, events), id, p, LifeOf(m, events, id, p, l))
    decreases |events|
  {
    hide Tells, Lived, Step;
    if events != [] {
      StepTells(m, events[0], id, p, l);
      RunTells(Step(m, events[0]).0, events[1..], id, p, Lived(l, m, events[0], id, p));
    }
  }

  /** What the quotas count: scopes being created or active, and in them the seats that are warming or bound. */
  lemma {:induction false} QuotasCount(events: seq<Event>, id: string, p: string)
    ensures var m := ScopeRuns.Run(NEW_MANAGER, events);
            var life := LifeOf(NEW_MANAGER, events, id, p, None);
            && (id in ActiveScopes(m) <==>
                  id in m.scopes && (m.scopes[id].phase == Creating || m.scopes[id].phase == Active))
            && ((id, p) in LiveSeats(m) <==>
                  && id in ActiveScopes(m) && life.Some? && life.value.starts
                  && (life.value.prewarm == None || life.value.prewarm == Some(Resolved(true))))
  {
    hide LifeOf, ScopeRuns.Run;
    RunTells(NEW_MANAGER, events, id, p, None);
  }

  // ---------------------------------------------------------------------------------------------
  // When a turn is dispatched
  // ---------------------------------------------------------------------------------------------

  /** The request is the current controller's, and its scope is active. */
  predicate IsCurrent(m: Manager, e: Event)
    requires e.Execute?
  {
    && e.scopeId in m.scopes && m.scopes[e.scopeId].phase == Active
    && m.scopes[e.scopeId].controllerId == e.controllerId && m.scopes[e.scopeId].leaseEpoch == e.leaseEpoch
  }

  /** Prewarmed with a binding, and every turn dispatched so far has settled. */
  predicate CanServe(l: Option<Life>) {
    l.Some? && l.value.starts && l.value.prewarm == Some(Resolved(true)) && l.value.serving == None
  }

  /**
   * After whatever has happened, a turn is dispatched if and only if the current controller of an active
   * scope asks for a seat that was prewarmed and whose turns have all settled, fewer than four executions
   * run, the execution is a new one and the session need not be rebased.
   */
  lemma {:induction false} DispatchedIff(events: seq<Event>, e: Event)
    requires e.Execute?
    ensures var m := ScopeRuns.Run(NEW_MANAGER, events);
            Step(m, e).1 == Dispatched <==>
              && IsCurrent(m, e) && CanServe(LifeOf(NEW_MANAGER, events, e.scopeId, e.participantId, None))
              && |Running(m)| < 4 && e.executionId !in m.executions && !e.rebase
  {
    hide Running, LifeOf, ScopeRuns.Run;
    RunTells(NEW_MANAGER, events, e.scopeId, e.participantId, None);
  }

  /** Why a turn is not dispatched: each refusal, and each other reply, names what is so. */
  lemma {:induction false} RefusalIsReal(events: seq<Event>, e: Event)
    requires e.Execute?
    ensures var m := ScopeRuns.Run(NEW_MANAGER, events);
            var life := LifeOf(NEW_MANAGER, events, e.scopeId, e.participantId, None);
            match Step(m, e).1
            case Refused(ScopeNotFound) => e.scopeId !in m.scopes
            case Refused(ScopeClosed) => e.scopeId in m.scopes && m.scopes[e.scopeId].phase != Active
            case Refused(StaleController) => e.scopeId in m.scopes && !IsCurrent(m, e)
            case Refused(ParticipantNotFound) => IsCurrent(m, e) && life == None
            case Refused(ParticipantBusy) => IsCurrent(m, e) && life.Some? && !CanServe(life)
            case Refused(ResourceLimit) => IsCurrent(m, e) && CanServe(life) && |Running(m)| >= 4
            case Refused(_) => false
            case Known => IsCurrent(m, e) && CanServe(life) && e.executionId in m.executions
            case FailedTurn => IsCurrent(m, e) && CanServe(life) && e.executionId !in m.executions && e.rebase
            case Dispatched => true
            case _ => false
  {
    hide Running, LifeOf, ScopeRuns.Run;
    RunTells(NEW_MANAGER, events, e.scopeId, e.participantId, None);
  }

  /** A seat serves one turn after the other: once terminal and promise have settled the next is dispatched. */
  lemma {:induction false} NextTurnIsDispatched(events: seq<Event>, e: Event, next: Event)
    requires e.Execute? && Step(ScopeRuns.Run(NEW_MANAGER, events), e).1 == Dispatched
    requires next.Execute? && !next.rebase && next.executionId != e.executionId
    requires next == e.(executionId := next.executionId, rebase := false)
    requires next.executionId !in ScopeRuns.Run(NEW_MANAGER, events).executions
    ensures var (m, reply) := Step(ScopeRuns.Run(NEW_MANAGER, events), e);
            var settled := Step(Step(m, Terminal(e.executionId)).0, TurnSettled(e.scopeId, e.participantId)).0;
            && settled.scopes[e.scopeId].seats[e.participantId].runtime == Ready
            && Step(settled, next).1 == Dispatched
  {
    hide ScopeRuns.Run;
    var before := ScopeRuns.Run(NEW_MANAGER, events);
    var settled := Step(Step(Step(before, e).0, Terminal(e.executionId)).0, TurnSettled(e.scopeId, e.participantId)).0;
    assert Running(settled) == Running(before);
    hide Running;
  }
}
