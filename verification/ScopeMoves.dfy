/** What each event does to the phase of a scope, and when a scope is created. */
module ScopeMoves {
  import opened Options
  import opened ScopeSteps
  import opened ScopeRuns

  /** The request names the controller and lease of an open scope. */
  predicate Holds(s: Scope, controllerId: string, leaseEpoch: nat) {
    Open(s.phase) && s.controllerId == controllerId && s.leaseEpoch == leaseEpoch
  }

  predicate Busy(s: Scope) {
    exists p | p in s.seats :: s.seats[p].busy.Some?
  }

  /** The events that close an open scope. */
  predicate Closes(s: Scope, e: Event) {
    || (e.Close? && Holds(s, e.controllerId, e.leaseEpoch))
    || (e.HostClose? && Open(s.phase))
    || (e.CreatingTimer? && s.phase == Creating)
    || (e.IdleTimer? && s.phase == Active && !Busy(s))
  }

  lemma {:induction false} SeatBusyIff(s: Scope)
    requires ScopeOk(s)
    ensures AnyBusy(s) <==> Busy(s)
  {
    assert forall p | p in s.seats :: SeatOk(s.phase, s.seats[p]);
  }

  lemma {:induction false} ContinuationMoves(s: Scope, e: Event)
    requires ScopeOk(s) && !e.Terminal? && !e.Create? && !e.Execute? && !e.Close? && !e.Activate?
    ensures OnScope(s, e).phase == if Closes(s, e) then Closing else s.phase
  {
    SeatBusyIff(s);
    hide AnyBusy, Busy;
  }

  /** The phase that an event leads scope `id` to. */
  function Moved(s: Scope, e: Event, id: string): Phase {
    if e.Terminal? || e.scopeId != id then s.phase
    else if e.Activate? && s.phase == Creating && Holds(s, e.controllerId, e.leaseEpoch) then Active
    else if Closes(s, e) then Closing
    else if e.CloseFinished? && s.phase == Closing && AllReleased(s) then Closed
    else s.phase
  }

  predicate MovesOn(m: Manager, e: Event, id: string)
    requires id in m.scopes
  {
    var n := Step(m, e).0;
    id in n.scopes && n.scopes[id].phase == Moved(m.scopes[id], e, id)
  }

  lemma {:induction false} RequestMoves(m: Manager, e: Event, id: string)
    requires id in m.scopes && (e.Activate? || e.Takeover? || e.Close? || e.CloseFinished? || e.Terminal?)
    ensures MovesOn(m, e, id)
  {
    hide AllReleased;
  }

  lemma {:induction false} CreateMoves(m: Manager, e: Event, id: string)
    requires id in m.scopes && e.Create?
    ensures MovesOn(m, e, id)
  {
    hide DropBefore, ActiveScopes, LiveSeats, SeatsOf;
  }

  lemma {:induction false} ExecuteMoves(m: Manager, e: Event, id: string)
    requires id in m.scopes && e.Execute?
    ensures MovesOn(m, e, id)
  {
    hide Running;
  }

  /**
   * In every reachable state a scope becomes active exactly by its current controller's request while it is
   * being created; closing exactly by such a request, with the host, by the creating timer before it is
   * active or by the idle timer when no seat is busy; and closed exactly when all its seats are released.
   */
  lemma {:induction false} PhaseMovesIff(events: seq<Event>, e: Event, id: string)
    requires id in Run(NEW_MANAGER, events).scopes
    ensures MovesOn(Run(NEW_MANAGER, events), e, id)
  {
    NewManagerIsOk();
    RunKeepsManagerOk(NEW_MANAGER, events);
    StepMoves(Run(NEW_MANAGER, events), e, id);
  }

  predicate IsRequest(e: Event) {
    e.Create? || e.Execute? || e.Activate? || e.Takeover? || e.Close? || e.CloseFinished? || e.Terminal?
  }

  lemma {:induction false} OtherMoves(m: Manager, e: Event, id: string)
    requires id in m.scopes && ScopeOk(m.scopes[id]) && !IsRequest(e)
    ensures MovesOn(m, e, id)
  {
    hide ScopeOk, OnScope, AllReleased, Closes;
    if e.scopeId == id { ContinuationMoves(m.scopes[id], e); }
  }

  lemma {:induction false} StepMoves(m: Manager, e: Event, id: string)
    requires ManagerOk(m) && id in m.scopes
    ensures MovesOn(m, e, id)
  {
    hide MovesOn, IndexOk, QuotasOk, ScopeOk;
    if e.Create? { CreateMoves(m, e, id); }
    else if e.Execute? { ExecuteMoves(m, e, id); }
    else if IsRequest(e) { RequestMoves(m, e, id); }
    else { OtherMoves(m, e, id); }
  }

  /**
   * Only the current controller of an open scope can activate or close it; anyone can take it over, which
   * makes them its controller under the next lease. A request that is refused changes nothing.
   */
  lemma {:induction false} ControlIff(m: Manager, e: Event)
    requires e.Activate? || e.Close? || e.Takeover?
    ensures var (n, reply) := Step(m, e);
            if e.scopeId !in m.scopes then n == m && reply == Refused(ScopeNotFound)
            else
              var s := m.scopes[e.scopeId];
              if !Open(s.phase) then n == m && reply == Refused(ScopeClosed)
              else if e.Takeover? then
                && reply == Lease(e.scopeId, e.controllerId, s.leaseEpoch + 1)
                && n == m.(scopes := m.scopes[e.scopeId := s.(controllerId := e.controllerId,
                                                              leaseEpoch := s.leaseEpoch + 1)])
              else if !Holds(s, e.controllerId, e.leaseEpoch) then n == m && reply == Refused(StaleController)
              else
                && reply == Status(if e.Activate? then Active else Closing)
                && n.index == m.index && n.executions == m.executions && n.creates == m.creates
                && n.scopes.Keys == m.scopes.Keys
                && (forall id | id in m.scopes && id != e.scopeId :: n.scopes[id] == m.scopes[id])
                && n.scopes[e.scopeId].seats == s.seats && n.scopes[e.scopeId].leaseEpoch == s.leaseEpoch
                && n.scopes[e.scopeId].controllerId == s.controllerId
                && n.scopes[e.scopeId].requestId == s.requestId
  {
  }

  /** A create whose scope was closed meanwhile leaves no seat behind that could be taken for live. */
  lemma {:induction false} LateCreateTearsDown(m: Manager, id: string, p: string)
    requires id in m.scopes && p in m.scopes[id].seats
    ensures var (s, t) := (m.scopes[id], Step(m, CreateFinished(id)).0.scopes[id]);
            && p in t.seats
            && if Open(s.phase) then t == s
               else
                 && t.seats[p].runtime != Ready && t.seats[p].runtime != Prewarming
                 && (s.seats[p].runtime != Ready && s.seats[p].runtime != Prewarming ==> t.seats[p] == s.seats[p])
  {
  }

  // ---------------------------------------------------------------------------------------------
  // Creating scopes
  // ---------------------------------------------------------------------------------------------

  /** How many scopes were created within the last minute before `now`. */
  function Recent(creates: seq<int>, now: int): nat {
    if creates == [] then 0 else (if creates[0] >= now - 60_000 then 1 else 0) + Recent(creates[1..], now)
  }

  lemma {:induction false} QueueIsRecent(creates: seq<int>, now: int)
    requires Sorted(creates)
    ensures |DropBefore(creates, now - MINUTE)| == Recent(creates, now)
  {
    if creates != [] {
      if creates[0] < now - MINUTE {
        QueueIsRecent(creates[1..], now);
      } else {
        AllRecent(creates, now);
      }
    }
  }

  lemma {:induction false} AllRecent(creates: seq<int>, now: int)
    requires forall i | 0 <= i < |creates| :: creates[i] >= now - MINUTE
    ensures Recent(creates, now) == |creates|
  {
    if creates != [] { AllRecent(creates[1..], now); }
  }

  /** A scope that this request id already has and that is not closed. */
  predicate HasScope(m: Manager, requestId: string, id: string) {
    Unclosed(m, id) && m.scopes[id].requestId == requestId
  }

  /** Everything a create asks for beyond a request id that is free. */
  predicate Affordable(m: Manager, e: Event)
    requires e.Create?
  {
    && Recent(m.creates, e.checkedAt) < 10 && |ActiveScopes(m)| < 4 && |e.participants| <= 8
    && |LiveSeats(m)| + |e.participants| <= 16
    && forall p | p in e.participants :: p.hasDriver
  }

  /**
   * A create is answered with the scope that its request id already has, if that is not closed, and changes
   * nothing then. Otherwise it is granted a new scope exactly if the rate and all quotas allow it and every
   * participant has a driver; and a refusal names one of these that does not hold.
   */
  lemma {:induction false} CreateGrantedIff(m: Manager, e: Event)
    requires ManagerOk(m) && Sorted(m.creates) && e.Create? && e.scopeId !in m.scopes
    ensures var (n, reply) := Step(m, e);
            if exists id :: HasScope(m, e.requestId, id) then
              && n == m && reply.Lease? && HasScope(m, e.requestId, reply.scopeId)
              && reply == Lease(reply.scopeId, m.scopes[reply.scopeId].controllerId, m.scopes[reply.scopeId].leaseEpoch)
            else if Affordable(m, e) then
              && reply == Lease(e.scopeId, e.controllerId, 1)
              && n.scopes == m.scopes[e.scopeId := Scope(e.requestId, Creating, e.controllerId, 1,
                                                         SeatsOf(e.participants), true, false)]
              && n.index == m.index[e.requestId := e.scopeId] && n.executions == m.executions
            else
              && n.scopes == m.scopes && n.index == m.index && n.executions == m.executions
              && match reply
                 case Refused(RateLimited) => Recent(m.creates, e.checkedAt) >= 10
                 case Refused(ResourceLimit) =>
                   |ActiveScopes(m)| >= 4 || |e.participants| > 8 || |LiveSeats(m)| + |e.participants| > 16
                 case Refused(ProfileInvalid) => exists p | p in e.participants :: !p.hasDriver
                 case _ => false
  {
    hide Recent, DropBefore, SeatsOf, ScopeOk, QuotasOk;
    QueueIsRecent(m.creates, e.checkedAt);
    if e.requestId in m.index { assert HasScope(m, e.requestId, m.index[e.requestId]); }
    var dropped := m.(creates := DropBefore(m.creates, e.checkedAt - MINUTE));
    assert ActiveScopes(dropped) == ActiveScopes(m) && LiveSeats(dropped) == LiveSeats(m);
    hide ActiveScopes, LiveSeats;
  }
}
