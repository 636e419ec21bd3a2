/** What holds in every reachable state of the scope manager. */
module ScopeRuns {
  import opened Options
  import opened ScopeSteps

  // ---------------------------------------------------------------------------------------------
  // One scope
  // ---------------------------------------------------------------------------------------------

  predicate Quiet(r: Runtime) {
    r == Cold || r == Failed
  }

  predicate SeatOk(phase: Phase, seat: Seat) {
    && (seat.released ==> Quiet(seat.runtime) && !Open(phase))
    && (phase == Closed ==> seat.released)
    && (Open(phase) && seat.warming ==> seat.runtime == Prewarming)
    && (seat.runtime == Busy ==> seat.busy.Some?)
  }

  /** Timers are armed only in their phase, and a closed scope has no seat that could be live. */
  ghost predicate ScopeOk(s: Scope) {
    && (forall p | p in s.seats :: SeatOk(s.phase, s.seats[p]))
    && (s.idleArmed <==> s.phase == Active)
    && (s.creatingArmed <==> s.phase == Creating)
    && |s.seats| <= MAX_PARTICIPANTS_PER_SCOPE
  }

  /** Nothing that counts towards a quota comes into being. */
  ghost predicate Shrinks(s: Scope, t: Scope) {
    && t.requestId == s.requestId && t.seats.Keys == s.seats.Keys
    && (Open(t.phase) ==> Open(s.phase)) && (s.phase == Closed <==> t.phase == Closed)
    && t.leaseEpoch >= s.leaseEpoch
    && forall p | p in t.seats && Open(t.phase) && LiveRuntime(t.seats[p].runtime) :: LiveRuntime(s.seats[p].runtime)
  }

  lemma {:induction false} SameKeysSameSize<V>(a: map<string, V>, b: map<string, V>)
    requires a.Keys == b.Keys
    ensures |a| == |b|
  {
    assert |a| == |a.Keys| && |b| == |b.Keys|;
  }

  lemma {:induction false} PutSeatKeepsScopeOk(s: Scope, p: string, seat: Seat)
    requires ScopeOk(s) && p in s.seats && SeatOk(s.phase, seat)
    requires Open(s.phase) && LiveRuntime(seat.runtime) ==> LiveRuntime(s.seats[p].runtime)
    ensures ScopeOk(PutSeat(s, p, seat)) && Shrinks(s, PutSeat(s, p, seat))
  {
    SameKeysSameSize(s.seats, PutSeat(s, p, seat).seats);
  }

  lemma {:induction false} TearingDownKeepsScopeOk(s: Scope)
    requires ScopeOk(s) && !Open(s.phase)
    ensures ScopeOk(s.(seats := TornDown(s.seats))) && Shrinks(s, s.(seats := TornDown(s.seats)))
  {
    SameKeysSameSize(s.seats, TornDown(s.seats));
  }

  lemma {:induction false} OnScopeKeepsScopeOk(s: Scope, e: Event)
    requires ScopeOk(s)
    ensures ScopeOk(OnScope(s, e)) && Shrinks(s, OnScope(s, e))
  {
    hide TornDown;
    match e
    case PrewarmSettled(_, p, outcome) =>
      if p in s.seats && s.seats[p].warming {
        PutSeatKeepsScopeOk(s, p, PrewarmedSeat(s.phase, s.seats[p], outcome));
      }
    case CreateFinished(_) => if !Open(s.phase) { TearingDownKeepsScopeOk(s); }
    case TurnSettled(_, p) =>
      if p in s.seats && s.seats[p].busy.Some? {
        var seat := s.seats[p];
        PutSeatKeepsScopeOk(s, p, seat.(busy := None, runtime := if seat.runtime == Busy then Ready else seat.runtime));
      }
    case SeatClosed(_, p) =>
      if s.phase == Closing && p in s.seats {
        PutSeatKeepsScopeOk(s, p, s.seats[p].(runtime := Cold, released := true));
      }
    case _ =>
  }

  // ---------------------------------------------------------------------------------------------
  // The manager
  // ---------------------------------------------------------------------------------------------

  /** A request id leads to its one scope that is not closed. */
  ghost predicate IndexOk(m: Manager) {
    && (forall r | r in m.index ::
          m.index[r] in m.scopes && m.scopes[m.index[r]].phase != Closed && m.scopes[m.index[r]].requestId == r)
    && (forall id | id in m.scopes && m.scopes[id].phase != Closed ::
          m.scopes[id].requestId in m.index && m.index[m.scopes[id].requestId] == id)
  }

  ghost predicate QuotasOk(m: Manager) {
    && |ActiveScopes(m)| <= MAX_ACTIVE_SCOPES
    && |LiveSeats(m)| <= MAX_DRIVER_PROCESSES
    && |Running(m)| <= MAX_CONCURRENT_EXECUTIONS
  }

  ghost predicate ManagerOk(m: Manager) {
    (forall id | id in m.scopes :: ScopeOk(m.scopes[id])) && IndexOk(m) && QuotasOk(m)
  }

  lemma {:induction false} SubsetIsSmaller<T>(a: set<T>, b: set<T>)
    requires a <= b
    ensures |a| <= |b|
    decreases b
  {
    if a != {} {
      var x :| x in a;
      SubsetIsSmaller(a - {x}, b - {x});
    }
  }

  lemma {:induction false} ShrinkingKeepsQuotas(m: Manager, id: string, s: Scope)
    requires QuotasOk(m) && id in m.scopes && Shrinks(m.scopes[id], s)
    ensures QuotasOk(PutScope(m, id, s))
  {
    var n := PutScope(m, id, s);
    assert ActiveScopes(n) <= ActiveScopes(m);
    assert LiveSeats(n) <= LiveSeats(m);
    SubsetIsSmaller(ActiveScopes(n), ActiveScopes(m));
    SubsetIsSmaller(LiveSeats(n), LiveSeats(m));
    assert Running(n) == Running(m);
  }

  lemma ShrinkingKeepsIndex(m: Manager, id: string, s: Scope)
    requires IndexOk(m) && id in m.scopes && Shrinks(m.scopes[id], s)
    ensures IndexOk(PutScope(m, id, s))
  {
  }

  lemma {:induction false} ShrinkingKeepsManagerOk(m: Manager, id: string, s: Scope)
    requires ManagerOk(m) && id in m.scopes && ScopeOk(s) && Shrinks(m.scopes[id], s)
    ensures ManagerOk(PutScope(m, id, s))
  {
    ShrinkingKeepsQuotas(m, id, s);
    ShrinkingKeepsIndex(m, id, s);
    hide ScopeOk, IndexOk, QuotasOk, Shrinks;
  }

  /** Executions have nothing to do with scopes and seats. */
  lemma {:induction false} ExecutionsKeepManagerOk(m: Manager, executions: map<string, Execution>)
    requires ManagerOk(m) && |Running(m.(executions := executions))| <= MAX_CONCURRENT_EXECUTIONS
    ensures ManagerOk(m.(executions := executions))
  {
    var n := m.(executions := executions);
    assert ActiveScopes(n) == ActiveScopes(m) && LiveSeats(n) == LiveSeats(m);
    hide ScopeOk;
  }

  // ---------------------------------------------------------------------------------------------
  // Creating
  // ---------------------------------------------------------------------------------------------

  lemma {:induction false} SeatsOfAreOk(participants: seq<Participant>)
    ensures |SeatsOf(participants)| <= |participants|
    ensures forall p | p in SeatsOf(participants) :: SeatOk(Creating, SeatsOf(participants)[p])
  {
    if participants != [] {
      var n := |participants| - 1;
      SeatsOfAreOk(participants[..n]);
      var before := SeatsOf(participants[..n]);
      assert SeatsOf(participants).Keys == before.Keys + {participants[n].id};
    }
  }

  /** The seats of a new scope, as they count towards the quota. */
  lemma {:induction false} NewSeatsCount(id: string, seats: map<string, Seat>)
    ensures |set p | p in seats :: (id, p)| == |seats|
  {
    PairsCount(id, seats.Keys);
    assert (set p | p in seats :: (id, p)) == (set p | p in seats.Keys :: (id, p));
    assert |seats| == |seats.Keys|;
  }

  lemma {:induction false} PairsCount(id: string, names: set<string>)
    ensures |set p | p in names :: (id, p)| == |names|
    decreases names
  {
    if names != {} {
      var q :| q in names;
      PairsCount(id, names - {q});
      assert (set p | p in names :: (id, p)) == (set p | p in names - {q} :: (id, p)) + {(id, q)};
    }
  }

  lemma {:induction false} NewScopeAddsSeats(m: Manager, id: string, s: Scope)
    requires id !in m.scopes && s.phase == Creating
    ensures |LiveSeats(PutScope(m, id, s))| <= |LiveSeats(m)| + |s.seats|
  {
    var (n, more) := (PutScope(m, id, s), set p | p in s.seats :: (id, p));
    NewSeatsCount(id, s.seats);
    forall x | x in LiveSeats(n) ensures x in LiveSeats(m) + more {
      assert x.0 in n.scopes && x.1 in n.scopes[x.0].seats;
    }
    hide LiveSeats;
    SubsetIsSmaller(LiveSeats(n), LiveSeats(m) + more);
  }

  lemma {:induction false} NewScopeKeepsQuotas(m: Manager, id: string, s: Scope)
    requires QuotasOk(m) && id !in m.scopes && s.phase == Creating
    requires |ActiveScopes(m)| < MAX_ACTIVE_SCOPES && |LiveSeats(m)| + |s.seats| <= MAX_DRIVER_PROCESSES
    ensures QuotasOk(PutScope(m, id, s))
  {
    NewScopeAddsSeats(m, id, s);
    NewScopeAddsItself(m, id, s);
    hide LiveSeats, ActiveScopes, Running;
  }

  lemma {:induction false} NewScopeAddsItself(m: Manager, id: string, s: Scope)
    requires id !in m.scopes && s.phase == Creating
    ensures |ActiveScopes(PutScope(m, id, s))| == |ActiveScopes(m)| + 1
    ensures Running(PutScope(m, id, s)) == Running(m)
  {
    assert ActiveScopes(PutScope(m, id, s)) == ActiveScopes(m) + {id};
  }

  lemma NewScopeKeepsIndex(m: Manager, id: string, s: Scope)
    requires IndexOk(m) && id !in m.scopes && s.phase == Creating
    requires s.requestId in m.index ==> m.scopes[m.index[s.requestId]].phase == Closed
    ensures IndexOk(PutScope(m, id, s).(index := m.index[s.requestId := id]))
  {
  }

  /** Neither the queue of creates nor the index counts. */
  lemma QueueAndIndexDoNotCount(m: Manager, creates: seq<int>, index: map<string, string>)
    ensures var n := m.(creates := creates, index := index);
            ActiveScopes(n) == ActiveScopes(m) && LiveSeats(n) == LiveSeats(m) && Running(n) == Running(m)
  {
  }

  lemma {:induction false} AddKeepsManagerOk(m: Manager, id: string, s: Scope, creates: seq<int>)
    requires ManagerOk(m) && id !in m.scopes && s.phase == Creating && ScopeOk(s)
    requires |ActiveScopes(m)| < MAX_ACTIVE_SCOPES && |LiveSeats(m)| + |s.seats| <= MAX_DRIVER_PROCESSES
    requires s.requestId in m.index ==> m.scopes[m.index[s.requestId]].phase == Closed
    ensures ManagerOk(PutScope(m, id, s).(index := m.index[s.requestId := id], creates := creates))
  {
    NewScopeKeepsQuotas(m, id, s);
    NewScopeKeepsIndex(m, id, s);
    QueueAndIndexDoNotCount(PutScope(m, id, s), creates, m.index[s.requestId := id]);
    hide ActiveScopes, LiveSeats, Running, ScopeOk;
  }

  lemma {:induction false} QueueKeepsManagerOk(m: Manager, creates: seq<int>)
    requires ManagerOk(m)
    ensures ManagerOk(m.(creates := creates))
  {
    QueueAndIndexDoNotCount(m, creates, m.index);
    hide ScopeOk, ActiveScopes, LiveSeats, Running;
  }

  lemma {:induction false} NewScopeIsOk(e: Event)
    requires e.Create? && |e.participants| <= MAX_PARTICIPANTS_PER_SCOPE
    ensures ScopeOk(NewScope(e)) && |NewScope(e).seats| <= |e.participants|
  {
    SeatsOfAreOk(e.participants);
  }

  lemma {:induction false} AdmitKeepsManagerOk(m: Manager, e: Event)
    requires ManagerOk(m) && e.Create? && e.scopeId !in m.scopes
    requires e.requestId in m.index ==> m.scopes[m.index[e.requestId]].phase == Closed
    ensures ManagerOk(Admit(m, e).0)
  {
    hide ScopeOk, IndexOk, QuotasOk, ActiveScopes, LiveSeats, Running;
    if Admit(m, e).1.Lease? {
      NewScopeIsOk(e);
      AddKeepsManagerOk(m, e.scopeId, NewScope(e), m.creates + [e.createdAt]);
    }
  }

  lemma IndexLeadsToScope(m: Manager, requestId: string)
    requires IndexOk(m)
    ensures requestId in m.index ==> m.index[requestId] in m.scopes
  {
  }

  lemma {:induction false} CreateKeepsManagerOk(m: Manager, e: Event)
    requires ManagerOk(m) && e.Create? && e.scopeId !in m.scopes
    ensures ManagerOk(OnCreate(m, e).0)
  {
    hide ScopeOk, IndexOk, QuotasOk, DropBefore, Admit;
    IndexLeadsToScope(m, e.requestId);
    var n := m.(creates := DropBefore(m.creates, e.checkedAt - MINUTE));
    QueueKeepsManagerOk(m, n.creates);
    if e.requestId in m.index ==> m.scopes[m.index[e.requestId]].phase == Closed { AdmitKeepsManagerOk(n, e); }
  }

  // ---------------------------------------------------------------------------------------------
  // Turns and the end of a scope
  // ---------------------------------------------------------------------------------------------

  lemma {:induction false} RunningGrowsByOne(m: Manager, id: string, x: Execution)
    requires id !in m.executions
    ensures |Running(m.(executions := m.executions[id := x]))| <= |Running(m)| + if x.running then 1 else 0
  {
    var n := m.(executions := m.executions[id := x]);
    assert Running(n) == if x.running then Running(m) + {id} else Running(m);
  }

  lemma ScheduleIdleKeepsScopeOk(s: Scope)
    requires ScopeOk(s)
    ensures ScopeOk(ScheduleIdle(s)) && Shrinks(s, ScheduleIdle(s))
  {
  }

  lemma {:induction false} ExecuteKeepsManagerOk(m: Manager, e: Event)
    requires ManagerOk(m) && e.Execute?
    ensures ManagerOk(OnExecute(m, e).0)
  {
    var (n, reply) := OnExecute(m, e);
    if reply == FailedTurn || reply == Dispatched {
      var s := m.scopes[e.scopeId];
      var x := Execution(e.scopeId, e.participantId, reply == Dispatched);
      var executions := m.executions[e.executionId := x];
      RunningGrowsByOne(m, e.executionId, x);
      ExecutionsKeepManagerOk(m, executions);
      var seat := s.seats[e.participantId];
      var t := if reply == FailedTurn then ScheduleIdle(s)
               else PutSeat(s, e.participantId, seat.(runtime := Busy, busy := Some(e.executionId)));
      ScheduleIdleKeepsScopeOk(s);
      PutSeatKeepsScopeOk(s, e.participantId, seat.(runtime := Busy, busy := Some(e.executionId)));
      hide ScopeOk, IndexOk, Shrinks, Running, ActiveScopes, LiveSeats;
      ShrinkingKeepsManagerOk(m.(executions := executions), e.scopeId, t);
    }
  }

  lemma {:induction false} TerminalKeepsManagerOk(m: Manager, id: string)
    requires ManagerOk(m)
    ensures ManagerOk(OnTerminal(m, id))
  {
    if id in m.executions && m.executions[id].running {
      var x := m.executions[id];
      var executions := m.executions[id := x.(running := false)];
      assert Running(m.(executions := executions)) == Running(m) - {id};
      SubsetIsSmaller(Running(m.(executions := executions)), Running(m));
      ExecutionsKeepManagerOk(m, executions);
      if x.scopeId in m.scopes {
        ScheduleIdleKeepsScopeOk(m.scopes[x.scopeId]);
        ShrinkingKeepsManagerOk(m.(executions := executions), x.scopeId, ScheduleIdle(m.scopes[x.scopeId]));
      }
    }
  }

  lemma {:induction false} FinishCloseKeepsManagerOk(m: Manager, id: string)
    requires ManagerOk(m) && id in m.scopes && m.scopes[id].phase == Closing && AllReleased(m.scopes[id])
    ensures ManagerOk(FinishClose(m, id))
  {
    FinishCloseFrees(m, id);
    FinishCloseKeepsIndex(m, id);
    hide IndexOk, QuotasOk;
    assert ScopeOk(m.scopes[id]);
    assert ScopeOk(FinishClose(m, id).scopes[id]);
    hide ScopeOk;
  }

  lemma FinishCloseKeepsIndex(m: Manager, id: string)
    requires IndexOk(m) && id in m.scopes && m.scopes[id].phase == Closing
    ensures IndexOk(FinishClose(m, id))
  {
  }

  lemma {:induction false} FinishCloseFrees(m: Manager, id: string)
    requires QuotasOk(m) && id in m.scopes
    ensures QuotasOk(FinishClose(m, id))
  {
    var n := FinishClose(m, id);
    assert ActiveScopes(n) <= ActiveScopes(m) && LiveSeats(n) <= LiveSeats(m) && Running(n) <= Running(m);
    SubsetIsSmaller(ActiveScopes(n), ActiveScopes(m));
    SubsetIsSmaller(LiveSeats(n), LiveSeats(m));
    SubsetIsSmaller(Running(n), Running(m));
  }

  /** Every step keeps quotas, request ids, timers and the seats of closed scopes in order. */
  lemma {:induction false} StepKeepsManagerOk(m: Manager, e: Event)
    requires ManagerOk(m)
    ensures ManagerOk(Step(m, e).0)
  {
    hide OnCreate, OnExecute, OnTerminal, FinishClose, OnScope, ManagerOk, AllReleased;
    match e
    case Create(id, _, _, _, _, _) => if id !in m.scopes { CreateKeepsManagerOk(m, e); }
    case Execute(_, _, _, _, _, _) => ExecuteKeepsManagerOk(m, e);
    case Terminal(x) => TerminalKeepsManagerOk(m, x);
    case Activate(id, _, _) => ControllerKeepsManagerOk(m, e, id);
    case Takeover(id, _) => ControllerKeepsManagerOk(m, e, id);
    case Close(id, _, _) => ControllerKeepsManagerOk(m, e, id);
    case CloseFinished(id) =>
      if id in m.scopes && m.scopes[id].phase == Closing && AllReleased(m.scopes[id]) {
        FinishCloseKeepsManagerOk(m, id);
      }
    case _ => if e.scopeId in m.scopes { ScopeStepKeepsManagerOk(m, e, e.scopeId); }
  }

  lemma {:induction false} ScopeStepKeepsManagerOk(m: Manager, e: Event, id: string)
    requires ManagerOk(m) && id in m.scopes
    ensures ManagerOk(PutScope(m, id, OnScope(m.scopes[id], e)))
  {
    OnScopeKeepsScopeOk(m.scopes[id], e);
    ShrinkingKeepsManagerOk(m, id, OnScope(m.scopes[id], e));
  }

  lemma {:induction false} ControllerKeepsManagerOk(m: Manager, e: Event, id: string)
    requires ManagerOk(m) && (e.Activate? || e.Takeover? || e.Close?) && e.scopeId == id
    ensures ManagerOk(Step(m, e).0)
  {
    var n := Step(m, e).0;
    if n != m {
      var (s, t) := (m.scopes[id], n.scopes[id]);
      assert n == PutScope(m, id, t);
      assert ScopeOk(s);
      assert ScopeOk(t) && Shrinks(s, t);
      ShrinkingKeepsManagerOk(m, id, t);
    }
  }

  // ---------------------------------------------------------------------------------------------
  // Runs
  // ---------------------------------------------------------------------------------------------

  function Run(m: Manager, events: seq<Event>): Manager
    decreases |events|
  {
    if events == [] then m else Run(Step(m, events[0]).0, events[1..])
  }

  lemma {:induction false} RunKeepsManagerOk(m: Manager, events: seq<Event>)
    requires ManagerOk(m)
    ensures ManagerOk(Run(m, events))
    decreases |events|
  {
    if events != [] {
      StepKeepsManagerOk(m, events[0]);
      RunKeepsManagerOk(Step(m, events[0]).0, events[1..]);
    }
  }

  lemma {:induction false} NewManagerIsOk()
    ensures ManagerOk(NEW_MANAGER)
  {
    assert ActiveScopes(NEW_MANAGER) == {} && LiveSeats(NEW_MANAGER) == {} && Running(NEW_MANAGER) == {};
  }

  predicate Unclosed(m: Manager, id: string) {
    id in m.scopes && m.scopes[id].phase != Closed
  }

  /**
   * In every reachable state: the quotas hold; a request id has at most one scope that is not closed; a
   * closed scope has only cold or failed seats, however late a prewarm or a turn settles; and a timer is
   * armed for every scope that is being created or active, and for no other.
   */
  lemma {:induction false} EveryRunIsOk(events: seq<Event>, a: string, b: string)
    ensures var m := Run(NEW_MANAGER, events);
            && |ActiveScopes(m)| <= 4 && |LiveSeats(m)| <= 16 && |Running(m)| <= 4
            && (Unclosed(m, a) && Unclosed(m, b) && m.scopes[a].requestId == m.scopes[b].requestId ==> a == b)
            && (a in m.scopes && m.scopes[a].phase == Closed ==>
                  forall p | p in m.scopes[a].seats :: Quiet(m.scopes[a].seats[p].runtime))
            && (a in m.scopes ==> (m.scopes[a].idleArmed <==> m.scopes[a].phase == Active))
            && (a in m.scopes ==> (m.scopes[a].creatingArmed <==> m.scopes[a].phase == Creating))
  {
    NewManagerIsOk();
    RunKeepsManagerOk(NEW_MANAGER, events);
    var m := Run(NEW_MANAGER, events);
    if a in m.scopes { assert ScopeOk(m.scopes[a]); }
  }

  // ---------------------------------------------------------------------------------------------
  // Controllers
  // ---------------------------------------------------------------------------------------------

  function Rank(phase: Phase): nat {
    match phase case Creating => 0 case Active => 1 case Closing => 2 case Closed => 3
  }

  /** Scopes are never forgotten, only advance, and a lease once taken over never becomes current again. */
  ghost predicate Advances(m: Manager, n: Manager, id: string) {
    id in m.scopes ==>
      && id in n.scopes && n.scopes[id].requestId == m.scopes[id].requestId
      && Rank(n.scopes[id].phase) >= Rank(m.scopes[id].phase)
      && n.scopes[id].leaseEpoch >= m.scopes[id].leaseEpoch
  }

  lemma OnScopeAdvances(s: Scope, e: Event)
    ensures var t := OnScope(s, e);
            t.requestId == s.requestId && t.leaseEpoch == s.leaseEpoch && Rank(t.phase) >= Rank(s.phase)
  {
  }

  lemma {:induction false} StepAdvances(m: Manager, e: Event, id: string)
    ensures Advances(m, Step(m, e).0, id)
  {
    hide DropBefore, SeatsOf, ActiveScopes, LiveSeats, Running, OnScope;
    if e.PrewarmSettled? || e.CreateFinished? || e.TurnSettled? || e.HostClose? || e.SeatClosed? || e.CreatingTimer?
       || e.IdleTimer?
    {
      if e.scopeId in m.scopes { OnScopeAdvances(m.scopes[e.scopeId], e); }
    }
  }

  lemma {:induction false} RunAdvances(m: Manager, events: seq<Event>, id: string)
    ensures Advances(m, Run(m, events), id)
    decreases |events|
  {
    if events != [] {
      StepAdvances(m, events[0], id);
      RunAdvances(Step(m, events[0]).0, events[1..], id);
    }
  }

  /** After a takeover the lease before it is refused for good, whatever controllers come and go. */
  lemma {:induction false} OldLeaseIsRefused(
    m: Manager, id: string, newController: string, events: seq<Event>, controllerId: string, leaseEpoch: nat)
    requires id in m.scopes && Step(m, Takeover(id, newController)).1.Lease? && leaseEpoch <= m.scopes[id].leaseEpoch
    ensures var n := Run(Step(m, Takeover(id, newController)).0, events);
            && id in n.scopes
            && Fence(n.scopes[id], controllerId, leaseEpoch).Some?
            && Step(n, Activate(id, controllerId, leaseEpoch)).0 == n
            && Step(n, Close(id, controllerId, leaseEpoch)).0 == n
            && forall x, p, rebase ::
                 Step(n, Execute(id, controllerId, leaseEpoch, x, p, rebase)).0 == n
                 && Step(n, Execute(id, controllerId, leaseEpoch, x, p, rebase)).1.Refused?
  {
    var taken := Step(m, Takeover(id, newController)).0;
    RunAdvances(taken, events, id);
    hide Run;
  }

  // ---------------------------------------------------------------------------------------------
  // One turn per seat
  // ---------------------------------------------------------------------------------------------

  predicate Occupied(m: Manager, id: string, p: string, x: string) {
    id in m.scopes && p in m.scopes[id].seats && m.scopes[id].seats[p].busy == Some(x)
  }

  lemma {:induction false} StepKeepsOccupied(m: Manager, e: Event, id: string, p: string, x: string)
    requires Occupied(m, id, p, x) && e != TurnSettled(id, p)
    ensures Occupied(Step(m, e).0, id, p, x)
  {
    hide DropBefore, SeatsOf, ActiveScopes, LiveSeats, Running;
  }

  /** Until a turn's promise settles no other turn is dispatched to its seat, even by a new controller. */
  lemma {:induction false} NoSecondDispatch(m: Manager, e: Event, events: seq<Event>, next: Event)
    requires e.Execute? && Step(m, e).1 == Dispatched
    requires forall k | 0 <= k < |events| :: events[k] != TurnSettled(e.scopeId, e.participantId)
    requires next.Execute? && next.scopeId == e.scopeId && next.participantId == e.participantId
    ensures Step(Run(Step(m, e).0, events), next).1 != Dispatched
  {
    StaysOccupied(Step(m, e).0, events, e.scopeId, e.participantId, e.executionId);
  }

  lemma {:induction false} StaysOccupied(m: Manager, events: seq<Event>, id: string, p: string, x: string)
    requires Occupied(m, id, p, x)
    requires forall k | 0 <= k < |events| :: events[k] != TurnSettled(id, p)
    ensures Occupied(Run(m, events), id, p, x)
    decreases |events|
  {
    if events != [] {
      StepKeepsOccupied(m, events[0], id, p, x);
      StaysOccupied(Step(m, events[0]).0, events[1..], id, p, x);
    }
  }

  /** The idle timer never closes a scope with a turn in flight; it starts over instead. */
  lemma {:induction false} IdleTimerSparesBusy(m: Manager, id: string, p: string, x: string)
    requires Occupied(m, id, p, x) && m.scopes[id].idleArmed && ScopeOk(m.scopes[id])
    ensures var s := Step(m, IdleTimer(id)).0.scopes[id];
            s.phase == Active && s.idleArmed && s.seats == m.scopes[id].seats
  {
    assert AnyBusy(m.scopes[id]);
  }

  // ---------------------------------------------------------------------------------------------
  // The rate of creates
  // ---------------------------------------------------------------------------------------------

  /** Any eleven creates in a row take more than a minute. */
  ghost predicate Spaced(log: seq<int>) {
    forall i | 0 <= i && i + CREATES_PER_MINUTE < |log| :: log[i + CREATES_PER_MINUTE] - log[i] > MINUTE
  }

  ghost predicate Sorted(log: seq<int>) {
    forall i, j | 0 <= i <= j < |log| :: log[i] <= log[j]
  }

  /** The queue is the end of the log of all creates; what has left it is more than a minute old. */
  ghost predicate RateOk(queue: seq<int>, log: seq<int>, now: int) {
    && Spaced(log) && Sorted(log) && (forall i | 0 <= i < |log| :: log[i] <= now)
    && |queue| <= |log| && queue == log[|log| - |queue|..]
    && forall i | 0 <= i < |log| - |queue| :: log[i] < now - MINUTE
  }

  lemma {:induction false} DroppingKeepsRate(queue: seq<int>, log: seq<int>, now: int)
    requires RateOk(queue, log, now)
    ensures var kept := DropBefore(queue, now - MINUTE); |kept| <= |queue| && RateOk(kept, log, now)
    decreases |queue|
  {
    if queue != [] && queue[0] < now - MINUTE {
      assert queue[1..] == log[|log| - |queue| + 1..];
      DroppingKeepsRate(queue[1..], log, now);
    }
  }

  lemma {:induction false} AppendKeepsRate(queue: seq<int>, log: seq<int>, now: int, t: int)
    requires RateOk(queue, log, now) && |queue| < CREATES_PER_MINUTE && now <= t
    ensures RateOk(queue + [t], log + [t], t)
  {
    var more := log + [t];
    assert queue + [t] == more[|more| - |queue + [t]|..];
  }

  /** The log grows by the creates that are granted a new scope. */
  function LogOf(m: Manager, e: Event, log: seq<int>): seq<int> {
    if e.Create? && e.scopeId !in m.scopes && e.scopeId in Step(m, e).0.scopes then log + [e.createdAt] else log
  }

  predicate Monotone(now: int, events: seq<Event>)
    decreases |events|
  {
    events != [] ==>
      if events[0].Create? then
        now <= events[0].checkedAt <= events[0].createdAt && Monotone(events[0].createdAt, events[1..])
      else Monotone(now, events[1..])
  }

  function Creates(m: Manager, events: seq<Event>, log: seq<int>): seq<int>
    decreases |events|
  {
    if events == [] then log else Creates(Step(m, events[0]).0, events[1..], LogOf(m, events[0], log))
  }

  lemma {:induction false} StepKeepsRate(m: Manager, e: Event, log: seq<int>, now: int)
    requires RateOk(m.creates, log, now)
    requires e.Create? ==> now <= e.checkedAt <= e.createdAt
    ensures RateOk(Step(m, e).0.creates, LogOf(m, e, log), if e.Create? then e.createdAt else now)
  {
    if e.Create? {
      LaterKeepsRate(m.creates, log, now, e.createdAt);
      if e.scopeId !in m.scopes { CreateKeepsRate(m, e, log, now); }
    } else {
      hide RateOk, DropBefore, SeatsOf, ActiveScopes, LiveSeats, Running, OnScope;
    }
  }

  lemma {:induction false} AdmitKeepsRate(m: Manager, e: Event, log: seq<int>)
    requires e.Create? && e.scopeId !in m.scopes && e.checkedAt <= e.createdAt
    requires RateOk(m.creates, log, e.checkedAt)
    ensures var n := Admit(m, e).0;
            RateOk(n.creates, if e.scopeId in n.scopes then log + [e.createdAt] else log, e.createdAt)
  {
    LaterKeepsRate(m.creates, log, e.checkedAt, e.createdAt);
    if |m.creates| < CREATES_PER_MINUTE { AppendKeepsRate(m.creates, log, e.checkedAt, e.createdAt); }
    hide RateOk, ActiveScopes, LiveSeats, NewScope;
  }

  lemma {:induction false} CreateKeepsRate(m: Manager, e: Event, log: seq<int>, now: int)
    requires RateOk(m.creates, log, now) && e.Create? && now <= e.checkedAt <= e.createdAt
    requires e.scopeId !in m.scopes
    ensures RateOk(OnCreate(m, e).0.creates, LogOf(m, e, log), e.createdAt)
  {
    hide RateOk, Admit, DropBefore;
    LaterKeepsRate(m.creates, log, now, e.checkedAt);
    LaterKeepsRate(m.creates, log, now, e.createdAt);
    DroppingKeepsRate(m.creates, log, e.checkedAt);
    AdmitKeepsRate(m.(creates := DropBefore(m.creates, e.checkedAt - MINUTE)), e, log);
  }

  lemma LaterKeepsRate(queue: seq<int>, log: seq<int>, now: int, later: int)
    requires RateOk(queue, log, now) && now <= later
    ensures RateOk(queue, log, later)
  {
  }

  lemma {:induction false} CreatesAreSpaced(m: Manager, events: seq<Event>, log: seq<int>, now: int)
    requires RateOk(m.creates, log, now) && Monotone(now, events)
    ensures Spaced(Creates(m, events, log)) && Sorted(Creates(m, events, log))
    decreases |events|
  {
    if events != [] {
      StepKeepsRate(m, events[0], log, now);
      CreatesAreSpaced(Step(m, events[0]).0, events[1..], LogOf(m, events[0], log),
                       if events[0].Create? then events[0].createdAt else now);
    }
  }

  /**
   * With a clock that does not step back, any eleven creates take more than sixty seconds: at most ten
   * scopes are created in any such window.
   */
  lemma {:induction false} AtMostTenCreatesPerMinute(events: seq<Event>, now: int, i: nat, j: nat)
    requires Monotone(now, events)
    requires i + 10 <= j < |Creates(NEW_MANAGER, events, [])|
    ensures Creates(NEW_MANAGER, events, [])[j] - Creates(NEW_MANAGER, events, [])[i] > 60_000
  {
    CreatesAreSpaced(NEW_MANAGER, events, [], now);
    var log := Creates(NEW_MANAGER, events, []);
    assert log[i + CREATES_PER_MINUTE] - log[i] > MINUTE && log[i + CREATES_PER_MINUTE] <= log[j];
  }
}
