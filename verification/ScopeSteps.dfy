/**
 * The scope manager as atomic steps: requests up to their first await, and the continuations, timers and
 * driver callbacks that come later in any order.
 */
module ScopeSteps {
  import opened Options

  const MAX_ACTIVE_SCOPES := 4
  const MAX_PARTICIPANTS_PER_SCOPE := 8
  const MAX_DRIVER_PROCESSES := 16
  const MAX_CONCURRENT_EXECUTIONS := 4
  const CREATES_PER_MINUTE := 10
  const MINUTE := 60_000

  datatype Runtime = Cold | Prewarming | Ready | Busy | Failed

  datatype Phase = Creating | Active | Closing | Closed

  datatype Seat = Seat(
    runtime: Runtime,
    bound: bool,                 // a binding has been resolved
    busy: Option<string>,        // the execution whose driver promise is pending
    warming: bool,               // the driver's prewarm is in flight
    released: bool)              // its driver has been closed with the scope

  datatype Scope = Scope(
    requestId: string, phase: Phase, controllerId: string, leaseEpoch: nat, seats: map<string, Seat>,
    creatingArmed: bool, idleArmed: bool)

  datatype Execution = Execution(scopeId: string, participantId: string, running: bool)

  datatype Manager = Manager(
    scopes: map<string, Scope>, index: map<string, string>, creates: seq<int>, executions: map<string, Execution>)

  const NEW_MANAGER := Manager(map[], map[], [], map[])

  datatype Code =
    | ScopeNotFound | ScopeClosed | StaleController | ParticipantNotFound | ParticipantBusy
    | ResourceLimit | RateLimited | ProfileInvalid

  datatype Reply =
    | Lease(scopeId: string, controllerId: string, leaseEpoch: nat)
    | Status(phase: Phase)
    | Dispatched
    | Known
    | FailedTurn
    | Refused(code: Code)
    | NoReply

  /** A participant of a request: whether its driver exists, and whether its installation is ready to prewarm. */
  datatype Participant = Participant(id: string, hasDriver: bool, starts: bool)

  datatype Prewarm = Resolved(bound: bool) | Cancelled | Rejected

  datatype Event =
    | Create(scopeId: string, controllerId: string, requestId: string, participants: seq<Participant>,
             checkedAt: int, createdAt: int)
    | PrewarmSettled(scopeId: string, participantId: string, outcome: Prewarm)
    | CreateFinished(scopeId: string)
    | Activate(scopeId: string, controllerId: string, leaseEpoch: nat)
    | Takeover(scopeId: string, controllerId: string)
    | Execute(scopeId: string, controllerId: string, leaseEpoch: nat, executionId: string, participantId: string,
              rebase: bool)
    | Terminal(executionId: string)
    | TurnSettled(scopeId: string, participantId: string)
    | Close(scopeId: string, controllerId: string, leaseEpoch: nat)
    | HostClose(scopeId: string)
    | SeatClosed(scopeId: string, participantId: string)
    | CloseFinished(scopeId: string)
    | CreatingTimer(scopeId: string)
    | IdleTimer(scopeId: string)

  // ---------------------------------------------------------------------------------------------
  // Quotas
  // ---------------------------------------------------------------------------------------------

  predicate Open(phase: Phase) {
    phase == Creating || phase == Active
  }

  predicate LiveRuntime(r: Runtime) {
    r == Ready || r == Busy || r == Prewarming
  }

  function ActiveScopes(m: Manager): set<string> {
    set id | id in m.scopes && Open(m.scopes[id].phase)
  }

  function LiveSeats(m: Manager): set<(string, string)> {
    set id, p | id in m.scopes && p in m.scopes[id].seats
                && m.scopes[id].phase != Closing && m.scopes[id].phase != Closed
                && LiveRuntime(m.scopes[id].seats[p].runtime) :: (id, p)
  }

  function Running(m: Manager): set<string> {
    set e | e in m.executions && m.executions[e].running
  }

  /** Creates before the cutoff are forgotten, from the front of the queue. */
  function DropBefore(times: seq<int>, cutoff: int): seq<int> {
    if times == [] || times[0] >= cutoff then times else DropBefore(times[1..], cutoff)
  }

  // ---------------------------------------------------------------------------------------------
  // Steps
  // ---------------------------------------------------------------------------------------------

  function PutScope(m: Manager, id: string, s: Scope): Manager {
    m.(scopes := m.scopes[id := s])
  }

  function PutSeat(s: Scope, p: string, seat: Seat): Scope {
    s.(seats := s.seats[p := seat])
  }

  function Fence(s: Scope, controllerId: string, leaseEpoch: nat): Option<Code> {
    if !Open(s.phase) then Some(ScopeClosed)
    else if s.controllerId != controllerId || s.leaseEpoch != leaseEpoch then Some(StaleController)
    else None
  }

  function SeatsOf(participants: seq<Participant>): map<string, Seat> {
    if participants == [] then map[]
    else
      var last := participants[|participants| - 1];
      SeatsOf(participants[..|participants| - 1])[last.id :=
        Seat(if last.starts then Prewarming else Failed, false, None, last.starts, false)]
  }

  function NewScope(e: Event): Scope
    requires e.Create?
  {
    Scope(e.requestId, Creating, e.controllerId, 1, SeatsOf(e.participants), true, false)
  }

  /** The checks of a create, behind the one for an existing scope, and the new scope. */
  function Admit(m: Manager, e: Event): (Manager, Reply)
    requires e.Create?
  {
    if |m.creates| >= CREATES_PER_MINUTE then (m, Refused(RateLimited))
    else if |ActiveScopes(m)| >= MAX_ACTIVE_SCOPES then (m, Refused(ResourceLimit))
    else if |e.participants| > MAX_PARTICIPANTS_PER_SCOPE then (m, Refused(ResourceLimit))
    else if |LiveSeats(m)| + |e.participants| > MAX_DRIVER_PROCESSES then (m, Refused(ResourceLimit))
    else if exists p | p in e.participants :: !p.hasDriver then (m, Refused(ProfileInvalid))
    else
      (PutScope(m, e.scopeId, NewScope(e)).(
         index := m.index[e.requestId := e.scopeId], creates := m.creates + [e.createdAt]),
       Lease(e.scopeId, e.controllerId, 1))
  }

  function OnCreate(m: Manager, e: Event): (Manager, Reply)
    requires e.Create?
  {
    if e.requestId in m.index && m.index[e.requestId] in m.scopes && m.scopes[m.index[e.requestId]].phase != Closed then
      var s := m.scopes[m.index[e.requestId]];
      (m, Lease(m.index[e.requestId], s.controllerId, s.leaseEpoch))
    else Admit(m.(creates := DropBefore(m.creates, e.checkedAt - MINUTE)), e)
  }

  function PrewarmedSeat(phase: Phase, seat: Seat, outcome: Prewarm): Seat {
    var done := seat.(warming := false);
    match outcome
    case Cancelled => done.(runtime := Cold, bound := false)
    case Rejected => done.(runtime := Failed)
    case Resolved(bound) =>
      if Open(phase) then done.(runtime := if bound then Ready else Failed, bound := bound)
      else done.(runtime := Cold, bound := false)
  }

  /** A prewarm that resolved before its scope was closed is undone. */
  function TornDown(seats: map<string, Seat>): map<string, Seat> {
    map p | p in seats ::
      if seats[p].runtime == Ready || seats[p].runtime == Prewarming
      then seats[p].(runtime := Cold, bound := false) else seats[p]
  }

  /** The idle timer is armed only while the scope is active. */
  function ScheduleIdle(s: Scope): Scope {
    if s.phase == Active then s.(idleArmed := true) else s
  }

  function BeginClose(s: Scope): Scope {
    if Open(s.phase) then s.(phase := Closing, creatingArmed := false, idleArmed := false) else s
  }

  predicate AnyBusy(s: Scope) {
    exists p | p in s.seats :: s.seats[p].busy.Some? || s.seats[p].runtime == Busy
  }

  function OnExecute(m: Manager, e: Event): (Manager, Reply)
    requires e.Execute?
  {
    if e.scopeId !in m.scopes then (m, Refused(ScopeNotFound))
    else
      var s := m.scopes[e.scopeId];
      var fence := Fence(s, e.controllerId, e.leaseEpoch);
      if fence.Some? then (m, Refused(fence.value))
      else if s.phase != Active then (m, Refused(ScopeClosed))
      else if e.participantId !in s.seats then (m, Refused(ParticipantNotFound))
      else
        var seat := s.seats[e.participantId];
        if seat.runtime != Ready || seat.busy.Some? then (m, Refused(ParticipantBusy))
        else if |Running(m)| >= MAX_CONCURRENT_EXECUTIONS then (m, Refused(ResourceLimit))
        else if e.executionId in m.executions then (m, Known)
        else if !seat.bound || e.rebase then
          (PutScope(m, e.scopeId, ScheduleIdle(s)).(executions :=
             m.executions[e.executionId := Execution(e.scopeId, e.participantId, false)]), FailedTurn)
        else
          (PutScope(m, e.scopeId, PutSeat(s, e.participantId, seat.(runtime := Busy, busy := Some(e.executionId)))).(
             executions := m.executions[e.executionId := Execution(e.scopeId, e.participantId, true)]), Dispatched)
  }

  function OnTerminal(m: Manager, executionId: string): Manager {
    if executionId !in m.executions || !m.executions[executionId].running then m
    else
      var x := m.executions[executionId];
      var n := m.(executions := m.executions[executionId := x.(running := false)]);
      if x.scopeId in m.scopes then PutScope(n, x.scopeId, ScheduleIdle(m.scopes[x.scopeId])) else n
  }

  function FinishClose(m: Manager, id: string): Manager
    requires id in m.scopes
  {
    var s := m.scopes[id];
    PutScope(m, id, s.(phase := Closed)).(
      index := m.index - {s.requestId},
      executions := map e | e in m.executions && m.executions[e].scopeId != id :: m.executions[e])
  }

  /** A continuation or timer of one scope: what it does to the scope, if it is there to run. */
  function OnScope(s: Scope, e: Event): Scope {
    match e
    case PrewarmSettled(_, p, outcome) =>
      if p in s.seats && s.seats[p].warming then PutSeat(s, p, PrewarmedSeat(s.phase, s.seats[p], outcome)) else s
    case CreateFinished(_) => if Open(s.phase) then s else s.(seats := TornDown(s.seats))
    case TurnSettled(_, p) =>
      if p in s.seats && s.seats[p].busy.Some? then
        var seat := s.seats[p];
        PutSeat(s, p, seat.(busy := None, runtime := if seat.runtime == Busy then Ready else seat.runtime))
      else s
    case HostClose(_) => BeginClose(s)
    case SeatClosed(_, p) =>
      if s.phase == Closing && p in s.seats then PutSeat(s, p, s.seats[p].(runtime := Cold, released := true)) else s
    case CreatingTimer(_) =>
      if s.creatingArmed && s.phase == Creating then BeginClose(s) else s.(creatingArmed := false)
    case IdleTimer(_) =>
      var t := s.(idleArmed := false);
      if !s.idleArmed || s.phase != Active then t else if AnyBusy(s) then ScheduleIdle(t) else BeginClose(t)
    case _ => s
  }

  predicate AllReleased(s: Scope) {
    forall p | p in s.seats :: s.seats[p].released
  }

  function Step(m: Manager, e: Event): (Manager, Reply) {
    match e
    case Create(id, _, _, _, _, _) => if id in m.scopes then (m, NoReply) else OnCreate(m, e)
    case Execute(_, _, _, _, _, _) => OnExecute(m, e)
    case Terminal(x) => (OnTerminal(m, x), NoReply)
    case Activate(id, c, epoch) =>
      if id !in m.scopes then (m, Refused(ScopeNotFound))
      else
        var s := m.scopes[id];
        var fence := Fence(s, c, epoch);
        if fence.Some? then (m, Refused(fence.value))
        else if s.phase == Creating then
          (PutScope(m, id, ScheduleIdle(s.(phase := Active, creatingArmed := false))), Status(Active))
        else (m, Status(s.phase))
    case Takeover(id, c) =>
      if id !in m.scopes then (m, Refused(ScopeNotFound))
      else if !Open(m.scopes[id].phase) then (m, Refused(ScopeClosed))
      else
        var s := m.scopes[id];
        (PutScope(m, id, s.(controllerId := c, leaseEpoch := s.leaseEpoch + 1)), Lease(id, c, s.leaseEpoch + 1))
    case Close(id, c, epoch) =>
      if id !in m.scopes then (m, Refused(ScopeNotFound))
      else
        var fence := Fence(m.scopes[id], c, epoch);
        if fence.Some? then (m, Refused(fence.value)) else (PutScope(m, id, BeginClose(m.scopes[id])), Status(Closing))
    case CloseFinished(id) =>
      (if id in m.scopes && m.scopes[id].phase == Closing && AllReleased(m.scopes[id]) then FinishClose(m, id) else m,
       NoReply)
    case _ => (if e.scopeId in m.scopes then PutScope(m, e.scopeId, OnScope(m.scopes[e.scopeId], e)) else m, NoReply)
  }
}
