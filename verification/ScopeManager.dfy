/** The scope manager's maps, queue and counting loops, changed in place by requests and callbacks. */
module ScopeManager {
  import opened Options
  import opened ScopeSteps
  import opened ScopeRuns

  class Manager {
    var scopes: map<string, Scope>
    var scopeRequestIndex: map<string, string>
    var scopeCreateTimestamps: seq<int>
    var executions: map<string, Execution>

    constructor ()
      ensures Valid() && View() == NEW_MANAGER
    {
      scopes, scopeRequestIndex, scopeCreateTimestamps, executions := map[], map[], [], map[];
      new;
      assert ActiveScopes(View()) == {} && LiveSeats(View()) == {} && Running(View()) == {};
    }

    function View(): ScopeSteps.Manager
      reads this
    {
      ScopeSteps.Manager(scopes, scopeRequestIndex, scopeCreateTimestamps, executions)
    }

    ghost predicate Valid()
      reads this
    {
      ManagerOk(View())
    }

    /** Forgets creates older than a minute and says whether one more is within the rate. */
    method CheckScopeCreateRate(now: int) returns (ok: bool)
      modifies `scopeCreateTimestamps
      ensures scopeCreateTimestamps == DropBefore(old(scopeCreateTimestamps), now - MINUTE)
      ensures ok == (|scopeCreateTimestamps| < CREATES_PER_MINUTE)
    {
      var cutoff := now - MINUTE;
      while scopeCreateTimestamps != [] && scopeCreateTimestamps[0] < cutoff
        invariant DropBefore(scopeCreateTimestamps, cutoff) == DropBefore(old(scopeCreateTimestamps), cutoff)
        decreases |scopeCreateTimestamps|
      {
        scopeCreateTimestamps := scopeCreateTimestamps[1..];
      }
      ok := |scopeCreateTimestamps| < CREATES_PER_MINUTE;
    }

    method ActiveScopeCount() returns (count: nat)
      ensures count == |ActiveScopes(View())|
    {
      var rest := scopes.Keys;
      ghost var counted: set<string> := {};
      count := 0;
      while rest != {}
        invariant rest <= scopes.Keys && count == |counted|
        invariant counted == set id | id in scopes.Keys - rest && Open(scopes[id].phase)
        decreases rest
      {
        var id :| id in rest;
        rest := rest - {id};
        if scopes[id].phase == Creating || scopes[id].phase == Active {
          count, counted := count + 1, counted + {id};
        }
      }
      assert counted == ActiveScopes(View());
    }

    method LiveDriverProcessCount() returns (count: nat)
      ensures count == |LiveSeats(View())|
    {
      var rest := scopes.Keys;
      ghost var counted: set<(string, string)> := {};
      count := 0;
      while rest != {}
        invariant rest <= scopes.Keys && count == |counted|
        invariant forall x :: x in counted <==> x in LiveSeats(View()) && x.0 !in rest
        decreases rest
      {
        var id :| id in rest;
        if scopes[id].phase != Closed && scopes[id].phase != Closing {
          var live := LiveSeatCount(scopes[id].seats);
          ghost var names := LiveSeatsOf(scopes[id].seats);
          ghost var more := set p | p in names :: (id, p);
          PairsCount(id, names);
          CountsAddUp(counted, more);
          count, counted := count + live, counted + more;
        }
        rest := rest - {id};
      }
      assert counted == LiveSeats(View());
    }

    method LiveSeatCount(seats: map<string, Seat>) returns (count: nat)
      ensures count == |LiveSeatsOf(seats)|
    {
      var rest := seats.Keys;
      ghost var counted: set<string> := {};
      count := 0;
      while rest != {}
        invariant rest <= seats.Keys && count == |counted|
        invariant counted == set p | p in seats.Keys - rest && LiveRuntime(seats[p].runtime)
        decreases rest
      {
        var p :| p in rest;
        rest := rest - {p};
        var r := seats[p].runtime;
        if r == Ready || r == Busy || r == Prewarming {
          count, counted := count + 1, counted + {p};
        }
      }
      assert counted == LiveSeatsOf(seats);
    }

    /** `createScope` up to the prewarms. */
    method CreateScope(
      scopeId: string, controllerId: string, requestId: string, participants: seq<Participant>, checkedAt: int,
      createdAt: int)
      returns (reply: Reply)
      requires Valid() && scopeId !in scopes
      modifies this
      ensures Valid()
      ensures (View(), reply) ==
              old(Step(View(), Create(scopeId, controllerId, requestId, participants, checkedAt, createdAt)))
    {
      ghost var before := View();
      ghost var e := Create(scopeId, controllerId, requestId, participants, checkedAt, createdAt);
      hide ManagerOk, OnExecute, OnTerminal, FinishClose, OnScope, AllReleased;
      StepKeepsManagerOk(before, e);
      if requestId in scopeRequestIndex && scopeRequestIndex[requestId] in scopes {
        var existing := scopes[scopeRequestIndex[requestId]];
        if existing.phase != Closed {
          return Lease(scopeRequestIndex[requestId], existing.controllerId, existing.leaseEpoch);
        }
      }
      var ok := CheckScopeCreateRate(checkedAt);
      hide DropBefore, SeatsOf, ActiveScopes, LiveSeats;
      if !ok { return Refused(RateLimited); }
      var active := ActiveScopeCount();
      if active >= MAX_ACTIVE_SCOPES { return Refused(ResourceLimit); }
      if |participants| > MAX_PARTICIPANTS_PER_SCOPE { return Refused(ResourceLimit); }
      var live := LiveDriverProcessCount();
      if live + |participants| > MAX_DRIVER_PROCESSES { return Refused(ResourceLimit); }
      if exists p | p in participants :: !p.hasDriver { return Refused(ProfileInvalid); }
      var seats := TakeSeats(participants);
      scopes := scopes[scopeId := Scope(requestId, Creating, controllerId, 1, seats, true, false)];
      scopeRequestIndex := scopeRequestIndex[requestId := scopeId];
      scopeCreateTimestamps := scopeCreateTimestamps + [createdAt];
      return Lease(scopeId, controllerId, 1);
    }

    /** The participants of a request, each with a driver whose prewarm begins or has failed at once. */
    method TakeSeats(participants: seq<Participant>) returns (seats: map<string, Seat>)
      ensures seats == SeatsOf(participants)
    {
      seats := map[];
      for n := 0 to |participants|
        invariant seats == SeatsOf(participants[..n])
      {
        var p := participants[n];
        assert participants[..n + 1][..n] == participants[..n];
        seats := seats[p.id := Seat(if p.starts then Prewarming else Failed, false, None, p.starts, false)];
      }
      assert participants[..|participants|] == participants;
    }

    method ActivateScope(scopeId: string, controllerId: string, leaseEpoch: nat) returns (reply: Reply)
      requires Valid()
      modifies `scopes
      ensures Valid() && (View(), reply) == old(Step(View(), Activate(scopeId, controllerId, leaseEpoch)))
    {
      hide ManagerOk, OnCreate, OnExecute, OnTerminal, FinishClose, OnScope, AllReleased;
      StepKeepsManagerOk(View(), Activate(scopeId, controllerId, leaseEpoch));
      if scopeId !in scopes { return Refused(ScopeNotFound); }
      var scope := scopes[scopeId];
      var fence := Fence(scope, controllerId, leaseEpoch);
      if fence.Some? { return Refused(fence.value); }
      if scope.phase == Creating {
        scopes := scopes[scopeId := ScheduleIdle(scope.(phase := Active, creatingArmed := false))];
        return Status(Active);
      }
      return Status(scope.phase);
    }

    method TakeOver(scopeId: string, newControllerId: string) returns (reply: Reply)
      requires Valid()
      modifies `scopes
      ensures Valid() && (View(), reply) == old(Step(View(), Takeover(scopeId, newControllerId)))
    {
      hide ManagerOk, OnCreate, OnExecute, OnTerminal, FinishClose, OnScope, AllReleased;
      StepKeepsManagerOk(View(), Takeover(scopeId, newControllerId));
      if scopeId !in scopes { return Refused(ScopeNotFound); }
      var scope := scopes[scopeId];
      if !Open(scope.phase) { return Refused(ScopeClosed); }
      scopes := scopes[scopeId := scope.(controllerId := newControllerId, leaseEpoch := scope.leaseEpoch + 1)];
      return Lease(scopeId, newControllerId, scope.leaseEpoch + 1);
    }

    /** `execute` up to the dispatch; `rebase` is the reconciler's answer. */
    method ExecuteTurn(
      scopeId: string, controllerId: string, leaseEpoch: nat, executionId: string, participantId: string, rebase: bool)
      returns (reply: Reply)
      requires Valid()
      modifies `scopes, `executions
      ensures Valid()
      ensures (View(), reply) ==
              old(Step(View(), Execute(scopeId, controllerId, leaseEpoch, executionId, participantId, rebase)))
    {
      ghost var e := Execute(scopeId, controllerId, leaseEpoch, executionId, participantId, rebase);
      hide ManagerOk, OnCreate, OnTerminal, FinishClose, OnScope, AllReleased, Fence, ScheduleIdle, Running;
      StepKeepsManagerOk(View(), e);
      if scopeId !in scopes { return Refused(ScopeNotFound); }
      var scope := scopes[scopeId];
      var fence := Fence(scope, controllerId, leaseEpoch);
      if fence.Some? { return Refused(fence.value); }
      if scope.phase != Active { return Refused(ScopeClosed); }
      if participantId !in scope.seats { return Refused(ParticipantNotFound); }
      var seat := scope.seats[participantId];
      if seat.runtime != Ready || seat.busy.Some? { return Refused(ParticipantBusy); }
      if |Running(View())| >= MAX_CONCURRENT_EXECUTIONS { return Refused(ResourceLimit); }
      if executionId in executions { return Known; }
      if !seat.bound || rebase {
        executions := executions[executionId := Execution(scopeId, participantId, false)];
        scopes := scopes[scopeId := ScheduleIdle(scope)];
        return FailedTurn;
      }
      executions := executions[executionId := Execution(scopeId, participantId, true)];
      scopes := scopes[scopeId := PutSeat(scope, participantId, seat.(runtime := Busy, busy := Some(executionId)))];
      return Dispatched;
    }

    /** A terminal event of a running execution. */
    method EmitTerminalAndSweep(executionId: string)
      requires Valid()
      modifies `scopes, `executions
      ensures Valid() && View() == old(Step(View(), Terminal(executionId)).0)
    {
      hide ManagerOk, OnCreate, OnExecute, FinishClose, OnScope, AllReleased;
      StepKeepsManagerOk(View(), Terminal(executionId));
      if executionId !in executions || !executions[executionId].running { return; }
      var execution := executions[executionId];
      executions := executions[executionId := execution.(running := false)];
      if execution.scopeId in scopes {
        scopes := scopes[execution.scopeId := ScheduleIdle(scopes[execution.scopeId])];
      }
    }

    method CloseScope(scopeId: string, controllerId: string, leaseEpoch: nat) returns (reply: Reply)
      requires Valid()
      modifies `scopes
      ensures Valid() && (View(), reply) == old(Step(View(), Close(scopeId, controllerId, leaseEpoch)))
    {
      hide ManagerOk, OnCreate, OnExecute, OnTerminal, FinishClose, OnScope, AllReleased;
      StepKeepsManagerOk(View(), Close(scopeId, controllerId, leaseEpoch));
      if scopeId !in scopes { return Refused(ScopeNotFound); }
      var fence := Fence(scopes[scopeId], controllerId, leaseEpoch);
      if fence.Some? { return Refused(fence.value); }
      CloseScopeInternal(scopeId);
      return Status(Closing);
    }

    /** `closeScopeInternal` up to its wait for the drivers. */
    method CloseScopeInternal(scopeId: string)
      requires scopeId in scopes
      modifies `scopes
      ensures View() == old(PutScope(View(), scopeId, BeginClose(scopes[scopeId])))
    {
      var scope := scopes[scopeId];
      if scope.phase == Closed || scope.phase == Closing {
        assert scopes[scopeId := scope] == scopes;
        return;
      }
      scopes := scopes[scopeId := scope.(phase := Closing, creatingArmed := false, idleArmed := false)];
    }

    /** The end of `closeScopeInternal`: executions are released and the request id is free again. */
    method FinishClosing(scopeId: string)
      requires Valid() && scopeId in scopes && scopes[scopeId].phase == Closing && AllReleased(scopes[scopeId])
      modifies `scopes, `scopeRequestIndex, `executions
      ensures Valid() && View() == old(Step(View(), CloseFinished(scopeId)).0)
    {
      hide ManagerOk, OnCreate, OnExecute, OnTerminal, OnScope, AllReleased;
      StepKeepsManagerOk(View(), CloseFinished(scopeId));
      var scope := scopes[scopeId];
      executions := map e | e in executions && executions[e].scopeId != scopeId :: executions[e];
      scopes := scopes[scopeId := scope.(phase := Closed)];
      scopeRequestIndex := scopeRequestIndex - {scope.requestId};
    }

    /** The idle timer: a scope with a turn in flight starts over, any other active one is closed. */
    method OnIdleTimer(scopeId: string)
      requires Valid() && scopeId in scopes && scopes[scopeId].idleArmed
      modifies `scopes
      ensures Valid() && View() == old(Step(View(), IdleTimer(scopeId)).0)
    {
      hide ManagerOk, OnCreate, OnExecute, OnTerminal, FinishClose, AllReleased;
      StepKeepsManagerOk(View(), IdleTimer(scopeId));
      ghost var before := scopes;
      var scope := scopes[scopeId].(idleArmed := false);
      scopes := scopes[scopeId := scope];
      if scope.phase != Active { return; }
      var rest := scope.seats.Keys;
      while rest != {}
        invariant rest <= scope.seats.Keys && scopes == before[scopeId := scope]
        invariant forall p | p in scope.seats.Keys - rest ::
                    scope.seats[p].busy == None && scope.seats[p].runtime != Busy
        decreases rest
      {
        var p :| p in rest;
        rest := rest - {p};
        if scope.seats[p].busy.Some? || scope.seats[p].runtime == Busy {
          assert AnyBusy(before[scopeId]);
          scopes := scopes[scopeId := ScheduleIdle(scope)];
          assert scopes == before[scopeId := ScheduleIdle(scope)];
          assert ScheduleIdle(scope) == OnScope(before[scopeId], IdleTimer(scopeId));
          return;
        }
      }
      assert !AnyBusy(before[scopeId]);
      CloseScopeInternal(scopeId);
      assert scopes == before[scopeId := BeginClose(scope)];
    }

    /** What `prewarmParticipant` does when the driver's prewarm settles. */
    method OnPrewarmSettled(scopeId: string, participantId: string, outcome: Prewarm)
      requires Valid() && scopeId in scopes
      requires participantId in scopes[scopeId].seats && scopes[scopeId].seats[participantId].warming
      modifies `scopes
      ensures Valid() && View() == old(Step(View(), PrewarmSettled(scopeId, participantId, outcome)).0)
    {
      hide ManagerOk, OnCreate, OnExecute, OnTerminal, FinishClose, AllReleased, OnScope;
      ghost var e := PrewarmSettled(scopeId, participantId, outcome);
      StepKeepsManagerOk(View(), e);
      assert Step(View(), e).0 == PutScope(View(), scopeId, OnScope(scopes[scopeId], e));
      var scope := scopes[scopeId];
      var entry := LandPrewarm(scope.phase, scope.seats[participantId], outcome);
      PrewarmOnScope(scope, participantId, outcome);
      scopes := scopes[scopeId := PutSeat(scope, participantId, entry)];
    }

    method LandPrewarm(phase: Phase, seat: Seat, outcome: Prewarm) returns (entry: Seat)
      ensures entry == PrewarmedSeat(phase, seat, outcome)
    {
      entry := seat.(warming := false);
      match outcome
      case Cancelled =>
        entry := entry.(runtime := Cold, bound := false);
      case Rejected =>
        entry := entry.(runtime := Failed);
      case Resolved(bound) =>
        if phase != Creating && phase != Active {
          entry := entry.(runtime := Cold, bound := false);
        } else {
          entry := entry.(bound := bound, runtime := if bound then Ready else Failed);
        }
    }

    /** The turn's promise has settled. */
    method OnTurnSettled(scopeId: string, participantId: string)
      requires Valid() && scopeId in scopes
      requires participantId in scopes[scopeId].seats && scopes[scopeId].seats[participantId].busy.Some?
      modifies `scopes
      ensures Valid() && View() == old(Step(View(), TurnSettled(scopeId, participantId)).0)
    {
      hide ManagerOk, OnCreate, OnExecute, OnTerminal, FinishClose, AllReleased;
      StepKeepsManagerOk(View(), TurnSettled(scopeId, participantId));
      var scope := scopes[scopeId];
      var entry := scope.seats[participantId].(busy := None);
      if entry.runtime == Busy { entry := entry.(runtime := Ready); }
      scopes := scopes[scopeId := PutSeat(scope, participantId, entry)];
    }

    /** A driver of a closing scope has been closed. */
    method OnSeatClosed(scopeId: string, participantId: string)
      requires Valid() && scopeId in scopes
      requires scopes[scopeId].phase == Closing && participantId in scopes[scopeId].seats
      modifies `scopes
      ensures Valid() && View() == old(Step(View(), SeatClosed(scopeId, participantId)).0)
    {
      hide ManagerOk, OnCreate, OnExecute, OnTerminal, FinishClose, AllReleased;
      StepKeepsManagerOk(View(), SeatClosed(scopeId, participantId));
      var scope := scopes[scopeId];
      scopes := scopes[scopeId := PutSeat(scope, participantId,
                                          scope.seats[participantId].(runtime := Cold, released := true))];
    }

    method OnCreatingTimer(scopeId: string)
      requires Valid() && scopeId in scopes && scopes[scopeId].creatingArmed
      modifies `scopes
      ensures Valid() && View() == old(Step(View(), CreatingTimer(scopeId)).0)
    {
      hide ManagerOk, OnCreate, OnExecute, OnTerminal, FinishClose, AllReleased;
      StepKeepsManagerOk(View(), CreatingTimer(scopeId));
      if scopes[scopeId].phase == Creating {
        CloseScopeInternal(scopeId);
      } else {
        scopes := scopes[scopeId := scopes[scopeId].(creatingArmed := false)];
      }
    }
  }

  lemma PrewarmOnScope(s: Scope, p: string, outcome: Prewarm)
    requires p in s.seats && s.seats[p].warming
    ensures forall id ::
            OnScope(s, PrewarmSettled(id, p, outcome)) == PutSeat(s, p, PrewarmedSeat(s.phase, s.seats[p], outcome))
  {
  }

  function LiveSeatsOf(seats: map<string, Seat>): set<string> {
    set p | p in seats && LiveRuntime(seats[p].runtime)
  }

  lemma CountsAddUp<T>(a: set<T>, b: set<T>)
    requires a !! b
    ensures |a + b| == |a| + |b|
  {
  }
}
