/**
 * The unsafe close of `SeatHazards` as a run of the whole host: a turn accepted before the close starts
 * after its own driver has been closed, while the scope still waits for the driver of another participant.
 */
module HostHazards {
  import opened Options
  import opened SnapshotRender
  import opened HostRuns
  import Rec = SessionReconciler
  import Scopes = ScopeSteps
  import Seats = Seat
  import Race = TurnRace
  import Hazards = SeatHazards

  // ---------------------------------------------------------------------------------------------
  // Runs that can happen and go wrong
  // ---------------------------------------------------------------------------------------------

  predicate Possible(h: Host, p: string, events: seq<Event>)
    decreases |events|
  {
    events == [] || (CanHappen(h, p, events[0]) && Possible(Step(h, p, events[0]), p, events[1..]))
  }

  /** Some incremental prompt of the run does not continue the session it is sent to. */
  predicate GoesWrong(h: Host, p: string, events: seq<Event>) {
    Possible(h, p, events) && !Seats.StartsSafely(h.seat, SeatRun(h, p, events))
  }

  /** Event `e` can happen in `h` and leads to `next`. */
  predicate Leads(h: Host, p: string, e: Event, next: Host) {
    CanHappen(h, p, e) && Step(h, p, e) == next
  }

  lemma {:induction false} GoesWrongLater(h: Host, p: string, events: seq<Event>, k: nat, next: Host)
    requires k < |events| && Leads(h, p, events[k], next) && GoesWrong(next, p, events[k + 1..])
    ensures GoesWrong(h, p, events[k..])
  {
    hide CanHappen, Follows, Ends, Answered, Moves, Scopes.Step, Seats.Advance;
    assert events[k..][1..] == events[k + 1..];
    var later := SeatRun(next, p, events[k + 1..]);
    match Follows(h, p, events[k])
    case Some(step) => assert ([step] + later)[1..] == later;
    case None => assert [] + later == later;
  }

  lemma {:induction false} GoesWrongNow(h: Host, p: string)
    requires !Seats.StartIsSafe(h.seat)
    ensures GoesWrong(h, p, [Drive(Seats.StartTurn)])
  {
    assert Possible(Step(h, p, Drive(Seats.StartTurn)), p, []);
  }

  // ---------------------------------------------------------------------------------------------
  // A scope of two participants
  // ---------------------------------------------------------------------------------------------

  const WARMING := Scopes.Seat(Scopes.Prewarming, false, None, true, false)
  const IDLE := Scopes.Seat(Scopes.Ready, true, None, false, false)
  const BUSY := Scopes.Seat(Scopes.Busy, true, Some("e1"), false, false)
  const GONE := Scopes.Seat(Scopes.Cold, true, Some("e1"), false, true)
  const DONE := Scopes.Seat(Scopes.Cold, true, None, false, true)
  const COLD := Scopes.Seat(Scopes.Cold, false, None, true, true)

  /** The scope's timers are armed as its phase says. */
  function ScopeOf(phase: Scopes.Phase, seats: map<string, Scopes.Seat>): Scopes.Scope {
    Scopes.Scope("r", phase, "c", 1, seats, phase == Scopes.Creating, phase == Scopes.Active)
  }

  /** The manager with its first scope, and whether execution "e1" is in it and runs. */
  function First(p: string, q: string, phase: Scopes.Phase, a: Scopes.Seat, b: Scopes.Seat, running: Option<bool>)
    : Scopes.Manager
  {
    Scopes.Manager(map["s1" := ScopeOf(phase, map[p := a, q := b])], map["r" := "s1"], [0],
                   if running == None then map[]
                   else map["e1" := Scopes.Execution("s1", p, running.value)])
  }

  function Between(p: string, q: string): Scopes.Manager {
    Scopes.Manager(map["s1" := ScopeOf(Scopes.Closed, map[p := DONE, q := COLD])], map[], [0], map[])
  }

  /** The manager with its second scope, the first one closed. */
  function Second(p: string, q: string, phase: Scopes.Phase, a: Scopes.Seat): Scopes.Manager {
    Scopes.Manager(
      map["s1" := ScopeOf(Scopes.Closed, map[p := DONE, q := COLD]), "s2" := ScopeOf(phase, map[p := a])],
      map["r" := "s2"], [0, 1], map[])
  }

  function Of(id: string): Scopes.Participant {
    Scopes.Participant(id, true, true)
  }

  function Ask(x: Scopes.Event, snapshot: Snapshot): Event {
    Manage(x, snapshot, None)
  }

  // ---------------------------------------------------------------------------------------------
  // What the manager does
  // ---------------------------------------------------------------------------------------------

  lemma {:induction false} FirstOpens(p: string, q: string)
    requires p != q
    ensures Scopes.Step(Scopes.NEW_MANAGER, Scopes.Create("s1", "c", "r", [Of(p), Of(q)], 0, 0)).0 ==
            First(p, q, Scopes.Creating, WARMING, WARMING, None)
  {
    assert Scopes.ActiveScopes(Scopes.NEW_MANAGER) == {} && Scopes.LiveSeats(Scopes.NEW_MANAGER) == {};
    TwoSeats(p, q);
  }

  lemma {:induction false} TwoSeats(p: string, q: string)
    requires p != q
    ensures Scopes.SeatsOf([Of(p), Of(q)]) == map[p := WARMING, q := WARMING]
    ensures Scopes.SeatsOf([Of(p)]) == map[p := WARMING]
  {
    assert [Of(p), Of(q)][..1] == [Of(p)] && [Of(p)][..0] == [];
    assert Scopes.SeatsOf([Of(p)]) == map[p := WARMING];
    assert map[p := WARMING][q := WARMING] == map[p := WARMING, q := WARMING];
  }

  lemma {:induction false} SeatsChange(p: string, q: string, a: Scopes.Seat, b: Scopes.Seat, c: Scopes.Seat)
    requires p != q
    ensures map[p := a, q := b][p := c] == map[p := c, q := b] && map[p := a, q := b][q := c] == map[p := a, q := c]
    ensures map[p := a][p := c] == map[p := c]
  {
  }

  lemma {:induction false} FirstIsReady(p: string, q: string)
    requires p != q
    ensures Scopes.Step(First(p, q, Scopes.Creating, WARMING, WARMING, None),
                        Scopes.PrewarmSettled("s1", p, Scopes.Resolved(true))).0 ==
            First(p, q, Scopes.Creating, IDLE, WARMING, None)
    ensures Scopes.Step(First(p, q, Scopes.Creating, IDLE, WARMING, None), Scopes.Activate("s1", "c", 1)).0 ==
            First(p, q, Scopes.Active, IDLE, WARMING, None)
  {
    SeatsChange(p, q, WARMING, WARMING, IDLE);
  }

  lemma {:induction false} FirstDispatches(p: string, q: string)
    requires p != q
    ensures Scopes.Step(First(p, q, Scopes.Active, IDLE, WARMING, None),
                        Scopes.Execute("s1", "c", 1, "e1", p, false)) ==
            (First(p, q, Scopes.Active, BUSY, WARMING, Some(true)), Scopes.Dispatched)
  {
    assert Scopes.Running(First(p, q, Scopes.Active, IDLE, WARMING, None)) == {};
    SeatsChange(p, q, IDLE, WARMING, BUSY);
    var m := First(p, q, Scopes.Active, IDLE, WARMING, None);
    var (n, reply) := Scopes.Step(m, Scopes.Execute("s1", "c", 1, "e1", p, false));
    assert reply == Scopes.Dispatched;
    assert n.scopes == First(p, q, Scopes.Active, BUSY, WARMING, Some(true)).scopes;
  }

  lemma {:induction false} FirstCloses(p: string, q: string)
    requires p != q
    ensures Scopes.Step(First(p, q, Scopes.Active, BUSY, WARMING, Some(true)), Scopes.Close("s1", "c", 1)).0 ==
            First(p, q, Scopes.Closing, BUSY, WARMING, Some(true))
    ensures Scopes.Step(First(p, q, Scopes.Closing, BUSY, WARMING, Some(true)), Scopes.SeatClosed("s1", p)).0 ==
            First(p, q, Scopes.Closing, GONE, WARMING, Some(true))
  {
    SeatsChange(p, q, BUSY, WARMING, GONE);
  }

  lemma {:induction false} LateTurnSettles(p: string, q: string)
    requires p != q
    ensures Scopes.Step(First(p, q, Scopes.Closing, GONE, WARMING, Some(true)), Scopes.Terminal("e1")).0 ==
            First(p, q, Scopes.Closing, GONE, WARMING, Some(false))
    ensures Scopes.Step(First(p, q, Scopes.Closing, GONE, WARMING, Some(false)), Scopes.TurnSettled("s1", p)).0 ==
            First(p, q, Scopes.Closing, DONE, WARMING, Some(false))
    ensures Scopes.Step(First(p, q, Scopes.Closing, DONE, WARMING, Some(false)), Scopes.SeatClosed("s1", q)).0 ==
            First(p, q, Scopes.Closing, DONE, COLD, Some(false))
  {
    SeatsChange(p, q, GONE, WARMING, DONE);
    SeatsChange(p, q, DONE, WARMING, COLD);
  }

  lemma {:induction false} SecondOpens(p: string, q: string)
    requires p != q
    ensures Scopes.Step(First(p, q, Scopes.Closing, DONE, COLD, Some(false)), Scopes.CloseFinished("s1")).0 ==
            Between(p, q)
    ensures Scopes.Step(Between(p, q), Scopes.Create("s2", "c", "r", [Of(p)], 1, 1)).0 ==
            Second(p, q, Scopes.Creating, WARMING)
  {
    var closed := Between(p, q);
    assert Scopes.ActiveScopes(closed) == {} && Scopes.LiveSeats(closed) == {};
    TwoSeats(p, q);
  }

  lemma {:induction false} SecondGoesOn(p: string, q: string)
    requires p != q
    ensures Scopes.Step(Second(p, q, Scopes.Creating, WARMING),
                        Scopes.PrewarmSettled("s2", p, Scopes.Resolved(true))).0 ==
            Second(p, q, Scopes.Creating, IDLE)
    ensures Scopes.Step(Second(p, q, Scopes.Creating, IDLE), Scopes.Activate("s2", "c", 1)).0 ==
            Second(p, q, Scopes.Active, IDLE)
    ensures Scopes.Step(Second(p, q, Scopes.Active, IDLE), Scopes.Execute("s2", "c", 1, "e2", p, false)).1 ==
            Scopes.Dispatched
  {
    SeatsChange(p, q, WARMING, WARMING, IDLE);
    assert Scopes.Running(Second(p, q, Scopes.Active, IDLE)) == {};
  }

  // ---------------------------------------------------------------------------------------------
  // What the host does
  // ---------------------------------------------------------------------------------------------

  lemma {:induction false} Opens(p: string, q: string, snapshot: Snapshot)
    requires p != q
    ensures Leads(NEW_HOST, p, Ask(Scopes.Create("s1", "c", "r", [Of(p), Of(q)], 0, 0), snapshot),
                  Host(First(p, q, Scopes.Creating, WARMING, WARMING, None), Some("s1"), Seats.NEW_SEAT))
  {
    FirstOpens(p, q);
    hide Scopes.Step;
  }

  lemma {:induction false} GetsReady(p: string, q: string, seat: Seats.Seat, snapshot: Snapshot)
    requires p != q
    ensures Leads(Host(First(p, q, Scopes.Creating, WARMING, WARMING, None), Some("s1"), seat), p,
                  Ask(Scopes.PrewarmSettled("s1", p, Scopes.Resolved(true)), snapshot),
                  Host(First(p, q, Scopes.Creating, IDLE, WARMING, None), Some("s1"), seat))
    ensures Leads(Host(First(p, q, Scopes.Creating, IDLE, WARMING, None), Some("s1"), seat), p,
                  Ask(Scopes.Activate("s1", "c", 1), snapshot),
                  Host(First(p, q, Scopes.Active, IDLE, WARMING, None), Some("s1"), seat))
  {
    FirstIsReady(p, q);
    hide Scopes.Step;
  }

  lemma {:induction false} Dispatches(p: string, q: string, seat: Seats.Seat, snapshot: Snapshot)
    requires p != q && seat.record == None
    ensures Leads(Host(First(p, q, Scopes.Active, IDLE, WARMING, None), Some("s1"), seat), p,
                  Ask(Scopes.Execute("s1", "c", 1, "e1", p, false), snapshot),
                  Host(First(p, q, Scopes.Active, BUSY, WARMING, Some(true)), Some("s1"),
                       Seats.Advance(seat, Seats.Execute("e1", snapshot, None))))
  {
    FirstDispatches(p, q);
    hide Scopes.Step, Seats.Advance;
  }

  lemma {:induction false} Closes(p: string, q: string, seat: Seats.Seat, snapshot: Snapshot)
    requires p != q
    ensures Leads(Host(First(p, q, Scopes.Active, BUSY, WARMING, Some(true)), Some("s1"), seat), p,
                  Ask(Scopes.Close("s1", "c", 1), snapshot),
                  Host(First(p, q, Scopes.Closing, BUSY, WARMING, Some(true)), Some("s1"),
                       Seats.Advance(seat, Seats.CloseBegin)))
  {
    FirstCloses(p, q);
    hide Scopes.Step, Seats.Advance;
  }

  lemma {:induction false} ClosesDriver(p: string, q: string, seat: Seats.Seat, snapshot: Snapshot)
    requires p != q && seat.driver.active == None
    ensures Leads(Host(First(p, q, Scopes.Closing, BUSY, WARMING, Some(true)), Some("s1"), seat), p,
                  Ask(Scopes.SeatClosed("s1", p), snapshot),
                  Host(First(p, q, Scopes.Closing, GONE, WARMING, Some(true)), Some("s1"),
                       Seats.Advance(seat, Seats.CloseDriverDone)))
  {
    FirstCloses(p, q);
    hide Scopes.Step, Seats.Advance;
  }

  /** A step of the driver that ends no turn. */
  lemma {:induction false} Drives(h: Host, p: string, step: Seats.Step)
    requires IsDriverStep(step) && !step.StartFails?
    requires step.Callback? ==> Seats.Advance(h.seat, step).driver.active.Some?
    ensures Leads(h, p, Drive(step), h.(seat := Seats.Advance(h.seat, step)))
  {
    hide Seats.Advance;
  }

  lemma {:induction false} Exits(p: string, q: string, seat: Seats.Seat, c: Race.Callback)
    requires p != q && seat.driver.active == Some(0) && |seat.dispatches| == 1 && seat.dispatches[0].executionId == "e1"
    requires Seats.Advance(seat, Seats.Callback(0, c)).driver.active == None
    ensures Leads(Host(First(p, q, Scopes.Closing, GONE, WARMING, Some(true)), Some("s1"), seat), p,
                  Drive(Seats.Callback(0, c)),
                  Host(First(p, q, Scopes.Closing, GONE, WARMING, Some(false)), Some("s1"),
                       Seats.Advance(seat, Seats.Callback(0, c))))
  {
    LateTurnSettles(p, q);
    hide Scopes.Step, Seats.Advance;
  }

  lemma {:induction false} Settles(p: string, q: string, seat: Seats.Seat, snapshot: Snapshot)
    requires p != q && seat.pending == None && Seats.LastTurnSettled(seat.driver)
    ensures Leads(Host(First(p, q, Scopes.Closing, GONE, WARMING, Some(false)), Some("s1"), seat), p,
                  Ask(Scopes.TurnSettled("s1", p), snapshot),
                  Host(First(p, q, Scopes.Closing, DONE, WARMING, Some(false)), Some("s1"),
                       Seats.Advance(seat, Seats.Finally)))
  {
    LateTurnSettles(p, q);
    hide Scopes.Step, Seats.Advance, Seats.LastTurnSettled;
  }

  lemma {:induction false} SettlesOther(p: string, q: string, seat: Seats.Seat, snapshot: Snapshot)
    requires p != q
    ensures Leads(Host(First(p, q, Scopes.Closing, DONE, WARMING, Some(false)), Some("s1"), seat), p,
                  Ask(Scopes.SeatClosed("s1", q), snapshot),
                  Host(First(p, q, Scopes.Closing, DONE, COLD, Some(false)), Some("s1"), seat))
  {
    LateTurnSettles(p, q);
    hide Scopes.Step, Seats.Advance, Seats.LastTurnSettled;
  }

  lemma {:induction false} Releases(p: string, q: string, seat: Seats.Seat, snapshot: Snapshot)
    requires p != q
    ensures Leads(Host(First(p, q, Scopes.Closing, DONE, COLD, Some(false)), Some("s1"), seat), p,
                  Ask(Scopes.CloseFinished("s1"), snapshot),
                  Host(Between(p, q), Some("s1"), Seats.Advance(seat, Seats.Release)))
  {
    SecondOpens(p, q);
    hide Scopes.Step, Seats.Advance;
  }

  lemma {:induction false} OpensNext(p: string, q: string, seat: Seats.Seat, snapshot: Snapshot)
    requires p != q
    ensures Leads(Host(Between(p, q), Some("s1"), seat), p,
                  Ask(Scopes.Create("s2", "c", "r", [Of(p)], 1, 1), snapshot),
                  Host(Second(p, q, Scopes.Creating, WARMING), Some("s2"), Seats.Advance(seat, Seats.Reopen)))
  {
    SecondOpens(p, q);
    hide Scopes.Step, Seats.Advance;
  }

  lemma {:induction false} GetsReadyAgain(p: string, q: string, seat: Seats.Seat, snapshot: Snapshot)
    requires p != q
    ensures Leads(Host(Second(p, q, Scopes.Creating, WARMING), Some("s2"), seat), p,
                  Ask(Scopes.PrewarmSettled("s2", p, Scopes.Resolved(true)), snapshot),
                  Host(Second(p, q, Scopes.Creating, IDLE), Some("s2"), seat))
    ensures Leads(Host(Second(p, q, Scopes.Creating, IDLE), Some("s2"), seat), p,
                  Ask(Scopes.Activate("s2", "c", 1), snapshot),
                  Host(Second(p, q, Scopes.Active, IDLE), Some("s2"), seat))
  {
    SecondGoesOn(p, q);
    hide Scopes.Step;
  }

  /** The second dispatch, answered with an incremental prompt to a driver without a session. */
  lemma {:induction false} DispatchesAgain(p: string, q: string, seat: Seats.Seat, snapshot: Snapshot)
    returns (next: Host)
    requires p != q && Hazards.Stale(seat, snapshot) && Seats.InSync(seat)
    ensures Leads(Host(Second(p, q, Scopes.Active, IDLE), Some("s2"), seat), p,
                  Ask(Scopes.Execute("s2", "c", 1, "e2", p, false), snapshot), next)
    ensures !Seats.StartIsSafe(next.seat)
  {
    Rec.IncrementalIffAppendOnly(seat.record.value, snapshot, snapshot, None);
    SecondGoesOn(p, q);
    next := Step(Host(Second(p, q, Scopes.Active, IDLE), Some("s2"), seat), p,
                 Ask(Scopes.Execute("s2", "c", 1, "e2", p, false), snapshot));
    hide Scopes.Step, Rec.Decide;
  }

  // ---------------------------------------------------------------------------------------------
  // The run
  // ---------------------------------------------------------------------------------------------

  function LateClose(p: string, q: string, snapshot: Snapshot): seq<Event> {
    var talk := Hazards.Talk(0, Seats.Dispatch("e1", snapshot, true, 0, RenderTurn(snapshot, 0)), 0.0);
    [Ask(Scopes.Create("s1", "c", "r", [Of(p), Of(q)], 0, 0), snapshot),
     Ask(Scopes.PrewarmSettled("s1", p, Scopes.Resolved(true)), snapshot),
     Ask(Scopes.Activate("s1", "c", 1), snapshot),
     Ask(Scopes.Execute("s1", "c", 1, "e1", p, false), snapshot),
     Ask(Scopes.Close("s1", "c", 1), snapshot),
     Ask(Scopes.SeatClosed("s1", p), snapshot),
     Drive(Seats.StartTurn),
     Drive(talk[0]),
     Drive(talk[1]),
     Drive(talk[2]),
     Drive(Seats.Callback(0, Hazards.CLEAN_EXIT)),
     Ask(Scopes.TurnSettled("s1", p), snapshot),
     Ask(Scopes.SeatClosed("s1", q), snapshot),
     Ask(Scopes.CloseFinished("s1"), snapshot),
     Ask(Scopes.Create("s2", "c", "r", [Of(p)], 1, 1), snapshot),
     Ask(Scopes.PrewarmSettled("s2", p, Scopes.Resolved(true)), snapshot),
     Ask(Scopes.Activate("s2", "c", 1), snapshot),
     Ask(Scopes.Execute("s2", "c", 1, "e2", p, false), snapshot),
     Drive(Seats.StartTurn)]
  }

  lemma {:induction false} SeatAccepts(snapshot: Snapshot)
    ensures var s := Seats.Advance(Seats.NEW_SEAT, Seats.Execute("e1", snapshot, None));
            && Seats.SeatOk(s) && s.driver == Seats.PREWARMED && s.scope == Seats.Open
            && s.pending == Some(Seats.Dispatch("e1", snapshot, true, 0, RenderTurn(snapshot, 0)))
  {
    Seats.StepKeepsSeatOk(Seats.NEW_SEAT, Seats.Execute("e1", snapshot, None));
  }

  /** The seat through the late turn, from its acceptance to its start. */
  lemma {:induction false} SeatTurns(snapshot: Snapshot)
    returns (s1: Seats.Seat, s2: Seats.Seat, s3: Seats.Seat, s4: Seats.Seat)
    ensures s1 == Seats.Advance(Seats.NEW_SEAT, Seats.Execute("e1", snapshot, None))
    ensures s2 == Seats.Advance(s1, Seats.CloseBegin) && s2.driver.active == None
    ensures s3 == Seats.Advance(s2, Seats.CloseDriverDone)
    ensures s4 == Seats.Advance(s3, Seats.StartTurn) && s4.scope == Seats.DriverClosed && s4.record == None
    ensures s4.driver.epoch == 0
    ensures Hazards.Begun(s4, 0, Seats.Dispatch("e1", snapshot, true, 0, RenderTurn(snapshot, 0)))
  {
    s1 := Seats.Advance(Seats.NEW_SEAT, Seats.Execute("e1", snapshot, None));
    hide Seats.SeatOk, Hazards.Begun, Rec.Decide;
    SeatAccepts(snapshot);
    Hazards.LateTurnBegins(s1);
    s2 := Seats.Advance(s1, Seats.CloseBegin);
    s3 := Seats.Advance(s2, Seats.CloseDriverDone);
    s4 := Seats.Advance(s3, Seats.StartTurn);
    assert s1.driver.turns == [] && s2.driver.epoch == 0 && s3.driver.epoch == 0;
  }

  /** It replies, exits and is recorded, and the seat moves to its next scope. */
  lemma {:induction false} SeatMovesOn(s: Seats.Seat, snapshot: Snapshot)
    requires s.scope == Seats.DriverClosed && s.record == None && s.driver.epoch == 0
    requires Hazards.Replied(s, 0, Seats.Dispatch("e1", snapshot, true, 0, RenderTurn(snapshot, 0)), 0.0)
    ensures var s1 := Seats.Advance(s, Seats.Callback(0, Hazards.CLEAN_EXIT));
            var s2 := Seats.Advance(s1, Seats.Finally);
            var s3 := Seats.Advance(Seats.Advance(s2, Seats.Release), Seats.Reopen);
            && s1.driver.active == None && s1.pending == None && Seats.LastTurnSettled(s1.driver)
            && Hazards.Stale(s3, snapshot) && Seats.InSync(s3)
  {
    var d := Seats.Dispatch("e1", snapshot, true, 0, RenderTurn(snapshot, 0));
    Hazards.ReplyCompletes(s, 0, d, 0.0);
    Hazards.LateExitIsRecorded(s, 0, d);
    ExitFrees(s, d);
    FinallyKeepsRecord(Seats.Advance(s, Seats.Callback(0, Hazards.CLEAN_EXIT)), d);
  }

  lemma {:induction false} ExitFrees(s: Seats.Seat, d: Seats.Dispatch)
    requires Hazards.Replied(s, 0, d, 0.0)
    ensures var s1 := Seats.Advance(s, Seats.Callback(0, Hazards.CLEAN_EXIT));
            s1.driver.active == None && s1.pending == None && Seats.LastTurnSettled(s1.driver)
  {
    hide Race.Handle, Rec.Apply, Seats.Grown, RenderTurn;
    Hazards.ReplyCompletes(s, 0, d, 0.0);
  }

  lemma {:induction false} FinallyKeepsRecord(s: Seats.Seat, d: Seats.Dispatch)
    requires s.scope == Seats.DriverClosed && s.record == Some(Rec.Apply(None, d.snapshot, d.executionId, 0, 0.0))
    ensures var s1 := Seats.Advance(Seats.Advance(Seats.Advance(s, Seats.Finally), Seats.Release), Seats.Reopen);
            Hazards.Stale(s1, d.snapshot) && Seats.InSync(s1)
  {
    Hazards.ScopeReopensStale(Seats.Advance(s, Seats.Finally), d, 0);
  }

  /** The run from the second scope on. */
  lemma {:induction false} NextScopeGoesWrong(p: string, q: string, snapshot: Snapshot, s: Seats.Seat)
    requires p != q
    requires var next := Seats.Advance(s, Seats.Reopen); Hazards.Stale(next, snapshot) && Seats.InSync(next)
    ensures GoesWrong(Host(Between(p, q), Some("s1"), s), p, LateClose(p, q, snapshot)[14..])
  {
    hide Seats.Advance, Hazards.Stale, Hazards.Talk, Leads, GoesWrong, Second, Between, Seats.InSync, Seats.StartIsSafe;
    var (events, s1) := (LateClose(p, q, snapshot), Seats.Advance(s, Seats.Reopen));
    OpensNext(p, q, s, snapshot);
    GetsReadyAgain(p, q, s1, snapshot);
    var next := DispatchesAgain(p, q, s1, snapshot);
    GoesWrongNow(next, p);
    assert events[18..] == [Drive(Seats.StartTurn)];
    var h1 := Host(Second(p, q, Scopes.Creating, WARMING), Some("s2"), s1);
    var h2 := Host(Second(p, q, Scopes.Creating, IDLE), Some("s2"), s1);
    var h3 := Host(Second(p, q, Scopes.Active, IDLE), Some("s2"), s1);
    GoesWrongLater(h3, p, events, 17, next);
    GoesWrongLater(h2, p, events, 16, h3);
    GoesWrongLater(h1, p, events, 15, h2);
    GoesWrongLater(Host(Between(p, q), Some("s1"), s), p, events, 14, h1);
  }

  /** The run from the exit of the late turn's process on. */
  lemma {:induction false} ExitGoesWrong(p: string, q: string, snapshot: Snapshot, s: Seats.Seat)
    requires p != q && s.scope == Seats.DriverClosed && s.record == None && s.driver.epoch == 0
    requires Hazards.Replied(s, 0, Seats.Dispatch("e1", snapshot, true, 0, RenderTurn(snapshot, 0)), 0.0)
    ensures GoesWrong(Host(First(p, q, Scopes.Closing, GONE, WARMING, Some(true)), Some("s1"), s), p,
                      LateClose(p, q, snapshot)[10..])
  {
    hide Seats.Advance, Seats.LastTurnSettled, Hazards.Stale, Hazards.Talk, Leads, GoesWrong, First, RenderTurn;
    hide Between, Seats.InSync;
    SeatMovesOn(s, snapshot);
    assert s.driver.active == Some(0) && |s.dispatches| == 1 && s.dispatches[0].executionId == "e1";
    var events := LateClose(p, q, snapshot);
    var s1 := Seats.Advance(s, Seats.Callback(0, Hazards.CLEAN_EXIT));
    var s2 := Seats.Advance(s1, Seats.Finally);
    var s3 := Seats.Advance(s2, Seats.Release);
    Exits(p, q, s, Hazards.CLEAN_EXIT);
    Settles(p, q, s1, snapshot);
    SettlesOther(p, q, s2, snapshot);
    Releases(p, q, s2, snapshot);
    NextScopeGoesWrong(p, q, snapshot, s3);
    var h := Host(First(p, q, Scopes.Closing, GONE, WARMING, Some(true)), Some("s1"), s);
    var h1 := Host(First(p, q, Scopes.Closing, GONE, WARMING, Some(false)), Some("s1"), s1);
    var h2 := Host(First(p, q, Scopes.Closing, DONE, WARMING, Some(false)), Some("s1"), s2);
    var h3 := Host(First(p, q, Scopes.Closing, DONE, COLD, Some(false)), Some("s1"), s2);
    GoesWrongLater(h3, p, events, 13, Host(Between(p, q), Some("s1"), s3));
    GoesWrongLater(h2, p, events, 12, h3);
    GoesWrongLater(h1, p, events, 11, h2);
    GoesWrongLater(h, p, events, 10, h1);
  }

  /** The seat while its turn goes on. */
  lemma {:induction false} SeatTalks(s: Seats.Seat, d: Seats.Dispatch)
    returns (s1: Seats.Seat, s2: Seats.Seat, s3: Seats.Seat)
    requires Hazards.Begun(s, 0, d)
    ensures var talk := Hazards.Talk(0, d, 0.0);
            && s1 == Seats.Advance(s, talk[0]) && s2 == Seats.Advance(s1, talk[1]) && s3 == Seats.Advance(s2, talk[2])
    ensures s1.driver.active.Some? && s2.driver.active.Some? && s3.driver.active.Some?
    ensures Hazards.Replied(s3, 0, d, 0.0)
    ensures s3.scope == s.scope && s3.record == s.record && s3.driver.epoch == s.driver.epoch
  {
    var talk := Hazards.Talk(0, d, 0.0);
    s1 := Seats.Advance(s, talk[0]);
    s2 := Seats.Advance(s1, talk[1]);
    s3 := Seats.Advance(s2, talk[2]);
    hide Seats.Advance;
    Hazards.TurnSpawns(s, 0, d);
    Hazards.TurnOutputs(s1, 0, d, 0.0);
    Hazards.TurnEndsOutput(s2, 0, d, 0.0);
  }

  /** The run from the start of the late turn on. */
  lemma {:induction false} LateTurnGoesWrong(p: string, q: string, snapshot: Snapshot, s: Seats.Seat)
    requires p != q && s.scope == Seats.DriverClosed && s.record == None && s.driver.epoch == 0
    requires Hazards.Begun(s, 0, Seats.Dispatch("e1", snapshot, true, 0, RenderTurn(snapshot, 0)))
    ensures GoesWrong(Host(First(p, q, Scopes.Closing, GONE, WARMING, Some(true)), Some("s1"), s), p,
                      LateClose(p, q, snapshot)[7..])
  {
    hide Seats.Advance, GoesWrong, Leads, First, Hazards.Replied, Hazards.Begun;
    var events := LateClose(p, q, snapshot);
    var d := Seats.Dispatch("e1", snapshot, true, 0, RenderTurn(snapshot, 0));
    var h := Host(First(p, q, Scopes.Closing, GONE, WARMING, Some(true)), Some("s1"), s);
    var s1, s2, s3 := SeatTalks(s, d);
    ExitGoesWrong(p, q, snapshot, s3);
    var talk := Hazards.Talk(0, d, 0.0);
    Drives(h, p, talk[0]);
    Drives(h.(seat := s1), p, talk[1]);
    Drives(h.(seat := s2), p, talk[2]);
    GoesWrongLater(h.(seat := s2), p, events, 9, h.(seat := s3));
    GoesWrongLater(h.(seat := s1), p, events, 8, h.(seat := s2));
    GoesWrongLater(h, p, events, 7, h.(seat := s1));
  }

  /** The run from the first dispatch on. */
  lemma {:induction false} CloseGoesWrong(p: string, q: string, snapshot: Snapshot)
    requires p != q
    ensures GoesWrong(Host(First(p, q, Scopes.Active, IDLE, WARMING, None), Some("s1"), Seats.NEW_SEAT), p,
                      LateClose(p, q, snapshot)[3..])
  {
    hide GoesWrong, Leads, Seats.Advance, Hazards.Begun, First, Hazards.Talk;
    var events := LateClose(p, q, snapshot);
    var s1, s2, s3, s4 := SeatTurns(snapshot);
    Dispatches(p, q, Seats.NEW_SEAT, snapshot);
    Closes(p, q, s1, snapshot);
    ClosesDriver(p, q, s2, snapshot);
    LateTurnGoesWrong(p, q, snapshot, s4);
    var h := Host(First(p, q, Scopes.Active, IDLE, WARMING, None), Some("s1"), Seats.NEW_SEAT);
    var h1 := Host(First(p, q, Scopes.Active, BUSY, WARMING, Some(true)), Some("s1"), s1);
    var h2 := Host(First(p, q, Scopes.Closing, BUSY, WARMING, Some(true)), Some("s1"), s2);
    var h3 := Host(First(p, q, Scopes.Closing, GONE, WARMING, Some(true)), Some("s1"), s3);
    Drives(h3, p, Seats.StartTurn);
    GoesWrongLater(h3, p, events, 6, h3.(seat := s4));
    GoesWrongLater(h2, p, events, 5, h3);
    GoesWrongLater(h1, p, events, 4, h2);
    GoesWrongLater(h, p, events, 3, h1);
  }

  /**
   * It happens, with two participants: the turn of `p` is accepted before the scope is closed and starts
   * after its driver is, while the driver of `q` is still closing. It completes, its record stays, and in
   * the next scope the first prompt of `p` is incremental, to a driver without a session.
   */
  lemma {:induction false} LateCloseGoesWrong(p: string, q: string, snapshot: Snapshot)
    requires p != q
    ensures GoesWrong(NEW_HOST, p, LateClose(p, q, snapshot))
  {
    hide GoesWrong, Leads, First, Hazards.Talk;
    var events := LateClose(p, q, snapshot);
    Opens(p, q, snapshot);
    GetsReady(p, q, Seats.NEW_SEAT, snapshot);
    CloseGoesWrong(p, q, snapshot);
    var h1 := Host(First(p, q, Scopes.Creating, WARMING, WARMING, None), Some("s1"), Seats.NEW_SEAT);
    var h2 := Host(First(p, q, Scopes.Creating, IDLE, WARMING, None), Some("s1"), Seats.NEW_SEAT);
    var h3 := Host(First(p, q, Scopes.Active, IDLE, WARMING, None), Some("s1"), Seats.NEW_SEAT);
    GoesWrongLater(h2, p, events, 2, h3);
    GoesWrongLater(h1, p, events, 1, h2);
    GoesWrongLater(NEW_HOST, p, events, 0, h1);
    assert events[0..] == events;
  }
}
