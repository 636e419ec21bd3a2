/**
 * Who owns a participant's process slot. A record is one watchdog with its driver; records are known by
 * an identity of any type, and their callbacks may come in any order, long after a newer record has
 * taken the slot.
 */
module ProcessSlots {
  import opened Options

  datatype Record = Record(
    participantId: string, pid: Option<int>, pgid: Option<int>, supervised: bool,
    settled: bool,                // the driver is known to be dead
    spawnError: bool,
    expecting: bool,              // an exit of the watchdog is part of a teardown
    handled: bool)                // the exit of the watchdog has been handled

  function NewRecord(participantId: string): Record {
    Record(participantId, None, None, false, false, false, false, false)
  }

  /** A control frame of the watchdog. */
  datatype Frame = Supervised(pid: Option<int>, pgid: Option<int>) | SpawnError | Exited | Reaped | Ignored

  datatype State<I> = State(
    records: map<I, Record>,
    live: set<I>,                 // records whose watchdog has not been handled
    slots: map<string, I>,
    exits: seq<I>,                // driver-exit events, in order
    reaped: seq<I>,               // groups the host has killed itself
    reapedByWatchdog: nat,
    reapedAfterWatchdogDeath: nat)

  function NewState<I>(): State<I> {
    State(map[], {}, map[], [], [], 0, 0)
  }

  datatype Event<I> =
    | Spawn(record: I, participantId: string)
    | Control(record: I, frame: Frame)
    | WatchdogExit(record: I)
    | Kill(record: I)
    | SupervisionTimeout(record: I)
    | ShutdownBegins(record: I)
    | ShutdownEscalates(record: I)
    | ShutdownEnds(record: I)

  // ---------------------------------------------------------------------------------------------
  // Steps
  // ---------------------------------------------------------------------------------------------

  function Put<I(==)>(s: State<I>, i: I, r: Record): State<I> {
    s.(records := s.records[i := r])
  }

  /** A slot is given up only by the record that owns it. */
  function Release<I(==)>(slots: map<string, I>, participantId: string, i: I): map<string, I> {
    if participantId in slots && slots[participantId] == i then slots - {participantId} else slots
  }

  function Settle<I(==)>(s: State<I>, i: I): State<I>
    requires i in s.records
  {
    var r := s.records[i];
    if r.settled then s
    else Put(s, i, r.(settled := true)).(slots := Release(s.slots, r.participantId, i), exits := s.exits + [i])
  }

  /** The host kills a group it knows of, unless the driver is known to be dead. */
  function ReapIfKnown<I(==)>(s: State<I>, i: I): State<I>
    requires i in s.records
  {
    var r := s.records[i];
    if r.pgid.Some? && !r.settled then Settle(s.(reaped := s.reaped + [i]), i) else s
  }

  function Expect<I(==)>(s: State<I>, i: I): State<I>
    requires i in s.records
  {
    Put(s, i, s.records[i].(expecting := true))
  }

  /** The driver could not be spawned, although it may have been reported as supervised just before. */
  function OnSpawnError<I(==)>(s: State<I>, i: I): State<I>
    requires i in s.records
  {
    var r := s.records[i];
    var t := Put(s, i, r.(spawnError := true, expecting := true));
    if r.supervised && !r.settled then Settle(t, i) else t
  }

  function OnFrame<I(==)>(s: State<I>, i: I, frame: Frame): State<I>
    requires i in s.records
  {
    var r := s.records[i];
    if r.handled then s
    else match frame
      case Supervised(pid, pgid) => Put(s, i, r.(pid := pid, pgid := pgid, supervised := true))
      case SpawnError => OnSpawnError(s, i)
      case Exited => Settle(Expect(s, i), i)
      case Reaped => s.(reapedByWatchdog := s.reapedByWatchdog + 1)
      case Ignored => s
  }

  predicate ExpectsExit(r: Record) {
    r.expecting || r.settled || r.spawnError
  }

  /** The watchdog has died on its driver: the host kills the group itself. */
  function ReapOrphan<I(==)>(s: State<I>, i: I): State<I>
    requires i in s.records
  {
    var r := s.records[i];
    if !ExpectsExit(r) && r.pgid.Some?
    then ReapIfKnown(s, i).(reapedAfterWatchdogDeath := s.reapedAfterWatchdogDeath + 1) else s
  }

  function Retire<I(==)>(s: State<I>, i: I, participantId: string): State<I> {
    s.(live := s.live - {i}, slots := Release(s.slots, participantId, i))
  }

  function OnWatchdogExit<I(==)>(s: State<I>, i: I): State<I>
    requires i in s.records
  {
    var r := s.records[i];
    if r.handled then s
    else Retire(ReapOrphan(Put(s, i, r.(handled := true)), i), i, r.participantId)
  }

  predicate MaySpawn<I(==)>(s: State<I>, participantId: string)
    requires forall p | p in s.slots :: s.slots[p] in s.records
  {
    participantId in s.slots ==> s.records[s.slots[participantId]].settled
  }

  predicate Fits<I(==)>(s: State<I>, e: Event<I>) {
    && (forall p | p in s.slots :: s.slots[p] in s.records)
    && (e.record in s.records <==> !e.Spawn?)
  }

  function Step<I(==)>(s: State<I>, e: Event<I>): State<I>
    requires Fits(s, e)
  {
    match e
    case Spawn(i, p) =>
      if MaySpawn(s, p) then
        s.(records := s.records[i := NewRecord(p)], live := s.live + {i}, slots := s.slots[p := i])
      else s
    case Control(i, frame) => OnFrame(s, i, frame)
    case WatchdogExit(i) => OnWatchdogExit(s, i)
    case Kill(i) => if s.records[i].settled then s else Expect(s, i)
    case SupervisionTimeout(i) => ReapIfKnown(Expect(s, i), i)
    case ShutdownBegins(i) => if s.records[i].handled then s else Expect(s, i)
    case ShutdownEscalates(i) => ReapIfKnown(s, i)
    case ShutdownEnds(i) => ReapIfKnown(s, i)
  }

  // ---------------------------------------------------------------------------------------------
  // What every step keeps
  // ---------------------------------------------------------------------------------------------

  predicate Active(r: Record) {
    !r.settled && !r.handled
  }

  /**
   * A record with a live driver and an unhandled watchdog owns its participant's slot, and slots are
   * owned by such records only; a driver's exit is announced once, exactly when it is known to be dead.
   */
  ghost predicate SlotsOk<I>(s: State<I>) {
    && (forall i | i in s.records && Active(s.records[i]) ::
          s.records[i].participantId in s.slots && s.slots[s.records[i].participantId] == i)
    && (forall p | p in s.slots ::
          s.slots[p] in s.records && Active(s.records[s.slots[p]]) && s.records[s.slots[p]].participantId == p)
    && (forall i | i in s.records :: i in s.live <==> !s.records[i].handled)
    && s.live <= s.records.Keys
    && (forall i | i in s.exits :: i in s.records)
    && (forall i | i in s.records :: multiset(s.exits)[i] == if s.records[i].settled then 1 else 0)
  }

  lemma {:induction false} SettleKeepsSlotsOk<I>(s: State<I>, i: I)
    requires SlotsOk(s) && i in s.records
    ensures SlotsOk(Settle(s, i))
  {
    var t := Settle(s, i);
    if !s.records[i].settled {
      assert multiset(t.exits) == multiset(s.exits) + multiset{i};
    }
  }

  /** Changing what slots do not depend on. */
  lemma PutKeepsSlotsOk<I>(s: State<I>, i: I, r: Record)
    requires SlotsOk(s) && i in s.records
    requires r.participantId == s.records[i].participantId && r.settled == s.records[i].settled
    requires r.handled == s.records[i].handled
    ensures SlotsOk(Put(s, i, r))
  {
  }

  lemma {:induction false} FrameKeepsSlotsOk<I>(s: State<I>, i: I, frame: Frame)
    requires SlotsOk(s) && i in s.records
    ensures SlotsOk(OnFrame(s, i, frame))
  {
    var r := s.records[i];
    match frame
    case Supervised(pid, pgid) =>
      PutKeepsSlotsOk(s, i, r.(pid := pid, pgid := pgid, supervised := true));
    case SpawnError =>
      PutKeepsSlotsOk(s, i, r.(spawnError := true, expecting := true));
      SettleKeepsSlotsOk(Put(s, i, r.(spawnError := true, expecting := true)), i);
    case Exited =>
      PutKeepsSlotsOk(s, i, r.(expecting := true));
      SettleKeepsSlotsOk(Put(s, i, r.(expecting := true)), i);
    case Reaped =>
    case Ignored =>
  }

  lemma {:induction false} WatchdogExitKeepsSlotsOk<I>(s: State<I>, i: I)
    requires SlotsOk(s) && i in s.records
    ensures SlotsOk(OnWatchdogExit(s, i))
  {
    var (r, t) := (s.records[i], OnWatchdogExit(s, i));
    if !r.handled {
      if !ExpectsExit(r) && r.pgid.Some? {
        assert t.exits == s.exits + [i] && multiset(t.exits) == multiset(s.exits) + multiset{i};
      }
    }
  }

  lemma {:induction false} ReapKeepsSlotsOk<I>(s: State<I>, i: I)
    requires SlotsOk(s) && i in s.records
    ensures SlotsOk(ReapIfKnown(s, i))
  {
    SettleKeepsSlotsOk(s.(reaped := s.reaped + [i]), i);
  }

  lemma {:induction false} StepKeepsSlotsOk<I>(s: State<I>, e: Event<I>)
    requires SlotsOk(s) && (e.record in s.records <==> !e.Spawn?)
    ensures Fits(s, e) && SlotsOk(Step(s, e))
  {
    hide Settle, OnFrame, OnWatchdogExit, ReapIfKnown;
    var i := e.record;
    match e
    case Spawn(_, p) =>
    case Control(_, frame) => FrameKeepsSlotsOk(s, i, frame);
    case WatchdogExit(_) => WatchdogExitKeepsSlotsOk(s, i);
    case Kill(_) => PutKeepsSlotsOk(s, i, s.records[i].(expecting := true));
    case SupervisionTimeout(_) =>
      PutKeepsSlotsOk(s, i, s.records[i].(expecting := true));
      ReapKeepsSlotsOk(Expect(s, i), i);
    case ShutdownBegins(_) => PutKeepsSlotsOk(s, i, s.records[i].(expecting := true));
    case ShutdownEscalates(_) => ReapKeepsSlotsOk(s, i);
    case ShutdownEnds(_) => ReapKeepsSlotsOk(s, i);
  }

  /** All events of a run, in any order; an event of an unknown record cannot occur. */
  function Run<I(==)>(s: State<I>, events: seq<Event<I>>): State<I>
    decreases |events|
  {
    if events == [] then s
    else Run(if Fits(s, events[0]) then Step(s, events[0]) else s, events[1..])
  }

  /**
   * In every run each participant has at most one record with a live driver and an unhandled watchdog,
   * that record owns the slot, and no driver's exit is announced twice.
   */
  lemma {:induction false} EveryRunKeepsSlots<I>(s: State<I>, events: seq<Event<I>>, i: I, j: I)
    requires SlotsOk(s)
    ensures var t := Run(s, events);
            && SlotsOk(t)
            && (i in t.records && j in t.records && Active(t.records[i]) && Active(t.records[j])
                && t.records[i].participantId == t.records[j].participantId ==>
                  i == j && t.slots[t.records[i].participantId] == i)
            && multiset(t.exits)[i] <= 1
    decreases |events|
  {
    if events != [] {
      if Fits(s, events[0]) {
        StepKeepsSlotsOk(s, events[0]);
        EveryRunKeepsSlots(Step(s, events[0]), events[1..], i, j);
      } else {
        EveryRunKeepsSlots(s, events[1..], i, j);
      }
    }
  }

  /** A spawn is accepted exactly if no record of the participant is active. */
  lemma SpawnIsAcceptedIff<I>(s: State<I>, participantId: string)
    requires SlotsOk(s)
    ensures MaySpawn(s, participantId) <==>
            forall i | i in s.records && s.records[i].participantId == participantId :: !Active(s.records[i])
  {
  }

  /** What became of a record after one step of another one, or of its own. */
  predicate Later(before: Record, after: Record) {
    && after.participantId == before.participantId
    && (before.settled ==> after.settled) && (before.handled ==> after == before.(settled := after.settled,
                                                                              expecting := after.expecting))
  }

  /** Between two states only record `i` has changed, and no slot that another record owns. */
  ghost predicate Touches<I>(s: State<I>, t: State<I>, i: I, j: I)
    requires j in s.records
  {
    && j in t.records && Later(s.records[j], t.records[j])
    && (j != i ==> t.records[j] == s.records[j])
    && forall p | p in s.slots && s.slots[p] == j && j != i :: p in t.slots && t.slots[p] == j
  }

  lemma SettleTouches<I>(s: State<I>, i: I, j: I)
    requires i in s.records && j in s.records
    ensures Touches(s, Settle(s, i), i, j) && Touches(s, ReapIfKnown(s, i), i, j) && Touches(s, Expect(s, i), i, j)
    ensures Touches(s, ReapIfKnown(Expect(s, i), i), i, j)
  {
  }

  lemma {:induction false} FrameTouches<I>(s: State<I>, i: I, frame: Frame, j: I)
    requires i in s.records && j in s.records
    ensures Touches(s, OnFrame(s, i, frame), i, j)
  {
    hide Settle;
    var r := s.records[i];
    SettleTouches(Put(s, i, r.(spawnError := true, expecting := true)), i, j);
    SettleTouches(Put(s, i, r.(expecting := true)), i, j);
  }

  lemma WatchdogExitTouches<I>(s: State<I>, i: I, j: I)
    requires i in s.records && j in s.records
    ensures Touches(s, OnWatchdogExit(s, i), i, j)
  {
  }

  /** An event touches its own record only, and no slot that another record owns. */
  lemma {:induction false} StaleEventsDoNotClobber<I>(s: State<I>, e: Event<I>, j: I)
    requires SlotsOk(s) && Fits(s, e) && j in s.records
    requires e.Spawn? ==> MaySpawn(s, e.participantId)
    ensures Touches(s, Step(s, e), e.record, j)
  {
    hide Settle, ReapIfKnown, OnFrame, OnWatchdogExit, Expect, Put;
    var i := e.record;
    match e
    case Spawn(_, p) =>
    case Control(_, frame) => FrameTouches(s, i, frame, j);
    case WatchdogExit(_) => WatchdogExitTouches(s, i, j);
    case Kill(_) => SettleTouches(s, i, j);
    case SupervisionTimeout(_) => SettleTouches(s, i, j);
    case ShutdownBegins(_) => SettleTouches(s, i, j);
    case ShutdownEscalates(_) => SettleTouches(s, i, j);
    case ShutdownEnds(_) => SettleTouches(s, i, j);
  }

  /** The host kills the group of the record of this event itself. */
  predicate Kills<I(==)>(s: State<I>, e: Event<I>)
    requires !e.Spawn? ==> e.record in s.records
  {
    !e.Spawn? &&
    var r := s.records[e.record];
    && r.pgid.Some? && !r.settled
    && (|| e.SupervisionTimeout? || e.ShutdownEscalates? || e.ShutdownEnds?
        || (e.WatchdogExit? && !r.handled && !r.expecting && !r.spawnError))
  }

  /** The watchdog reports the driver's end, or that it could not be run after all. */
  predicate ReportsEnd<I(==)>(s: State<I>, e: Event<I>)
    requires !e.Spawn? ==> e.record in s.records
  {
    e.Control? && !s.records[e.record].handled
    && (e.frame == Exited || (e.frame == SpawnError && s.records[e.record].supervised))
  }

  /** Nothing else about the state is changed by settling a record, or by killing its group. */
  lemma {:induction false} RecordAfter<I>(s: State<I>, i: I)
    requires i in s.records
    ensures var (r, t) := (s.records[i], Settle(s, i));
            && t.records == s.records[i := r.(settled := true)]
            && t.exits == s.exits + (if r.settled then [] else [i])
            && t == s.(records := t.records, exits := t.exits, slots := t.slots)
    ensures var (r, t) := (s.records[i], ReapIfKnown(s, i));
            && t.records == s.records[i := r.(settled := r.settled || r.pgid.Some?)]
            && t.exits == s.exits + (if r.settled || r.pgid == None then [] else [i])
            && t.reaped == s.reaped + (if r.settled || r.pgid == None then [] else [i])
            && t == s.(records := t.records, exits := t.exits, slots := t.slots, reaped := t.reaped)
  {
    hide Release;
    assert s.records[i := s.records[i]] == s.records;
  }

  /**
   * A driver is taken for dead exactly when its end is reported or the host has killed its group: no slot is
   * given up, and no exit announced, for a driver that nobody has ended.
   */
  lemma {:induction false} SettledIff<I>(s: State<I>, e: Event<I>)
    requires Fits(s, e)
    ensures var t := Step(s, e);
            && t.reaped == s.reaped + (if Kills(s, e) then [e.record] else [])
            && (e.record in t.records ==>
                  (t.records[e.record].settled <==>
                   Kills(s, e) || (!e.Spawn? && (s.records[e.record].settled || ReportsEnd(s, e)))))
            && t.exits == s.exits + (if e.record in t.records && t.records[e.record].settled
                                        && !s.records[e.record].settled then [e.record] else [])
            && t.reapedByWatchdog == s.reapedByWatchdog
               + (if e.Control? && e.frame == Reaped && !s.records[e.record].handled then 1 else 0)
            && t.reapedAfterWatchdogDeath ==
               s.reapedAfterWatchdogDeath + (if e.WatchdogExit? && Kills(s, e) then 1 else 0)
  {
    hide Release, Settle, ReapIfKnown;
    if !e.Spawn? {
      var (i, r) := (e.record, s.records[e.record]);
      RecordAfter(s, i);
      RecordAfter(Expect(s, i), i);
      RecordAfter(Put(s, i, r.(spawnError := true, expecting := true)), i);
      RecordAfter(Put(s, i, r.(handled := true)), i);
    }
  }

  /** Whether an exit of the watchdog is expected: after a report that ends it, a kill, a timeout or a shutdown. */
  lemma {:induction false} ExpectedIff<I>(s: State<I>, e: Event<I>)
    requires Fits(s, e) && !e.Spawn?
    ensures e.record in Step(s, e).records
    ensures var (r, t) := (s.records[e.record], Step(s, e).records[e.record]);
            ExpectsExit(t) <==>
            || ExpectsExit(r) || e.Kill? || e.SupervisionTimeout? || (e.ShutdownBegins? && !r.handled)
            || (e.Control? && (e.frame == SpawnError || e.frame == Exited) && !r.handled) || Kills(s, e)
    ensures var (r, t) := (s.records[e.record], Step(s, e).records[e.record]);
            && (t.handled <==> r.handled || e.WatchdogExit?)
            && (if e.Control? && e.frame.Supervised? && !r.handled
                then t.supervised && t.pid == e.frame.pid && t.pgid == e.frame.pgid
                else t.supervised == r.supervised && t.pid == r.pid && t.pgid == r.pgid)
            && (t.spawnError <==> r.spawnError || (e.Control? && e.frame == SpawnError && !r.handled))
  {
    hide Release, Settle, ReapIfKnown;
    var (i, r) := (e.record, s.records[e.record]);
    RecordAfter(s, i);
    RecordAfter(Expect(s, i), i);
    RecordAfter(Put(s, i, r.(spawnError := true, expecting := true)), i);
    RecordAfter(Put(s, i, r.(handled := true)), i);
  }

  /** No group is killed twice, and whoever's group the host has killed is taken for dead. */
  ghost predicate KillsOk<I>(s: State<I>) {
    forall i | i in s.reaped :: multiset(s.reaped)[i] == 1 && i in s.records && s.records[i].settled
  }

  lemma {:induction false} RunKeepsKillsOk<I>(s: State<I>, events: seq<Event<I>>)
    requires KillsOk(s) && SlotsOk(s)
    ensures KillsOk(Run(s, events))
    decreases |events|
  {
    if events != [] {
      if Fits(s, events[0]) {
        StepKeepsSlotsOk(s, events[0]);
        StepKeepsKillsOk(s, events[0]);
        RunKeepsKillsOk(Step(s, events[0]), events[1..]);
      } else {
        RunKeepsKillsOk(s, events[1..]);
      }
    }
  }

  lemma {:induction false} StepKeepsKillsOk<I>(s: State<I>, e: Event<I>)
    requires KillsOk(s) && SlotsOk(s) && Fits(s, e)
    ensures KillsOk(Step(s, e))
  {
    hide Step, SlotsOk;
    SettledIff(s, e);
    var t := Step(s, e);
    if Kills(s, e) {
      ExpectedIff(s, e);
      assert e.record !in s.reaped;
      assert multiset(t.reaped) == multiset(s.reaped) + multiset{e.record};
    }
    forall i | i in s.reaped ensures i in t.records && t.records[i].settled { StepKeepsSettled(s, e, i); }
  }

  lemma {:induction false} StepKeepsSettled<I>(s: State<I>, e: Event<I>, i: I)
    requires SlotsOk(s) && Fits(s, e) && i in s.records && s.records[i].settled
    ensures var t := Step(s, e); i in t.records && t.records[i].settled
  {
    if Step(s, e) != s { StaleEventsDoNotClobber(s, e, i); }
  }

  /** The exit of a watchdog leaves a known group alone exactly if the exit was expected. */
  lemma GroupIsLeftIff<I>(s: State<I>, i: I)
    requires SlotsOk(s) && i in s.records && !s.records[i].handled
    ensures var (r, t) := (s.records[i], OnWatchdogExit(s, i));
            && t.records[i].handled && i !in t.live
            && (r.participantId in t.slots ==> t.slots[r.participantId] != i)
            && (!t.records[i].settled && t.records[i].pgid.Some? <==>
                !r.settled && r.pgid.Some? && (r.expecting || r.spawnError))
  {
  }

  ghost predicate NoGroupLeft<I>(s: State<I>, i: I) {
    i in s.records && (s.records[i].settled || s.records[i].pgid == None)
  }

  /**
   * After a shutdown no group that is known has a live driver. It stays so, whatever happens, exactly if
   * the driver is settled or the watchdog handled by then: otherwise a late frame can name the group.
   */
  lemma {:induction false} ShutdownIsFinalIff<I(!new)>(s: State<I>, i: I)
    requires SlotsOk(s) && i in s.records
    ensures var t := Step(s, ShutdownEnds(i));
            && NoGroupLeft(t, i)
            && ((forall events :: NoGroupLeft(Run(t, events), i)) <==> t.records[i].settled || t.records[i].handled)
  {
    var t := Step(s, ShutdownEnds(i));
    ReapKeepsSlotsOk(s, i);
    hide Run, SlotsOk;
    if t.records[i].settled || t.records[i].handled {
      forall events ensures NoGroupLeft(Run(t, events), i) { DeadStaysDead(t, i, events); }
    } else {
      LateFrameNamesGroup(t, i);
    }
  }

  lemma {:induction false} LateFrameNamesGroup<I>(s: State<I>, i: I)
    requires SlotsOk(s) && i in s.records && !s.records[i].settled && !s.records[i].handled
    ensures !NoGroupLeft(Run(s, [Control(i, Supervised(None, Some(1)))]), i)
  {
    var late := Control(i, Supervised(None, Some(1)));
    assert Fits(s, late) && [late][1..] == [];
    assert Run(s, [late]) == Run(Step(s, late), []) == Step(s, late);
  }

  lemma {:induction false} DeadStaysDead<I>(s: State<I>, i: I, events: seq<Event<I>>)
    requires SlotsOk(s) && i in s.records
    requires s.records[i].settled || (s.records[i].handled && s.records[i].pgid == None)
    ensures var u := Run(s, events);
            i in u.records && (u.records[i].settled || (u.records[i].handled && u.records[i].pgid == None))
    decreases |events|
  {
    if events != [] {
      if Fits(s, events[0]) {
        StepKeepsSlotsOk(s, events[0]);
        if Step(s, events[0]) != s { StaleEventsDoNotClobber(s, events[0], i); }
        DeadStaysDead(Step(s, events[0]), i, events[1..]);
      } else {
        DeadStaysDead(s, i, events[1..]);
      }
    }
  }

  // ---------------------------------------------------------------------------------------------
  // Both happen
  // ---------------------------------------------------------------------------------------------

  lemma {:induction false} NewStateIsOk<I>()
    ensures SlotsOk(NewState<I>())
  {
  }

  lemma {:induction false} RunUnfolds<I>(s: State<I>, e: Event<I>, rest: seq<Event<I>>)
    requires Fits(s, e)
    ensures Run(s, [e] + rest) == Run(Step(s, e), rest)
  {
    assert ([e] + rest)[1..] == rest;
  }

  /** A driver is spawned and reported as supervised in group `g`. */
  lemma {:induction false} SupervisedDriver<I>(i: I, p: string, g: int) returns (s: State<I>)
    ensures s == Run(NewState(), [Spawn(i, p)] + ([Control(i, Supervised(None, Some(g)))] + []))
    ensures SlotsOk(s) && i in s.records && s.records[i] == NewRecord(p).(pgid := Some(g), supervised := true)
    ensures s.reaped == []
  {
    NewStateIsOk<I>();
    var (empty, spawn, frame) := (NewState<I>(), Spawn(i, p), Control(i, Supervised(None, Some(g))));
    StepKeepsSlotsOk(empty, spawn);
    var s1 := Step(empty, spawn);
    StepKeepsSlotsOk(s1, frame);
    s := Step(s1, frame);
    RunUnfolds(s1, frame, []);
    RunUnfolds(empty, spawn, [frame] + []);
  }

  /**
   * A driver is killed and its watchdog exits before it has reported the driver's end: the group is left,
   * and the slot is free for another driver.
   */
  lemma {:induction false} GroupIsLeftHappens<I>(i: I, p: string, g: int)
    ensures var s := Run(NewState(), [Spawn(i, p), Control(i, Supervised(None, Some(g))), Kill(i), WatchdogExit(i)]);
            && i in s.records && s.records[i].handled && !s.records[i].settled && s.records[i].pgid == Some(g)
            && s.reaped == [] && SlotsOk(s) && MaySpawn(s, p)
  {
    var s := SupervisedDriver(i, p, g);
    var (start, end) := ([Spawn(i, p), Control(i, Supervised(None, Some(g)))], [Kill(i), WatchdogExit(i)]);
    StepKeepsSlotsOk(s, Kill(i));
    var killed := Step(s, Kill(i));
    StepKeepsSlotsOk(killed, WatchdogExit(i));
    RunUnfolds(killed, WatchdogExit(i), []);
    RunUnfolds(s, Kill(i), [WatchdogExit(i)] + []);
    RunsJoin(NewState(), start, end);
    assert start == [start[0]] + ([start[1]] + []) && end == [Kill(i)] + ([WatchdogExit(i)] + []);
    assert start + end == [Spawn(i, p), Control(i, Supervised(None, Some(g))), Kill(i), WatchdogExit(i)];
  }

  lemma {:induction false} RunsJoin<I>(s: State<I>, before: seq<Event<I>>, after: seq<Event<I>>)
    ensures Run(s, before + after) == Run(Run(s, before), after)
    decreases |before|
  {
    if before == [] {
      assert before + after == after;
    } else {
      assert (before + after)[1..] == before[1..] + after;
      RunsJoin(if Fits(s, before[0]) then Step(s, before[0]) else s, before[1..], after);
    }
  }

  /** A driver whose group is not known yet when the host shuts down is reported just afterwards. */
  lemma {:induction false} ShutdownIsNotFinalHappens<I>(i: I, p: string)
    ensures var s := Run(NewState(), [Spawn(i, p), ShutdownBegins(i), ShutdownEnds(i)]);
            && i in s.records && NoGroupLeft(s, i)
            && !NoGroupLeft(Run(s, [Control(i, Supervised(None, Some(1)))]), i)
  {
    NewStateIsOk<I>();
    var s0 := NewState<I>();
    StepKeepsSlotsOk(s0, Spawn(i, p));
    var s1 := Step(s0, Spawn(i, p));
    StepKeepsSlotsOk(s1, ShutdownBegins(i));
    var s2 := Step(s1, ShutdownBegins(i));
    StepKeepsSlotsOk(s2, ShutdownEnds(i));
    var s3 := Step(s2, ShutdownEnds(i));
    RunUnfolds(s2, ShutdownEnds(i), []);
    RunUnfolds(s1, ShutdownBegins(i), [ShutdownEnds(i)] + []);
    RunUnfolds(s0, Spawn(i, p), [ShutdownBegins(i)] + ([ShutdownEnds(i)] + []));
    assert [Spawn(i, p)] + ([ShutdownBegins(i)] + ([ShutdownEnds(i)] + [])) ==
           [Spawn(i, p), ShutdownBegins(i), ShutdownEnds(i)];
    LateFrameNamesGroup(s3, i);
  }

  /** The records that `liveCount` counts. */
  ghost function Counted<I>(s: State<I>): set<I> {
    set i | i in s.live && i in s.records && s.records[i].supervised && !s.records[i].settled
  }

  /** No more drivers are counted as live than there are slots taken. */
  lemma {:induction false} LiveDriversHaveSlots<I>(s: State<I>)
    requires SlotsOk(s)
    ensures |Counted(s)| <= |s.slots.Keys|
  {
    SlotsHold(s, Counted(s), s.slots.Keys);
  }

  lemma {:induction false} SlotsHold<I>(s: State<I>, drivers: set<I>, names: set<string>)
    requires SlotsOk(s)
    requires forall i | i in drivers :: i in s.records && Active(s.records[i]) && s.records[i].participantId in names
    ensures |drivers| <= |names|
    decreases drivers
  {
    if drivers != {} {
      var i :| i in drivers;
      var p := s.records[i].participantId;
      assert s.slots[p] == i;
      SlotsHold(s, drivers - {i}, names - {p});
      assert |drivers - {i}| == |drivers| - 1 && |names - {p}| == |names| - 1;
    }
  }
}
