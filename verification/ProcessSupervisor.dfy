/** The process supervisor: records, slots and counters, changed in place by the callbacks of watchdogs. */
module ProcessSupervisor {
  import opened Options
  import opened ProcessSlots

  class DriverRecord {
    const participantId: string
    var pid: Option<int>
    var pgid: Option<int>
    var supervised: bool
    var driverSettled: bool
    var spawnError: bool
    var expectingWatchdogExit: bool
    var watchdogHandled: bool

    constructor (participantId: string)
      ensures View() == NewRecord(participantId)
    {
      this.participantId := participantId;
      pid, pgid, supervised, driverSettled, spawnError := None, None, false, false, false;
      expectingWatchdogExit, watchdogHandled := false, false;
    }

    function View(): Record
      reads this
    {
      Record(participantId, pid, pgid, supervised, driverSettled, spawnError, expectingWatchdogExit, watchdogHandled)
    }
  }

  class Supervisor {
    var records: set<DriverRecord>
    var byParticipant: map<string, DriverRecord>
    var exits: seq<DriverRecord>            // the driver-exit events announced
    var reaped: seq<DriverRecord>           // whose groups the host has killed
    var reapedByWatchdog: nat
    var reapedAfterWatchdogDeath: nat
    ghost var all: set<DriverRecord>        // every record there has ever been

    constructor ()
      ensures Valid() && View() == NewState() && fresh(all)
    {
      records, byParticipant, exits, reaped, reapedByWatchdog, reapedAfterWatchdogDeath, all :=
        {}, map[], [], [], 0, 0, {};
    }

    ghost function View(): State<DriverRecord>
      reads this, all
    {
      State(map r | r in all :: r.View(),
            records, byParticipant, exits, reaped, reapedByWatchdog, reapedAfterWatchdogDeath)
    }

    ghost predicate Valid()
      reads this, all
    {
      SlotsOk(View())
    }

    /** Refused while the participant's record is active; the new record takes the slot. */
    method SpawnDriver(participantId: string) returns (record: Option<DriverRecord>)
      requires Valid()
      modifies this
      ensures Valid()
      ensures record.Some? <==> old(MaySpawn(View(), participantId))
      ensures record.None? ==> View() == old(View()) && all == old(all)
      ensures record.Some? ==> fresh(record.value) && all == old(all) + {record.value} &&
                               View() == Step(old(View()), Spawn(record.value, participantId))
    {
      ghost var before := View();
      assert MaySpawn(before, participantId) <==>
             !(participantId in byParticipant && !byParticipant[participantId].driverSettled);
      if participantId in byParticipant && !byParticipant[participantId].driverSettled {
        return None;
      }
      var created := new DriverRecord(participantId);
      StepKeepsSlotsOk(before, Spawn(created, participantId));
      hide SlotsOk, MaySpawn;
      Register(created);
      return Some(created);
    }

    method Register(created: DriverRecord)
      requires created !in all
      modifies this
      ensures all == old(all) + {created}
      ensures View() == old(View()).(records := old(View()).records[created := created.View()],
                                     live := old(View()).live + {created},
                                     slots := old(View()).slots[created.participantId := created])
    {
      records, all := records + {created}, all + {created};
      byParticipant := byParticipant[created.participantId := created];
      assert View().records == old(View()).records[created := created.View()];
    }

    method SettleDriver(record: DriverRecord)
      requires record in all
      modifies this, record
      ensures all == old(all) && View() == Settle(old(View()), record)
    {
      if record.driverSettled { return; }
      record.driverSettled := true;
      if record.participantId in byParticipant && byParticipant[record.participantId] == record {
        byParticipant := byParticipant - {record.participantId};
      }
      exits := exits + [record];
      assert View().records == old(View()).records[record := record.View()];
    }

    /** The host's own kill of a group it knows of. */
    method ReapAndSettle(record: DriverRecord)
      requires record in all
      modifies this, record
      ensures all == old(all) && View() == ReapIfKnown(old(View()), record)
    {
      if record.pgid.Some? && !record.driverSettled {
        reaped := reaped + [record];
        SettleDriver(record);
      }
    }

    method MarkSupervised(record: DriverRecord, pid: Option<int>, pgid: Option<int>)
      requires record in all
      modifies record
      ensures View() == Put(old(View()), record, old(record.View()).(pid := pid, pgid := pgid, supervised := true))
    {
      record.pid, record.pgid, record.supervised := pid, pgid, true;
      assert View().records == old(View()).records[record := record.View()];
    }

    method MarkSpawnError(record: DriverRecord)
      requires record in all
      modifies record
      ensures View() == Put(old(View()), record, old(record.View()).(spawnError := true, expecting := true))
    {
      record.spawnError, record.expectingWatchdogExit := true, true;
      assert View().records == old(View()).records[record := record.View()];
    }

    method HandleSpawnError(record: DriverRecord)
      requires record in all
      modifies this, record
      ensures all == old(all) && View() == OnSpawnError(old(View()), record)
    {
      assert View().records[record] == record.View();
      hide Settle, Put;
      MarkSpawnError(record);
      if record.supervised && !record.driverSettled { SettleDriver(record); }
    }

    method HandleExited(record: DriverRecord)
      requires record in all
      modifies this, record
      ensures all == old(all) && View() == Settle(Expect(old(View()), record), record)
    {
      hide Settle;
      ExpectWatchdogExit(record);
      SettleDriver(record);
    }

    method ApplyFrame(record: DriverRecord, frame: Frame)
      requires record in all
      modifies this, record
      ensures all == old(all) && View() == OnFrame(old(View()), record, frame)
    {
      assert View().records[record] == record.View();
      hide Settle, Put, Expect, OnSpawnError;
      if record.watchdogHandled { return; }
      match frame
      case Supervised(pid, pgid) => MarkSupervised(record, pid, pgid);
      case SpawnError => HandleSpawnError(record);
      case Exited => HandleExited(record);
      case Reaped => reapedByWatchdog := reapedByWatchdog + 1;
      case Ignored =>
    }

    method HandleControlFrame(record: DriverRecord, frame: Frame)
      requires Valid() && record in all
      modifies this, record
      ensures Valid() && all == old(all) && View() == Step(old(View()), Control(record, frame))
    {
      StepKeepsSlotsOk(View(), Control(record, frame));
      hide SlotsOk, OnFrame;
      ApplyFrame(record, frame);
    }

    method MarkHandled(record: DriverRecord)
      requires record in all
      modifies record
      ensures View() == Put(old(View()), record, old(record.View()).(handled := true))
    {
      record.watchdogHandled := true;
      assert View().records == old(View()).records[record := record.View()];
    }

    /** The record is no longer listed and gives up the slot if it still owns it. */
    method Retire(record: DriverRecord)
      modifies this
      ensures all == old(all)
      ensures View() == ProcessSlots.Retire(old(View()), record, record.participantId)
    {
      records := records - {record};
      if record.participantId in byParticipant && byParticipant[record.participantId] == record {
        byParticipant := byParticipant - {record.participantId};
      }
    }

    method HandleOrphan(record: DriverRecord)
      requires record in all
      modifies this, record
      ensures all == old(all) && View() == ReapOrphan(old(View()), record)
    {
      assert View().records[record] == record.View();
      hide ReapIfKnown;
      var expected := record.expectingWatchdogExit || record.driverSettled || record.spawnError;
      if !expected && record.pgid.Some? && !record.driverSettled {
        ReapAndSettle(record);
        reapedAfterWatchdogDeath := reapedAfterWatchdogDeath + 1;
      }
    }

    method HandleWatchdogExit(record: DriverRecord)
      requires Valid() && record in all
      modifies this, record
      ensures Valid() && all == old(all) && View() == Step(old(View()), WatchdogExit(record))
    {
      StepKeepsSlotsOk(View(), WatchdogExit(record));
      assert View().records[record] == record.View();
      hide SlotsOk, ReapOrphan, ProcessSlots.Retire, Put;
      if record.watchdogHandled { return; }
      MarkHandled(record);
      HandleOrphan(record);
      Retire(record);
    }

    method ExpectWatchdogExit(record: DriverRecord)
      requires record in all
      modifies record
      ensures View() == Expect(old(View()), record)
    {
      record.expectingWatchdogExit := true;
      assert View().records == old(View()).records[record := record.View()];
    }

    method Kill(record: DriverRecord)
      requires Valid() && record in all
      modifies record
      ensures Valid() && View() == Step(old(View()), ProcessSlots.Kill(record))
    {
      StepKeepsSlotsOk(View(), ProcessSlots.Kill(record));
      if record.driverSettled { return; }
      ExpectWatchdogExit(record);
    }

    /** The timer of `waitSupervised`. */
    method OnSupervisionTimeout(record: DriverRecord)
      requires Valid() && record in all
      modifies this, record
      ensures Valid() && all == old(all) && View() == Step(old(View()), SupervisionTimeout(record))
    {
      StepKeepsSlotsOk(View(), SupervisionTimeout(record));
      ExpectWatchdogExit(record);
      ReapAndSettle(record);
    }

    /** `shutdown` up to its wait for the watchdog. */
    method BeginShutdown(record: DriverRecord)
      requires Valid() && record in all
      modifies record
      ensures Valid() && View() == Step(old(View()), ShutdownBegins(record))
    {
      StepKeepsSlotsOk(View(), ShutdownBegins(record));
      if record.watchdogHandled { return; }
      ExpectWatchdogExit(record);
    }

    /** `shutdown` when the watchdog has not gone in time, and once more when it is done. */
    method ReapOnShutdown(record: DriverRecord)
      requires Valid() && record in all
      modifies this, record
      ensures Valid() && all == old(all)
      ensures View() == Step(old(View()), ShutdownEscalates(record)) == Step(old(View()), ShutdownEnds(record))
      ensures record.driverSettled || record.pgid == None
    {
      StepKeepsSlotsOk(View(), ShutdownEnds(record));
      ReapAndSettle(record);
    }

    /** How many drivers run under supervision; never more than there are slots taken. */
    method LiveCount() returns (count: nat)
      requires Valid()
      ensures count == |Counted(View())| <= |byParticipant.Keys|
    {
      ghost var counted: set<DriverRecord> := {};
      var rest := records;
      count := 0;
      while rest != {}
        invariant rest <= records && count == |counted|
        invariant counted == set r | r in records - rest && r.supervised && !r.driverSettled
        decreases rest
      {
        var record :| record in rest;
        rest := rest - {record};
        if record.supervised && !record.driverSettled {
          count, counted := count + 1, counted + {record};
        }
      }
      assert counted == Counted(View());
      LiveDriversHaveSlots(View());
    }
  }
}
