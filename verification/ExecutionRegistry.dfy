/**
 * The registry as objects: records changed in place, and followers that are notified. Every method is
 * proved to do to a record exactly what `ExecutionLog` says.
 */
module ExecutionRegistry {
  import opened Options
  import opened Text16
  import opened Events
  import opened ExecutionLog

  class ExecutionRecord {
    const executionId: string
    const participantId: string
    const scopeId: string
    var state: ExecutionState
    var events: seq<Event>
    var lastSeq: nat
    var bufferedBytes: int
    var acknowledged: bool
    var disposition: Option<Disposition>
    var tombstone: bool
    var terminal: Option<Event>
    ghost var emitted: seq<Event>
    ghost var kept: seq<Event>

    constructor (executionId: string, participantId: string, scopeId: string)
      ensures View() == NEW_LOG
      ensures this.executionId == executionId && this.participantId == participantId && this.scopeId == scopeId
    {
      this.executionId, this.participantId, this.scopeId := executionId, participantId, scopeId;
      state, events, lastSeq, bufferedBytes := Running, [], 0, 0;
      acknowledged, disposition, tombstone, terminal := false, None, false, None;
      emitted, kept := [], [];
    }

    ghost function View(): Log
      reads this
    {
      Log(state, events, lastSeq, bufferedBytes, acknowledged, disposition, tombstone, terminal, emitted, kept)
    }

    /** All buffered previews become one snapshot in the place of the first of them. */
    method CoalescePreviews(z: Sizes)
      requires bufferedBytes == TotalBytes(z, events)
      modifies this`events, this`bufferedBytes
      ensures events == Coalesce(old(events)) && bufferedBytes == TotalBytes(z, events)
    {
      var keptEvents: seq<Event> := [];
      var preview: Text := [];
      var firstDeltaSeq: Option<nat> := None;
      var firstDeltaIndex := 0;
      var all := events;
      for n := 0 to |all|
        invariant events == all
        invariant keptEvents == Others(all[..n]) && preview == PreviewText(all[..n])
        invariant firstDeltaSeq == (if FirstPreview(all) < n then Some(all[FirstPreview(all)].seqNo) else None)
        invariant firstDeltaSeq.Some? ==> firstDeltaIndex == FirstPreview(all)
        invariant bufferedBytes == TotalBytes(z, all) - TotalBytes(z, all[..n]) + TotalBytes(z, keptEvents)
      {
        var existing := all[n];
        OneMore(z, all, n);
        if IsPreview(existing) {
          if firstDeltaSeq == None {
            FirstPreviewIsHere(all, n);
            firstDeltaIndex := |keptEvents|;
            firstDeltaSeq := Some(existing.seqNo);
          }
          preview := preview + existing.body.text;
          bufferedBytes := bufferedBytes - EventBytes(z, existing);
        } else {
          KeepOne(z, keptEvents, existing);
          keptEvents := keptEvents + [existing];
        }
      }
      assert all[..|all|] == all;
      if firstDeltaSeq.Some? {
        var snapshot := Event(firstDeltaSeq.value, Preview(preview));
        SpliceIsCoalesce(z, all, keptEvents, snapshot);
        keptEvents := keptEvents[..firstDeltaIndex] + [snapshot] + keptEvents[firstDeltaIndex..];
        bufferedBytes := bufferedBytes + EventBytes(z, snapshot);
      } else {
        WithoutPreviews(all);
      }
      events := keptEvents;
    }

    method Buffer(z: Sizes, e: Event)
      requires bufferedBytes == TotalBytes(z, events)
      modifies this`events, this`bufferedBytes, this`lastSeq, this`kept
      ensures View() == BufferEvent(z, old(View()), e)
    {
      var size := EventBytes(z, e);
      if !IsTerminal(e) && bufferedBytes + size > BUFFER_CAP {
        CoalescePreviews(z);
        if bufferedBytes + size > BUFFER_CAP {
          lastSeq := e.seqNo;
          return;
        }
      }
      events := events + [e];
      bufferedBytes := bufferedBytes + size;
      lastSeq := e.seqNo;
      kept := kept + [e];
    }

    /** Stamps and buffers what a driver emitted; nothing once there is a terminal. */
    method EmitProto(z: Sizes, proto: Proto) returns (event: Option<Event>)
      requires !tombstone ==> bufferedBytes == TotalBytes(z, events)
      modifies this
      ensures View() == Emit(z, old(View()), proto)
      ensures event == if Accepts(old(View())) then Some(Stamp(old(lastSeq), proto)) else None
    {
      if tombstone || terminal.Some? {
        return None;
      }
      var stamped := Stamp(lastSeq, proto);
      emitted := emitted + [stamped];
      if IsTerminal(stamped) {
        state := StateOf(stamped);
        terminal := Some(stamped);
      }
      Buffer(z, stamped);
      event := Some(stamped);
    }

    method Acknowledge(finalSeq: nat, d: Disposition) returns (outcome: AckOutcome)
      modifies this
      ensures (View(), outcome) == Ack(old(View()), finalSeq, d)
    {
      if tombstone || acknowledged {
        return if disposition == Some(d) then Acknowledged(d) else Conflict(disposition);
      }
      if terminal == None || terminal.value.seqNo != finalSeq {
        return Conflict(None);
      }
      acknowledged := true;
      disposition := Some(d);
      events := [];
      bufferedBytes := 0;
      tombstone := true;
      outcome := Acknowledged(d);
    }
  }

  /** A follower's callback, as the list of events it was called with. */
  class Listener {
    var received: seq<Event>

    constructor ()
      ensures received == []
    {
      received := [];
    }

    method Deliver(e: Event)
      modifies this
      ensures received == old(received) + [e]
    {
      received := received + [e];
    }
  }

  class Registry {
    const sizes: Sizes
    var records: map<string, ExecutionRecord>
    var listeners: map<string, set<Listener>>

    constructor (sizes: Sizes)
      ensures Valid() && records == map[] && listeners == map[]
    {
      this.sizes := sizes;
      records, listeners := map[], map[];
    }

    ghost predicate Valid()
      reads this, records.Values
    {
      forall id | id in records :: records[id].executionId == id
    }

    /** The invariant of `ExecutionLog`, for one execution. */
    ghost predicate LogOkFor(executionId: string)
      reads this, records.Values
    {
      executionId in records ==> LogOk(sizes, records[executionId].View())
    }

    function RecordSet(executionId: string): set<ExecutionRecord>
      reads this
    {
      if executionId in records then {records[executionId]} else {}
    }

    function Followers(executionId: string): set<Listener>
      reads this
    {
      if executionId in listeners then listeners[executionId] else {}
    }

    /** An id that is known keeps its record: nothing is ever dispatched twice. */
    method Begin(executionId: string, participantId: string, scopeId: string)
      returns (record: ExecutionRecord, created: bool)
      requires Valid()
      modifies this`records
      ensures Valid()
      ensures created <==> executionId !in old(records)
      ensures records == old(records)[executionId := record]
      ensures created ==>
                && fresh(record) && record.View() == NEW_LOG && LogOkFor(executionId)
                && record.scopeId == scopeId && record.participantId == participantId
      ensures !created ==> record == old(records)[executionId]
    {
      if executionId in records {
        return records[executionId], false;
      }
      record := new ExecutionRecord(executionId, participantId, scopeId);
      records := records[executionId := record];
      created := true;
    }

    method Notify(executionId: string, e: Event)
      modifies Followers(executionId)
      ensures forall l | l in Followers(executionId) :: l.received == old(l.received) + [e]
    {
      var rest := Followers(executionId);
      while rest != {}
        invariant rest <= Followers(executionId)
        invariant forall l | l in Followers(executionId) ::
                    l.received == old(l.received) + (if l in rest then [] else [e])
      {
        var l :| l in rest;
        l.Deliver(e);
        rest := rest - {l};
      }
    }

    /** Emits into the record and tells every follower, whether or not the buffer dropped the event. */
    method EmitTo(executionId: string, proto: Proto) returns (event: Option<Event>)
      requires Valid() && LogOkFor(executionId)
      modifies RecordSet(executionId), Followers(executionId)
      ensures Valid() && LogOkFor(executionId)
      ensures forall id | id in records && id != executionId :: records[id].View() == old(records[id].View())
      ensures executionId !in records ==> event == None
      ensures executionId in records ==>
                && records[executionId].View() == Emit(sizes, old(records[executionId].View()), proto)
                && event == (if Accepts(old(records[executionId].View()))
                             then Some(Stamp(old(records[executionId].lastSeq), proto)) else None)
      ensures forall l | l in Followers(executionId) ::
                l.received == old(l.received) + (if event.Some? then [event.value] else [])
    {
      if executionId !in records {
        return None;
      }
      EmitKeepsLogOk(sizes, records[executionId].View(), proto);
      event := records[executionId].EmitProto(sizes, proto);
      if event.Some? {
        Notify(executionId, event.value);
      }
    }

    /** Replays what is buffered after the cursor, then subscribes unless nothing more can come. */
    method Follow(executionId: string, afterSeq: nat, listener: Listener) returns (known: bool)
      requires Valid()
      modifies this`listeners, listener
      ensures Valid() && known == (executionId in records)
      ensures known ==> listener.received == old(listener.received) + Replay(records[executionId].events, afterSeq)
      ensures known && Accepts(records[executionId].View()) ==>
                listeners == old(listeners)[executionId := old(Followers(executionId)) + {listener}]
      ensures !known || !Accepts(records[executionId].View()) ==> listeners == old(listeners)
      ensures !known ==> listener.received == old(listener.received)
    {
      if executionId !in records {
        return false;
      }
      var record := records[executionId];
      var all := record.events;
      for n := 0 to |all|
        invariant listeners == old(listeners)
        invariant listener.received == old(listener.received) + Replay(all[..n], afterSeq)
      {
        ReplayOneMore(all, n, afterSeq);
        if all[n].seqNo > afterSeq {
          listener.Deliver(all[n]);
        }
      }
      assert all[..|all|] == all;
      known := true;
      if !record.tombstone && record.terminal == None {
        listeners := listeners[executionId := Followers(executionId) + {listener}];
      }
    }

    /** An unknown execution converges to expired; nothing is executed again. */
    method AckExecution(executionId: string, finalSeq: nat, d: Disposition) returns (outcome: AckOutcome)
      requires Valid() && LogOkFor(executionId)
      modifies this`listeners, RecordSet(executionId)
      ensures Valid() && LogOkFor(executionId)
      ensures forall id | id in records && id != executionId :: records[id].View() == old(records[id].View())
      ensures executionId !in records ==> outcome == Expired
      ensures executionId in records ==>
                (records[executionId].View(), outcome) == Ack(old(records[executionId].View()), finalSeq, d)
      ensures listeners == if executionId in records && records[executionId].tombstone
                              && !old(executionId in records && records[executionId].tombstone)
                           then old(listeners) - {executionId} else old(listeners)
    {
      if executionId !in records {
        return Expired;
      }
      var record := records[executionId];
      AckAcceptedIff(sizes, record.View(), finalSeq, d);
      var before := record.tombstone;
      outcome := record.Acknowledge(finalSeq, d);
      if record.tombstone && !before {
        listeners := listeners - {executionId};
      }
    }

    ghost function RunningIds(): set<string>
      reads this, records.Values
    {
      set id | id in records && records[id].state == Running
    }

    method RunningCount() returns (count: nat)
      ensures count == |RunningIds()|
    {
      count := 0;
      var rest := records.Keys;
      ghost var counted: set<string> := {};
      while rest != {}
        invariant rest <= records.Keys
        invariant counted == set id | id in records && id !in rest && records[id].state == Running
        invariant count == |counted|
      {
        var id :| id in rest;
        rest := rest - {id};
        if records[id].state == Running {
          count := count + 1;
          counted := counted + {id};
        }
      }
      assert counted == RunningIds();
    }

    /** The scope's executions disappear with their followers; all others stay. */
    method ReleaseScope(scopeId: string)
      requires Valid()
      modifies this
      ensures Valid()
      ensures forall id :: id in records <==> id in old(records) && old(records)[id].scopeId != scopeId
      ensures forall id | id in records :: records[id] == old(records)[id] && Followers(id) == old(Followers(id))
      ensures forall id | id in old(records) && id !in records :: Followers(id) == {}
    {
      var all := records;
      var rest := records.Keys;
      while rest != {}
        invariant rest <= all.Keys
        invariant forall id :: id in records <==> id in all && (id in rest || all[id].scopeId != scopeId)
        invariant forall id | id in records :: records[id] == all[id]
        invariant forall id | id in records :: Followers(id) == old(Followers(id))
        invariant forall id | id in all && id !in records :: Followers(id) == {}
      {
        var id :| id in rest;
        if all[id].scopeId == scopeId {
          records := records - {id};
          listeners := listeners - {id};
        }
        rest := rest - {id};
      }
    }
  }

  lemma {:induction false} ReplayOneMore(all: seq<Event>, n: nat, afterSeq: nat)
    requires n < |all|
    ensures Replay(all[..n + 1], afterSeq) ==
            Replay(all[..n], afterSeq) + (if all[n].seqNo > afterSeq then [all[n]] else [])
  {
    assert all[..n + 1] == all[..n] + [all[n]];
    ReplayOfConcat(all[..n], [all[n]], afterSeq);
    assert [all[n]][1..] == [];
  }

  lemma {:induction false} ReplayOfConcat(a: seq<Event>, b: seq<Event>, afterSeq: nat)
    ensures Replay(a + b, afterSeq) == Replay(a, afterSeq) + Replay(b, afterSeq)
  {
    if a == [] {
      assert a + b == b;
    } else {
      assert (a + b)[1..] == a[1..] + b;
      ReplayOfConcat(a[1..], b, afterSeq);
    }
  }

  lemma {:induction false} OneMore(z: Sizes, all: seq<Event>, n: nat)
    requires n < |all|
    ensures Others(all[..n + 1]) == Others(all[..n]) + (if IsPreview(all[n]) then [] else [all[n]])
    ensures PreviewText(all[..n + 1]) == PreviewText(all[..n]) + (if IsPreview(all[n]) then all[n].body.text else [])
    ensures TotalBytes(z, all[..n + 1]) == TotalBytes(z, all[..n]) + EventBytes(z, all[n])
  {
    assert all[..n + 1] == all[..n] + [all[n]];
    PartsOfConcat(all[..n], [all[n]]);
    TotalOfConcat(z, all[..n], [all[n]]);
    assert [all[n]][1..] == [];
  }

  lemma {:induction false} KeepOne(z: Sizes, kept: seq<Event>, e: Event)
    ensures TotalBytes(z, kept + [e]) == TotalBytes(z, kept) + EventBytes(z, e)
  {
    TotalOfConcat(z, kept, [e]);
    assert [e][1..] == [];
  }

  /** The first preview met is the first there is, and nothing but other events precedes it. */
  lemma {:induction false} FirstPreviewIsHere(all: seq<Event>, n: nat)
    requires n < |all| && IsPreview(all[n]) && FirstPreview(all) >= n
    ensures FirstPreview(all) == n && |Others(all[..n])| == n
  {
    WithoutPreviews(all[..n]);
  }

  lemma {:induction false} SpliceIsCoalesce(z: Sizes, all: seq<Event>, kept: seq<Event>, snapshot: Event)
    requires FirstPreview(all) < |all| && kept == Others(all)
    requires snapshot == Event(all[FirstPreview(all)].seqNo, Preview(PreviewText(all)))
    ensures var i := FirstPreview(all);
            && i <= |kept|
            && kept[..i] + [snapshot] + kept[i..] == Coalesce(all)
            && TotalBytes(z, kept[..i] + [snapshot] + kept[i..]) == TotalBytes(z, kept) + EventBytes(z, snapshot)
  {
    var i := FirstPreview(all);
    var (before, after) := (all[..i], all[i + 1..]);
    assert all == before + [all[i]] + after;
    ContentOfThree(before, all[i], after);
    assert kept[..i] == before && kept[i..] == Others(after);
    TotalOfThree(z, before, snapshot, Others(after));
    TotalOfConcat(z, before, Others(after));
    assert kept == before + Others(after);
  }
}
