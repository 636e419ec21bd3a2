/**
 * The bounded event log of one execution, on values: stamping, buffering under a byte cap with
 * coalescing of previews, replay and acknowledgement.
 */
module ExecutionLog {
  import opened Options
  import opened Text16
  import opened Events
  import opened JsonString

  datatype Log = Log(
    state: ExecutionState,
    events: seq<Event>,
    lastSeq: nat,
    bufferedBytes: int,
    acknowledged: bool,
    disposition: Option<Disposition>,
    tombstone: bool,
    terminal: Option<Event>,
    emitted: seq<Event>,             // history: every event handed to the live listeners
    kept: seq<Event>)                // history: those that were not dropped

  const NEW_LOG := Log(Running, [], 0, 0, false, None, false, None, [], [])

  // ---------------------------------------------------------------------------------------------
  // Coalescing
  // ---------------------------------------------------------------------------------------------

  function Others(events: seq<Event>): seq<Event> {
    if events == [] then []
    else if IsPreview(events[0]) then Others(events[1..])
    else [events[0]] + Others(events[1..])
  }

  function Previews(events: seq<Event>): seq<Event> {
    if events == [] then []
    else if IsPreview(events[0]) then [events[0]] + Previews(events[1..])
    else Previews(events[1..])
  }

  /** The text a follower has seen: all previews, one after the other. */
  function PreviewText(events: seq<Event>): Text {
    if events == [] then []
    else (if IsPreview(events[0]) then events[0].body.text else []) + PreviewText(events[1..])
  }

  function FirstPreview(events: seq<Event>): (i: nat)
    ensures i <= |events|
    ensures forall k | 0 <= k < i :: !IsPreview(events[k])
    ensures i < |events| ==> IsPreview(events[i])
  {
    if events == [] || IsPreview(events[0]) then 0 else 1 + FirstPreview(events[1..])
  }

  /** One snapshot in the place of the first preview; everything else where it was. */
  function Coalesce(events: seq<Event>): seq<Event> {
    var i := FirstPreview(events);
    if i == |events| then events
    else events[..i] + [Event(events[i].seqNo, Preview(PreviewText(events)))] + Others(events[i + 1..])
  }

  lemma {:induction false} OthersOfConcat(a: seq<Event>, b: seq<Event>)
    ensures Others(a + b) == Others(a) + Others(b)
  {
    if a == [] {
      assert a + b == b;
    } else {
      assert (a + b)[1..] == a[1..] + b;
      OthersOfConcat(a[1..], b);
    }
  }

  lemma {:induction false} PreviewsOfConcat(a: seq<Event>, b: seq<Event>)
    ensures Previews(a + b) == Previews(a) + Previews(b)
  {
    if a == [] {
      assert a + b == b;
    } else {
      assert (a + b)[1..] == a[1..] + b;
      PreviewsOfConcat(a[1..], b);
    }
  }

  lemma {:induction false} PreviewTextOfConcat(a: seq<Event>, b: seq<Event>)
    ensures PreviewText(a + b) == PreviewText(a) + PreviewText(b)
  {
    if a == [] {
      assert a + b == b;
    } else {
      assert (a + b)[1..] == a[1..] + b;
      PreviewTextOfConcat(a[1..], b);
    }
  }

  /** Sorting out previews distributes over concatenation. */
  lemma {:induction false} PartsOfConcat(a: seq<Event>, b: seq<Event>)
    ensures Others(a + b) == Others(a) + Others(b)
    ensures Previews(a + b) == Previews(a) + Previews(b)
    ensures PreviewText(a + b) == PreviewText(a) + PreviewText(b)
  {
    OthersOfConcat(a, b);
    PreviewsOfConcat(a, b);
    PreviewTextOfConcat(a, b);
  }

  ghost predicate NoPreviews(events: seq<Event>) {
    forall k | 0 <= k < |events| :: !IsPreview(events[k])
  }

  lemma {:induction false} WithoutPreviews(events: seq<Event>)
    requires NoPreviews(events)
    ensures Others(events) == events && Previews(events) == [] && PreviewText(events) == []
  {
    if events != [] { WithoutPreviews(events[1..]); }
  }

  /** Which events `Others` keeps, and that it keeps them in order. */
  lemma {:induction false} OthersMembers(events: seq<Event>)
    ensures forall e | e in Others(events) :: e in events && !IsPreview(e)
    ensures NoPreviews(Others(events))
    ensures Increasing(events) ==> Increasing(Others(events))
  {
    if events != [] { OthersMembers(events[1..]); }
  }

  function Merged(events: seq<Event>, first: Event): Event {
    Event(first.seqNo, Preview(PreviewText(events)))
  }

  /** The shape of a buffer with a preview, and of what coalescing makes of it. */
  lemma {:induction false} CoalesceParts(
    events: seq<Event>) returns (before: seq<Event>, first: Event, after: seq<Event>)
    requires FirstPreview(events) < |events|
    ensures events == before + [first] + after
    ensures NoPreviews(before) && IsPreview(first)
    ensures Coalesce(events) == before + [Merged(events, first)] + Others(after)
    ensures PreviewText(events) == first.body.text + PreviewText(after)
    ensures Others(events) == before + Others(after)
  {
    var i := FirstPreview(events);
    before, first, after := events[..i], events[i], events[i + 1..];
    assert events == before + [first] + after;
    ContentOfThree(before, first, after);
  }

  lemma {:induction false} ContentOfThree(a: seq<Event>, m: Event, b: seq<Event>)
    requires NoPreviews(a) && IsPreview(m)
    ensures Others(a + [m] + b) == a + Others(b)
    ensures Previews(a + [m] + b) == [m] + Previews(b)
    ensures PreviewText(a + [m] + b) == m.body.text + PreviewText(b)
  {
    WithoutPreviews(a);
    PartsOfConcat(a + [m], b);
    PartsOfConcat(a, [m]);
    OnePreview(m);
    assert a + [] == a && [] + [m] == [m] && [] + m.body.text == m.body.text;
  }

  lemma {:induction false} OnePreview(m: Event)
    requires IsPreview(m)
    ensures Others([m]) == [] && Previews([m]) == [m] && PreviewText([m]) == m.body.text
  {
    assert [m][1..] == [];
  }

  /** Coalescing changes neither the text seen nor the other events. */
  lemma {:induction false} CoalesceKeepsContent(events: seq<Event>)
    ensures PreviewText(Coalesce(events)) == PreviewText(events)
    ensures Others(Coalesce(events)) == Others(events)
  {
    if FirstPreview(events) < |events| {
      var before, first, after := CoalesceParts(events);
      OthersMembers(after);
      WithoutPreviews(Others(after));
      ContentOfThree(before, Merged(events, first), Others(after));
    }
  }

  // ---------------------------------------------------------------------------------------------
  // Order
  // ---------------------------------------------------------------------------------------------

  ghost predicate Increasing(events: seq<Event>) {
    forall i, j | 0 <= i < j < |events| :: events[i].seqNo < events[j].seqNo
  }

  ghost predicate SeqsWithin(events: seq<Event>, low: int, high: int) {
    forall e | e in events :: low <= e.seqNo <= high
  }

  lemma {:induction false} ConcatIncreases(a: seq<Event>, b: seq<Event>, pivot: nat)
    requires Increasing(a) && Increasing(b)
    requires (forall e | e in a :: e.seqNo <= pivot) && forall e | e in b :: e.seqNo > pivot
    ensures Increasing(a + b)
  {
    forall i, j | 0 <= i < j < |a + b|
      ensures (a + b)[i].seqNo < (a + b)[j].seqNo
    {
      if i < |a| <= j { assert a[i] in a && b[j - |a|] in b; }
    }
  }

  lemma {:induction false} IncreasingParts(a: seq<Event>, m: Event, b: seq<Event>)
    requires Increasing(a + [m] + b)
    ensures Increasing(a) && Increasing(b)
    ensures (forall e | e in a :: e.seqNo < m.seqNo) && forall e | e in b :: e.seqNo > m.seqNo
  {
    var all := a + [m] + b;
    assert forall i | 0 <= i < |a| :: all[i] == a[i];
    assert all[|a|] == m;
    assert forall i | 0 <= i < |b| :: all[|a| + 1 + i] == b[i];
  }

  lemma {:induction false} IncreasingWhole(a: seq<Event>, m: Event, b: seq<Event>)
    requires Increasing(a) && Increasing(b)
    requires (forall e | e in a :: e.seqNo < m.seqNo) && forall e | e in b :: e.seqNo > m.seqNo
    ensures Increasing(a + [m] + b)
  {
    var upTo := a + [m];
    assert forall i | 0 <= i < |a| :: upTo[i] == a[i] && a[i] in a;
    assert Increasing(upTo);
    assert forall e | e in upTo :: e in a || e == m;
    ConcatIncreases(upTo, b, m.seqNo);
  }

  /** The storage order stays the order of the sequence numbers, so the source's check never throws. */
  lemma {:induction false} CoalesceKeepsOrder(events: seq<Event>)
    requires Increasing(events)
    ensures Increasing(Coalesce(events))
  {
    if FirstPreview(events) < |events| {
      var before, first, after := CoalesceParts(events);
      IncreasingParts(before, first, after);
      OthersMembers(after);
      IncreasingWhole(before, Merged(events, first), Others(after));
    }
  }

  lemma {:induction false} CoalesceKeepsRange(events: seq<Event>, low: int, high: int)
    requires SeqsWithin(events, low, high)
    ensures SeqsWithin(Coalesce(events), low, high)
  {
    if FirstPreview(events) < |events| {
      var before, first, after := CoalesceParts(events);
      OthersMembers(after);
      assert first in events;
      assert forall e | e in Coalesce(events) :: e in before || e == Merged(events, first) || e in Others(after);
    }
  }

  // ---------------------------------------------------------------------------------------------
  // Size
  // ---------------------------------------------------------------------------------------------

  /** At most one preview, and that one already a snapshot. */
  ghost predicate SoleSnapshot(events: seq<Event>) {
    |Previews(events)| == 1 && Previews(events)[0].body.Preview?
  }

  const TAG_GROWTH := PREVIEW_TAG - DELTA_TAG

  /**
   * The buffered events fit the cap, or exceed it by the three bytes that `output.snapshot` is longer
   * than `output.delta`, and then a single snapshot is all the preview there is.
   */
  ghost predicate WithinCap(z: Sizes, events: seq<Event>) {
    var total := TotalBytes(z, events);
    total <= BUFFER_CAP || (total <= BUFFER_CAP + TAG_GROWTH && SoleSnapshot(events))
  }

  /** What the merged previews weigh, against what they weighed apart. */
  ghost predicate MergeSaves(z: Sizes, events: seq<Event>, text: Text) {
    TotalBytes(z, Others(events)) + TextBytes(Quote(text + PreviewText(events))) +
    (if Previews(events) == [] then 0 else DELTA_TAG) <=
    TotalBytes(z, events) + TextBytes(Quote(text))
  }

  lemma {:induction false} MergingSaves(z: Sizes, events: seq<Event>, text: Text)
    ensures MergeSaves(z, events, text)
  {
    if events == [] {
      assert text + [] == text;
    } else if IsPreview(events[0]) {
      MergingSaves(z, events[1..], text + events[0].body.text);
      PreviewSaves(z, events, text);
    } else {
      MergingSaves(z, events[1..], text);
      OtherSaves(z, events, text);
    }
  }

  lemma {:induction false} PreviewSaves(z: Sizes, events: seq<Event>, text: Text)
    requires events != [] && IsPreview(events[0])
    requires MergeSaves(z, events[1..], text + events[0].body.text)
    ensures MergeSaves(z, events, text)
  {
    var (e, rest) := (events[0], events[1..]);
    PreviewWeighs(z, e, text);
    PreviewUnfolds(z, events, text);
  }

  lemma PreviewUnfolds(z: Sizes, events: seq<Event>, text: Text)
    requires events != [] && IsPreview(events[0])
    ensures text + PreviewText(events) == (text + events[0].body.text) + PreviewText(events[1..])
    ensures Others(events) == Others(events[1..]) && Previews(events) != []
    ensures TotalBytes(z, events) == EventBytes(z, events[0]) + TotalBytes(z, events[1..])
  {
  }

  lemma {:induction false} OtherSaves(z: Sizes, events: seq<Event>, text: Text)
    requires events != [] && !IsPreview(events[0]) && MergeSaves(z, events[1..], text)
    ensures MergeSaves(z, events, text)
  {
    var (e, rest) := (events[0], events[1..]);
    assert PreviewText(events) == PreviewText(rest);
    assert Others(events) == [e] + Others(rest) && ([e] + Others(rest))[1..] == Others(rest);
    assert Previews(events) == Previews(rest);
  }

  lemma {:induction false} PreviewWeighs(z: Sizes, e: Event, text: Text)
    requires IsPreview(e)
    ensures TextBytes(Quote(text + e.body.text)) + DELTA_TAG <= TextBytes(Quote(text)) + EventBytes(z, e)
  {
    MergingDoesNotGrow(text, e.body.text);
  }

  lemma {:induction false} TotalOfThree(z: Sizes, a: seq<Event>, e: Event, b: seq<Event>)
    ensures TotalBytes(z, a + [e] + b) == TotalBytes(z, a) + EventBytes(z, e) + TotalBytes(z, b)
  {
    TotalOfConcat(z, a + [e], b);
    TotalOfConcat(z, a, [e]);
    assert [e][1..] == [];
  }

  /** Coalescing can make the buffer heavier only when its sole preview is a delta, and then by three bytes. */
  lemma {:induction false} CoalesceWeight(z: Sizes, events: seq<Event>)
    ensures var total := TotalBytes(z, Coalesce(events));
            && total <= TotalBytes(z, events) + TAG_GROWTH
            && (Previews(events) == [] || SoleSnapshot(events) ==> total <= TotalBytes(z, events))
            && (Previews(events) != [] ==> SoleSnapshot(Coalesce(events)))
            && (Previews(events) == [] ==> Coalesce(events) == events)
  {
    if FirstPreview(events) < |events| {
      var before, first, after := CoalesceParts(events);
      var merged := Merged(events, first);
      TotalOfThree(z, before, first, after);
      TotalOfThree(z, before, merged, Others(after));
      MergingSaves(z, after, first.body.text);
      ContentOfThree(before, first, after);
      OthersMembers(after);
      WithoutPreviews(Others(after));
      ContentOfThree(before, merged, Others(after));
    } else {
      WithoutPreviews(events);
    }
  }

  /** Coalescing keeps the buffer within the cap. */
  lemma {:induction false} CoalesceKeepsCap(z: Sizes, events: seq<Event>)
    requires WithinCap(z, events)
    ensures WithinCap(z, Coalesce(events))
  {
    CoalesceWeight(z, events);
  }

  // ---------------------------------------------------------------------------------------------
  // Emitting
  // ---------------------------------------------------------------------------------------------

  function StateOf(e: Event): ExecutionState {
    match e.body
    case Completed(_, _) => Done
    case Failed(_) => Broken
    case Interrupted => Stopped
    case _ => Running
  }

  /** Appends the event; under pressure a nonterminal one first triggers coalescing, and may be dropped. */
  function BufferEvent(z: Sizes, log: Log, e: Event): Log {
    var size := EventBytes(z, e);
    var crowded := !IsTerminal(e) && log.bufferedBytes + size > BUFFER_CAP;
    var events := if crowded then Coalesce(log.events) else log.events;
    var bytes := if crowded then TotalBytes(z, events) else log.bufferedBytes;
    if crowded && bytes + size > BUFFER_CAP then log.(events := events, bufferedBytes := bytes, lastSeq := e.seqNo)
    else log.(events := events + [e], bufferedBytes := bytes + size, lastSeq := e.seqNo, kept := log.kept + [e])
  }

  function Stamp(lastSeq: nat, proto: Proto): Event {
    var seqNo := lastSeq + 1;
    match proto
    case Malformed => Event(seqNo, Failed(ProtocolViolation))
    case WellFormed(Completed(output, _)) => Event(seqNo, Completed(output, seqNo))
    case WellFormed(body) => Event(seqNo, body)
  }

  predicate Accepts(log: Log) {
    !log.tombstone && log.terminal == None
  }

  function Emit(z: Sizes, log: Log, proto: Proto): Log {
    if !Accepts(log) then log
    else
      var e := Stamp(log.lastSeq, proto);
      var stamped := if IsTerminal(e) then log.(state := StateOf(e), terminal := Some(e)) else log;
      BufferEvent(z, stamped.(emitted := log.emitted + [e]), e)
  }

  function EmitAll(z: Sizes, log: Log, protos: seq<Proto>): Log
    decreases |protos|
  {
    if protos == [] then log else EmitAll(z, Emit(z, log, protos[0]), protos[1..])
  }

  // ---------------------------------------------------------------------------------------------
  // What every emission keeps
  // ---------------------------------------------------------------------------------------------

  /** The stamps are 1, 2, 3, ... without a gap, and only the last event can be a terminal. */
  ghost predicate Stamped(log: Log) {
    && log.lastSeq == |log.emitted|
    && (forall i | 0 <= i < |log.emitted| :: log.emitted[i].seqNo == i + 1)
    && (forall i | 0 <= i < |log.emitted| - 1 :: !IsTerminal(log.emitted[i]))
    && (log.terminal == None ==> log.state == Running && forall e | e in log.emitted :: !IsTerminal(e))
    && (log.terminal.Some? ==>
          && log.emitted != [] && log.terminal.value == log.emitted[|log.emitted| - 1]
          && IsTerminal(log.terminal.value) && log.state == StateOf(log.terminal.value))
  }

  /** The buffer refines the log of what was kept. */
  ghost predicate Refines(z: Sizes, log: Log) {
    && log.bufferedBytes == TotalBytes(z, log.events)
    && (log.terminal == None ==> Holds(z, log.events, log.kept, log.lastSeq))
    && (log.terminal.Some? ==>
          && Increasing(log.events) && SeqsWithin(log.events, 1, log.lastSeq)
          && PreviewText(log.events) == PreviewText(log.kept) && Others(log.events) == Others(log.kept)
          && log.events != [] && log.events[|log.events| - 1] == log.terminal.value
          && WithinCap(z, log.events[..|log.events| - 1]))
  }

  ghost predicate LogOk(z: Sizes, log: Log) {
    && Stamped(log)
    && (!log.tombstone ==> Refines(z, log))
    && (log.tombstone ==> log.terminal.Some? && log.disposition.Some? && log.events == [] && log.bufferedBytes == 0)
    && log.acknowledged == log.tombstone == log.disposition.Some?
  }

  lemma {:induction false} AppendKeepsOrder(events: seq<Event>, e: Event)
    requires Increasing(events) && SeqsWithin(events, 1, e.seqNo - 1) && e.seqNo >= 1
    ensures Increasing(events + [e]) && SeqsWithin(events + [e], 1, e.seqNo)
  {
    ConcatIncreases(events, [e], e.seqNo - 1);
  }

  lemma {:induction false} CoalesceKeepsNonterminal(events: seq<Event>)
    requires forall e | e in events :: !IsTerminal(e)
    ensures forall e | e in Coalesce(events) :: !IsTerminal(e)
  {
    if FirstPreview(events) < |events| {
      var before, first, after := CoalesceParts(events);
      OthersMembers(after);
    }
  }

  /** A buffer that holds the same content as `kept`, in order, under the cap. */
  ghost predicate Holds(z: Sizes, events: seq<Event>, kept: seq<Event>, high: int) {
    && Increasing(events) && SeqsWithin(events, 1, high)
    && PreviewText(events) == PreviewText(kept)
    && Others(events) == Others(kept)
    && WithinCap(z, events)
    && forall e | e in events :: !IsTerminal(e)
  }

  lemma {:induction false} CoalesceHolds(z: Sizes, events: seq<Event>, kept: seq<Event>, high: nat)
    requires Holds(z, events, kept, high)
    ensures Holds(z, Coalesce(events), kept, high)
  {
    CoalesceKeepsContent(events);
    CoalesceKeepsOrder(events);
    CoalesceKeepsRange(events, 1, high);
    CoalesceKeepsCap(z, events);
    CoalesceKeepsNonterminal(events);
  }

  lemma {:induction false} AppendHolds(z: Sizes, events: seq<Event>, kept: seq<Event>, e: Event)
    requires e.seqNo >= 1 && Holds(z, events, kept, e.seqNo - 1)
    ensures Increasing(events + [e]) && SeqsWithin(events + [e], 1, e.seqNo)
    ensures PreviewText(events + [e]) == PreviewText(kept + [e]) && Others(events + [e]) == Others(kept + [e])
    ensures TotalBytes(z, events + [e]) == TotalBytes(z, events) + EventBytes(z, e)
  {
    AppendKeepsOrder(events, e);
    PartsOfConcat(events, [e]);
    PartsOfConcat(kept, [e]);
    TotalOfConcat(z, events, [e]);
    assert [e][1..] == [];
  }

  lemma {:induction false} BufferRefines(z: Sizes, log: Log, e: Event)
    requires log.terminal == None && Refines(z, log) && e.seqNo == log.lastSeq + 1 && !IsTerminal(e)
    ensures Refines(z, BufferEvent(z, log, e))
  {
    var size := EventBytes(z, e);
    if log.bufferedBytes + size <= BUFFER_CAP {
      AppendNonterminalHolds(z, log.events, log.kept, e);
    } else {
      CoalesceHolds(z, log.events, log.kept, log.lastSeq);
      if TotalBytes(z, Coalesce(log.events)) + size <= BUFFER_CAP {
        AppendNonterminalHolds(z, Coalesce(log.events), log.kept, e);
      }
    }
  }

  lemma {:induction false} AppendNonterminalHolds(z: Sizes, events: seq<Event>, kept: seq<Event>, e: Event)
    requires e.seqNo >= 1 && Holds(z, events, kept, e.seqNo - 1) && !IsTerminal(e)
    requires TotalBytes(z, events) + EventBytes(z, e) <= BUFFER_CAP
    ensures Holds(z, events + [e], kept + [e], e.seqNo)
    ensures TotalBytes(z, events + [e]) == TotalBytes(z, events) + EventBytes(z, e)
  {
    AppendHolds(z, events, kept, e);
  }

  lemma {:induction false} TerminalRefines(z: Sizes, log: Log, e: Event)
    requires log.terminal == None && Refines(z, log) && e.seqNo == log.lastSeq + 1 && IsTerminal(e)
    ensures Refines(z, BufferEvent(z, log.(terminal := Some(e)), e))
  {
    AppendHolds(z, log.events, log.kept, e);
    assert (log.events + [e])[..|log.events|] == log.events;
  }

  lemma StampKeepsStamped(log: Log, proto: Proto)
    requires Stamped(log) && log.terminal == None
    ensures var e := Stamp(log.lastSeq, proto);
            var stamped := if IsTerminal(e) then log.(state := StateOf(e), terminal := Some(e)) else log;
            Stamped(stamped.(emitted := log.emitted + [e], lastSeq := e.seqNo))
  {
  }

  lemma {:induction false} EmitKeepsLogOk(z: Sizes, log: Log, proto: Proto)
    requires LogOk(z, log)
    ensures LogOk(z, Emit(z, log, proto))
    ensures log.terminal.Some? ==> Emit(z, log, proto) == log
  {
    hide Holds, Increasing, SeqsWithin, PreviewText, Others, TotalBytes, WithinCap;
    if Accepts(log) {
      var e := Stamp(log.lastSeq, proto);
      StampKeepsStamped(log, proto);
      if IsTerminal(e) {
        TerminalRefines(z, log.(state := StateOf(e), emitted := log.emitted + [e]), e);
      } else {
        BufferRefines(z, log.(emitted := log.emitted + [e]), e);
      }
    }
  }

  /** For every sequence of emissions the buffer refines the full log and stays within the cap. */
  lemma {:induction false} EveryLogIsOk(z: Sizes, log: Log, protos: seq<Proto>)
    requires LogOk(z, log)
    ensures LogOk(z, EmitAll(z, log, protos))
    ensures log.terminal.Some? ==> EmitAll(z, log, protos) == log
    decreases |protos|
  {
    if protos != [] {
      EmitKeepsLogOk(z, log, protos[0]);
      EveryLogIsOk(z, Emit(z, log, protos[0]), protos[1..]);
    }
  }

  /** What the invariant says in the terms of a status poll. */
  lemma {:induction false} LastSeqIsTerminalSeq(z: Sizes, protos: seq<Proto>)
    ensures var log := EmitAll(z, NEW_LOG, protos);
            && log.lastSeq == |log.emitted|
            && (forall i | 0 <= i < |log.emitted| :: log.emitted[i].seqNo == i + 1)
            && (forall i | 0 <= i < |log.emitted| ::
                  IsTerminal(log.emitted[i]) <==> log.terminal == Some(log.emitted[i]))
            && (log.terminal.Some? ==> log.lastSeq == log.terminal.value.seqNo)
            && PreviewText(log.events) == PreviewText(log.kept)
            && Others(log.events) == Others(log.kept)
            && log.bufferedBytes == TotalBytes(z, log.events)
            && (log.terminal == None ==> log.bufferedBytes <= 33_554_432 + 3)
  {
    EveryLogIsOk(z, NEW_LOG, protos);
    var log := EmitAll(z, NEW_LOG, protos);
    NeverAcknowledged(z, NEW_LOG, protos);
    forall i | 0 <= i < |log.emitted|
      ensures IsTerminal(log.emitted[i]) <==> log.terminal == Some(log.emitted[i])
    {
      assert log.emitted[i] in log.emitted;
    }
  }

  lemma {:induction false} NeverAcknowledged(z: Sizes, log: Log, protos: seq<Proto>)
    ensures EmitAll(z, log, protos).tombstone == log.tombstone
    decreases |protos|
  {
    if protos != [] { NeverAcknowledged(z, Emit(z, log, protos[0]), protos[1..]); }
  }

  // ---------------------------------------------------------------------------------------------
  // Acknowledging
  // ---------------------------------------------------------------------------------------------

  datatype AckOutcome = Acknowledged(disposition: Disposition) | Expired | Conflict(recorded: Option<Disposition>)

  function Ack(log: Log, finalSeq: nat, d: Disposition): (Log, AckOutcome) {
    if log.tombstone || log.acknowledged then
      (log, if log.disposition == Some(d) then Acknowledged(d) else Conflict(log.disposition))
    else if log.terminal == None || log.terminal.value.seqNo != finalSeq then (log, Conflict(None))
    else
      (log.(acknowledged := true, disposition := Some(d), events := [], bufferedBytes := 0, tombstone := true),
       Acknowledged(d))
  }

  /** What may happen to an execution until its scope is released. */
  datatype Op = EmitOp(proto: Proto) | AckOp(finalSeq: nat, disposition: Disposition)

  function RunOps(z: Sizes, log: Log, ops: seq<Op>): Log
    decreases |ops|
  {
    if ops == [] then log
    else match ops[0]
      case EmitOp(proto) => RunOps(z, Emit(z, log, proto), ops[1..])
      case AckOp(finalSeq, d) => RunOps(z, Ack(log, finalSeq, d).0, ops[1..])
  }

  /**
   * Until release an execution keeps its one terminal, and `lastSeq` stays that terminal's number; an
   * acknowledgement, once accepted, fixes the disposition for good.
   */
  lemma {:induction false} TerminalAndAckAreFinal(z: Sizes, log: Log, ops: seq<Op>)
    requires LogOk(z, log)
    ensures var after := RunOps(z, log, ops);
            && LogOk(z, after)
            && (log.terminal.Some? ==>
                  && after.terminal == log.terminal && after.lastSeq == log.lastSeq == log.terminal.value.seqNo
                  && after.state == log.state)
            && (log.tombstone ==> after == log)
    decreases |ops|
  {
    if ops != [] {
      match ops[0]
      case EmitOp(proto) =>
        EmitKeepsLogOk(z, log, proto);
        TerminalAndAckAreFinal(z, Emit(z, log, proto), ops[1..]);
      case AckOp(finalSeq, d) =>
        TerminalAndAckAreFinal(z, Ack(log, finalSeq, d).0, ops[1..]);
    }
  }

  /** What a poll reads: the state names the kind of the terminal, and running is the want of one. */
  ghost predicate StateTellsTerminal(log: Log) {
    && (log.state == Running <==> log.terminal == None)
    && (log.state == Done <==> log.terminal.Some? && log.terminal.value.body.Completed?)
    && (log.state == Broken <==> log.terminal.Some? && log.terminal.value.body.Failed?)
    && (log.state == Stopped <==> log.terminal.Some? && log.terminal.value.body.Interrupted?)
  }

  /** In every reachable log the state is right, and a completion names its own number as the final one. */
  lemma {:induction false} EveryStateIsRight(z: Sizes, ops: seq<Op>)
    ensures var log := RunOps(z, NEW_LOG, ops);
            && StateTellsTerminal(log)
            && (log.state == Done ==> log.terminal.value.body.finalSeq == log.lastSeq == log.terminal.value.seqNo)
  {
    TerminalAndAckAreFinal(z, NEW_LOG, ops);
    RunKeepsFinalSeq(z, NEW_LOG, ops);
  }

  predicate NamesFinalSeq(log: Log) {
    log.terminal.Some? && log.terminal.value.body.Completed? ==>
      log.terminal.value.body.finalSeq == log.terminal.value.seqNo
  }

  lemma {:induction false} RunKeepsFinalSeq(z: Sizes, log: Log, ops: seq<Op>)
    requires NamesFinalSeq(log)
    ensures NamesFinalSeq(RunOps(z, log, ops))
    decreases |ops|
  {
    hide Coalesce, TotalBytes, EventBytes;
    if ops != [] {
      RunKeepsFinalSeq(z, match ops[0] case EmitOp(proto) => Emit(z, log, proto)
                                       case AckOp(finalSeq, d) => Ack(log, finalSeq, d).0, ops[1..]);
    }
  }

  /**
   * What one emission does. What the schema rejects ends the execution as a protocol violation, anything
   * else goes to the followers as it is, with the next number. It is kept unless it is no terminal and does
   * not fit even after coalescing.
   */
  lemma {:induction false} EmitDelivers(z: Sizes, log: Log, proto: Proto)
    requires LogOk(z, log) && Accepts(log)
    ensures var after := Emit(z, log, proto);
            && after.lastSeq == log.lastSeq + 1 && |after.emitted| == |log.emitted| + 1
            && log.emitted <= after.emitted
            && var e := after.emitted[|log.emitted|];
            && e.seqNo == after.lastSeq
            && (proto.Malformed? ==>
                  e.body == Failed(ProtocolViolation) && after.state == Broken && after.terminal == Some(e))
            && (proto.WellFormed? && proto.body.Completed? ==>
                  e.body == Completed(proto.body.output, e.seqNo) && after.state == Done && after.terminal == Some(e))
            && (proto.WellFormed? && !proto.body.Completed? ==> e.body == proto.body)
            && (proto.WellFormed? && (proto.body.Failed? || proto.body.Interrupted?) ==> after.terminal == Some(e))
            && (proto.WellFormed? && !IsTerminal(e) ==> after.state == Running && after.terminal == None)
            && after.kept == (if !IsTerminal(e) && TotalBytes(z, log.events) + EventBytes(z, e) > BUFFER_CAP
                                 && TotalBytes(z, Coalesce(log.events)) + EventBytes(z, e) > BUFFER_CAP
                              then log.kept else log.kept + [e])
  {
    hide Holds, Increasing, SeqsWithin, PreviewText, Others, TotalBytes, WithinCap, Coalesce, EventBytes;
    EmitKeepsLogOk(z, log, proto);
  }

  /** An acknowledgement is accepted exactly if it matches the terminal, or repeats the accepted one. */
  lemma AckAcceptedIff(z: Sizes, log: Log, finalSeq: nat, d: Disposition)
    requires LogOk(z, log)
    ensures Ack(log, finalSeq, d).1 == Acknowledged(d) <==>
            (if log.tombstone then log.disposition == Some(d)
             else log.terminal.Some? && log.lastSeq == finalSeq)
    ensures var (after, outcome) := Ack(log, finalSeq, d);
            && LogOk(z, after)
            && (if log.tombstone || outcome != Acknowledged(d) then after == log
                else
                  && after.disposition == Some(d) && after.acknowledged && after.tombstone
                  && after.events == [] && after.bufferedBytes == 0
                  && after.terminal == log.terminal && after.lastSeq == log.lastSeq && after.state == log.state
                  && after.emitted == log.emitted && after.kept == log.kept)
            && (outcome != Acknowledged(d) ==> outcome == Conflict(log.disposition))
  {
  }

  lemma {:induction false} RepeatedAcksAgree(
    z: Sizes, log: Log, finalSeq: nat, d: Disposition, ops: seq<Op>, finalSeq': nat, d': Disposition)
    requires LogOk(z, log) && Ack(log, finalSeq, d).1 == Acknowledged(d)
    ensures Ack(RunOps(z, Ack(log, finalSeq, d).0, ops), finalSeq', d').1 ==
            if d' == d then Acknowledged(d) else Conflict(Some(d))
  {
    TerminalAndAckAreFinal(z, Ack(log, finalSeq, d).0, ops);
  }

  // ---------------------------------------------------------------------------------------------
  // Following
  // ---------------------------------------------------------------------------------------------

  function Replay(events: seq<Event>, afterSeq: nat): seq<Event> {
    if events == [] then []
    else (if events[0].seqNo > afterSeq then [events[0]] else []) + Replay(events[1..], afterSeq)
  }

  lemma {:induction false} ReplayMembers(events: seq<Event>, afterSeq: nat)
    ensures forall e :: e in Replay(events, afterSeq) <==> e in events && e.seqNo > afterSeq
  {
    if events != [] {
      ReplayMembers(events[1..], afterSeq);
      assert events == [events[0]] + events[1..];
    }
  }

  lemma {:induction false} ReplayIncreases(events: seq<Event>, afterSeq: nat)
    requires Increasing(events)
    ensures Increasing(Replay(events, afterSeq))
  {
    if events != [] {
      ReplayIncreases(events[1..], afterSeq);
      ReplayMembers(events[1..], afterSeq);
    }
  }

  lemma {:induction false} ReplayEnds(events: seq<Event>, afterSeq: nat)
    requires events != [] && events[|events| - 1].seqNo > afterSeq
    ensures var r := Replay(events, afterSeq); r != [] && r[|r| - 1] == events[|events| - 1]
  {
    if |events| > 1 { ReplayEnds(events[1..], afterSeq); }
  }

  /** What a follower receives that subscribes at `log` after `afterSeq` while `protos` are still to come. */
  function Received(z: Sizes, log: Log, afterSeq: nat, protos: seq<Proto>): seq<Event> {
    var live := EmitAll(z, log, protos).emitted;
    Replay(log.events, afterSeq) + (if |log.emitted| <= |live| then live[|log.emitted|..] else [])
  }

  lemma {:induction false} EmittedGrows(z: Sizes, log: Log, protos: seq<Proto>)
    ensures log.emitted <= EmitAll(z, log, protos).emitted
    decreases |protos|
  {
    if protos != [] { EmittedGrows(z, Emit(z, log, protos[0]), protos[1..]); }
  }

  /**
   * Every follower receives strictly increasing numbers, and any terminal that is not acknowledged when
   * it subscribes, present or future, reaches every cursor below it, as the last event.
   */
  lemma {:induction false} FollowersGetTheTerminalLast(z: Sizes, log: Log, afterSeq: nat, protos: seq<Proto>)
    requires LogOk(z, log) && !log.tombstone
    ensures Increasing(Received(z, log, afterSeq, protos))
    ensures var t := EmitAll(z, log, protos).terminal;
            t.Some? && afterSeq < t.value.seqNo ==>
              var r := Received(z, log, afterSeq, protos); r != [] && r[|r| - 1] == t.value
  {
    EveryLogIsOk(z, log, protos);
    EmittedGrows(z, log, protos);
    ReplayMembers(log.events, afterSeq);
    ReplayIncreases(log.events, afterSeq);
    var after := EmitAll(z, log, protos);
    var live := after.emitted[|log.emitted|..];
    LiveFollows(log, after);
    ConcatIncreases(Replay(log.events, afterSeq), live, log.lastSeq);
    if log.terminal.Some? {
      if afterSeq < log.terminal.value.seqNo { ReplayEnds(log.events, afterSeq); }
      assert Received(z, log, afterSeq, protos) == Replay(log.events, afterSeq);
    }
  }

  lemma {:induction false} LiveFollows(log: Log, after: Log)
    requires Stamped(log) && Stamped(after) && log.emitted <= after.emitted
    ensures var live := after.emitted[|log.emitted|..];
            && Increasing(live) && (forall e | e in live :: e.seqNo > log.lastSeq)
            && (log.terminal == None && after.terminal.Some? ==> live != [] && live[|live| - 1] == after.terminal.value)
  {
    var live := after.emitted[|log.emitted|..];
    assert forall i | 0 <= i < |live| :: live[i] == after.emitted[log.lastSeq + i];
    assert live == [] ==> after.emitted == log.emitted;
    if after.terminal.Some? { assert after.terminal.value in after.emitted; }
  }
}
