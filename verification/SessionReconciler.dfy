/**
 * The session reconciler: a seat's command-line session is reused only while its context snapshots
 * grow strictly by appending. SHA-256 is taken as injective, so an item's digest is its canonical text.
 */
module SessionReconciler {
  import opened Options
  import opened Text16
  import opened SnapshotRender
  import Digest

  const SESSION_MAX_EXECUTIONS := 32
  const CONTEXT_WINDOW_THRESHOLD_RATIO := 0.5
  const DEFAULT_CONTEXT_WINDOW_TOKENS := 65536.0

  // ---------------------------------------------------------------------------------------------
  // Item digests
  // ---------------------------------------------------------------------------------------------

  function RoleName(r: Role): Text {
    match r
    case User => Ascii("user")
    case Summary => Ascii("summary")
    case Participant => Ascii("participant")
  }

  function OptionalField(t: Option<Text>): Digest.Value {
    match t case None => Digest.Undefined case Some(x) => Digest.Str(x)
  }

  function ItemFields(item: Item): seq<Digest.Entry> {
    [ Digest.Entry(Ascii("id"), Digest.Str(item.id)),
      Digest.Entry(Ascii("role"), Digest.Str(RoleName(item.role))),
      Digest.Entry(Ascii("participantId"), OptionalField(item.participantId)),
      Digest.Entry(Ascii("content"), Digest.Str(item.content)),
      Digest.Entry(Ascii("sourceExecutionId"), OptionalField(item.sourceExecutionId)) ]
  }

  const NO_NUMBERS := Digest.Numerals(_ => false, _ => [])

  function HashItem(item: Item): Text {
    match Digest.CanonicalJson(NO_NUMBERS, Digest.Obj(ItemFields(item)))
    case Ok(t) => t
    case Err(_) => []
  }

  /** An item's digest identifies the item: no two items share one. */
  lemma {:induction false} HashItemIdentifies(a: Item, b: Item)
    ensures HashItem(a) == HashItem(b) <==> a == b
  {
    var (v, w) := (Digest.Obj(ItemFields(a)), Digest.Obj(ItemFields(b)));
    ItemIsSerializable(a);
    ItemIsSerializable(b);
    Digest.CanonicalTextIsIdentity(NO_NUMBERS, v, w);
    if Digest.Same(v, w) {
      SameFieldsSameItem(a, b);
    }
  }

  lemma {:induction false} ItemIsSerializable(item: Item)
    ensures Digest.WellFormed(Digest.Obj(ItemFields(item)))
    ensures Digest.CanonicalJson(NO_NUMBERS, Digest.Obj(ItemFields(item))).Ok?
  {
    KeysDiffer(item);
    FieldsFit(item);
    Digest.AcceptsExactlyWhatFits(NO_NUMBERS, Digest.Obj(ItemFields(item)), 0);
  }

  lemma {:induction false} FieldsFit(item: Item)
    ensures forall i | 0 <= i < 5 :: Digest.WellFormed(ItemFields(item)[i].value)
    ensures forall i | 0 <= i < 5 && ItemFields(item)[i].value != Digest.Undefined ::
              Digest.Fits(NO_NUMBERS, ItemFields(item)[i].value, Digest.MAX_DEPTH - 1)
  {
    forall i | 0 <= i < 5
      ensures ItemFields(item)[i].value.Str? || ItemFields(item)[i].value.Undefined?
    {
    }
  }

  lemma {:induction false} KeysDiffer(item: Item)
    ensures Digest.DistinctKeys(ItemFields(item))
  {
    var es := ItemFields(item);
    assert |es[0].key| == 2 && |es[1].key| == 4 && |es[2].key| == 13 && |es[3].key| == 7 && |es[4].key| == 17;
  }

  lemma {:induction false} SameFieldsSameItem(a: Item, b: Item)
    requires Digest.Same(Digest.Obj(ItemFields(a)), Digest.Obj(ItemFields(b)))
    ensures a == b
  {
    var (es, fs) := (ItemFields(a), ItemFields(b));
    assert |RoleName(User)| == 4 && |RoleName(Summary)| == 7 && |RoleName(Participant)| == 11;
    assert Digest.Same(es[0].value, fs[0].value);
    assert Digest.Same(es[1].value, fs[1].value);
    assert Digest.Same(es[3].value, fs[3].value);
    OptionalFieldsAgree(es, fs, 2, a.participantId, b.participantId);
    OptionalFieldsAgree(es, fs, 4, a.sourceExecutionId, b.sourceExecutionId);
  }

  lemma {:induction false} OptionalFieldsAgree(
    es: seq<Digest.Entry>, fs: seq<Digest.Entry>, k: nat, x: Option<Text>, y: Option<Text>)
    requires Digest.Same(Digest.Obj(es), Digest.Obj(fs))
    requires |es| == |fs| == 5 && k < 5 && (forall i | 0 <= i < 5 :: es[i].key == fs[i].key)
    requires forall i, j | 0 <= i < j < 5 :: |es[i].key| != |es[j].key|
    requires es[k].value == OptionalField(x) && fs[k].value == OptionalField(y)
    ensures x == y
  {
    assert es[k].key in Digest.FieldKeys(es) <==> x.Some?;
    assert fs[k].key in Digest.FieldKeys(fs) <==> y.Some?;
    if x.Some? {
      assert Digest.Same(es[k].value, fs[k].value);
    }
  }

  // ---------------------------------------------------------------------------------------------
  // The decision, on values
  // ---------------------------------------------------------------------------------------------

  /** What the reconciler remembers of a seat's session after a completed turn. */
  datatype SessionState = SessionState(
    sessionEpoch: nat,
    digestVersion: int,
    contextRevision: nat,
    contextDigest: Text,
    participantSnapshotDigest: Text,
    appliedItemCount: nat,
    itemDigests: seq<Text>,
    topic: Text,
    background: Text,
    executionCount: nat,
    cumulativeInputTokens: real,
    executionIds: seq<string>)

  datatype RebaseReason =
    | DigestVersionChanged
    | HistoryReplaced
    | SharedContextChanged
    | ParticipantChanged
    | RevisionRegressed
    | SessionExecutionLimit
    | ContextWindowThreshold

  /** `Full` and `Incremental` carry the prompt; both apply all items of the snapshot. */
  datatype Outcome =
    | Full(prompt: Text)
    | Incremental(fromIndex: nat, prompt: Text)
    | NeedsRebase(reason: RebaseReason)

  predicate BudgetLeft(r: SessionState, windowTokens: Option<real>) {
    var window := match windowTokens case Some(w) => w case None => DEFAULT_CONTEXT_WINDOW_TOKENS;
    && r.executionCount < SESSION_MAX_EXECUTIONS
    && r.cumulativeInputTokens < window * CONTEXT_WINDOW_THRESHOLD_RATIO
  }

  function DigestsOf(items: seq<Item>): seq<Text> {
    seq(|items|, i requires 0 <= i < |items| => HashItem(items[i]))
  }

  predicate Extends(r: SessionState, s: Snapshot) {
    && r.appliedItemCount <= |s.items|
    && r.appliedItemCount <= |r.itemDigests|
    && DigestsOf(s.items)[..r.appliedItemCount] == r.itemDigests[..r.appliedItemCount]
  }

  function Decide(record: Option<SessionState>, s: Snapshot, epoch: nat, windowTokens: Option<real>): Outcome {
    if record.None? || record.value.sessionEpoch != epoch then Full(RenderTurn(s, 0))
    else
      var r := record.value;
      if r.executionCount >= SESSION_MAX_EXECUTIONS then NeedsRebase(SessionExecutionLimit)
      else if !BudgetLeft(r, windowTokens) then NeedsRebase(ContextWindowThreshold)
      else if s.digestVersion != r.digestVersion then NeedsRebase(DigestVersionChanged)
      else if s.contextRevision < r.contextRevision then NeedsRebase(RevisionRegressed)
      else if s.participantSnapshotDigest != r.participantSnapshotDigest then NeedsRebase(ParticipantChanged)
      else if !Extends(r, s) then NeedsRebase(HistoryReplaced)
      else if OrEmpty(s.topic) != r.topic || OrEmpty(s.background) != r.background then
        NeedsRebase(SharedContextChanged)
      else Incremental(r.appliedItemCount, RenderTurn(s, r.appliedItemCount))
  }

  /** The record after a turn over `s` completed in the driver's session `epoch`. */
  function Apply(
    record: Option<SessionState>, s: Snapshot, executionId: string, epoch: nat, inputTokens: real): SessionState
  {
    var same := record.Some? && record.value.sessionEpoch == epoch;
    SessionState(
      epoch, s.digestVersion, s.contextRevision, s.contextDigest, s.participantSnapshotDigest,
      |s.items|, DigestsOf(s.items), OrEmpty(s.topic), OrEmpty(s.background),
      (if same then record.value.executionCount else 0) + 1,
      (if same then record.value.cumulativeInputTokens else 0.0) + inputTokens,
      (if same then record.value.executionIds else []) + [executionId])
  }

  lemma ApplyInPlace(r: SessionState, s: Snapshot, executionId: string, inputTokens: real)
    ensures |DigestsOf(s.items)| == |s.items|
    ensures Apply(Some(r), s, executionId, r.sessionEpoch, inputTokens) ==
            SessionState(r.sessionEpoch, s.digestVersion, s.contextRevision, s.contextDigest,
                         s.participantSnapshotDigest, |s.items|, DigestsOf(s.items),
                         OrEmpty(s.topic), OrEmpty(s.background),
                         r.executionCount + 1, r.cumulativeInputTokens + inputTokens, r.executionIds + [executionId])
  {
  }

  /** What it means for a later snapshot to grow an earlier one by appending only. */
  predicate AppendOnly(earlier: Snapshot, later: Snapshot) {
    && later.digestVersion == earlier.digestVersion
    && later.contextRevision >= earlier.contextRevision
    && later.participantSnapshotDigest == earlier.participantSnapshotDigest
    && OrEmpty(later.topic) == OrEmpty(earlier.topic)
    && OrEmpty(later.background) == OrEmpty(earlier.background)
    && earlier.items <= later.items
  }

  lemma {:induction false} EqualDigestsEqualItems(a: seq<Item>, b: seq<Item>)
    ensures |a| <= |b| && DigestsOf(b)[..|a|] == DigestsOf(a) <==> a <= b
  {
    if |a| <= |b| && DigestsOf(b)[..|a|] == DigestsOf(a) {
      forall i | 0 <= i < |a|
        ensures a[i] == b[i]
      {
        assert DigestsOf(b)[..|a|][i] == DigestsOf(a)[i];
        HashItemIdentifies(a[i], b[i]);
      }
    }
    if a <= b {
      assert DigestsOf(b)[..|a|] == DigestsOf(a);
    }
  }

  /** The record tells exactly what a completed turn over `s` applied. */
  predicate Describes(r: SessionState, s: Snapshot) {
    && r.digestVersion == s.digestVersion
    && r.contextRevision == s.contextRevision
    && r.contextDigest == s.contextDigest
    && r.participantSnapshotDigest == s.participantSnapshotDigest
    && r.appliedItemCount == |s.items|
    && r.itemDigests == DigestsOf(s.items)
    && r.topic == OrEmpty(s.topic)
    && r.background == OrEmpty(s.background)
  }

  /**
   * After a completed turn over `earlier`, the next turn in the same epoch is incremental exactly when the
   * session has served fewer than 32 turns and filled less than half of its window, and the new snapshot is
   * append-only; it then sends what was appended.
   */
  lemma {:induction false} IncrementalIffAppendOnly(
    r: SessionState, earlier: Snapshot, later: Snapshot, windowTokens: Option<real>)
    requires Describes(r, earlier)
    ensures var outcome := Decide(Some(r), later, r.sessionEpoch, windowTokens);
            && (outcome.Incremental? <==>
                  && r.executionCount < 32
                  && r.cumulativeInputTokens < (if windowTokens.Some? then windowTokens.value else 65536.0) / 2.0
                  && AppendOnly(earlier, later))
            && (outcome.Incremental? ==> outcome.fromIndex == |earlier.items|)
            && !outcome.Full?
  {
    EqualDigestsEqualItems(earlier.items, later.items);
    assert r.itemDigests[..|earlier.items|] == DigestsOf(earlier.items);
  }

  /**
   * What is sent: without a record of this epoch the full prompt. Otherwise an incremental prompt is what
   * the full one has behind header and applied items, and the full one itself if no items were applied.
   */
  lemma {:induction false} PromptIsWhatIsMissing(
    record: Option<SessionState>, earlier: Snapshot, later: Snapshot, epoch: nat, windowTokens: Option<real>)
    requires record.Some? ==> Describes(record.value, earlier)
    ensures var outcome := Decide(record, later, epoch, windowTokens);
            && (outcome.Full? <==> record == None || record.value.sessionEpoch != epoch)
            && (outcome.Full? ==> outcome.prompt == RenderTurn(later, 0))
            && (outcome.Incremental? ==>
                  if earlier.items == [] then outcome.prompt == RenderTurn(later, 0)
                  else RenderTurn(later, 0) ==
                       Header(later) + BLANK_LINE + RenderItems(earlier.items) + BLANK_LINE + outcome.prompt)
  {
    var outcome := Decide(record, later, epoch, windowTokens);
    if outcome.Incremental? {
      IncrementalIffAppendOnly(record.value, earlier, later, windowTokens);
      assert later.items[..|earlier.items|] == earlier.items;
      if earlier.items != [] { IncrementalPromptIsSuffixOfFull(later, |earlier.items|); }
    }
    hide RenderTurn, Header, RenderItems, DigestsOf;
  }

  /** A refusal names something that is really in the way, the session's budget first. */
  lemma {:induction false} RebaseReasonIsReal(
    r: SessionState, earlier: Snapshot, later: Snapshot, windowTokens: Option<real>)
    requires Describes(r, earlier) && Decide(Some(r), later, r.sessionEpoch, windowTokens).NeedsRebase?
    ensures var budget := BudgetLeft(r, windowTokens);
            match Decide(Some(r), later, r.sessionEpoch, windowTokens).reason
            case SessionExecutionLimit => r.executionCount >= 32
            case ContextWindowThreshold => !budget && r.executionCount < 32
            case DigestVersionChanged => budget && later.digestVersion != earlier.digestVersion
            case RevisionRegressed => budget && later.contextRevision < earlier.contextRevision
            case ParticipantChanged => budget && later.participantSnapshotDigest != earlier.participantSnapshotDigest
            case HistoryReplaced => budget && !(earlier.items <= later.items)
            case SharedContextChanged =>
              && budget && earlier.items <= later.items
              && (OrEmpty(later.topic) != OrEmpty(earlier.topic) ||
                  OrEmpty(later.background) != OrEmpty(earlier.background))
  {
    EqualDigestsEqualItems(earlier.items, later.items);
    assert r.itemDigests[..|earlier.items|] == DigestsOf(earlier.items);
  }

  // ---------------------------------------------------------------------------------------------
  // What a record adds up to
  // ---------------------------------------------------------------------------------------------

  /** A completed turn. */
  datatype Applied = Applied(snapshot: Snapshot, executionId: string, epoch: nat, inputTokens: real)

  function ApplyAll(turns: seq<Applied>): Option<SessionState> {
    if turns == [] then None
    else
      var last := turns[|turns| - 1];
      Some(Apply(ApplyAll(turns[..|turns| - 1]), last.snapshot, last.executionId, last.epoch, last.inputTokens))
  }

  /** The turns at the end that were completed in one epoch. */
  function OneSession(turns: seq<Applied>): seq<Applied> {
    if turns == [] then []
    else
      var (before, last) := (turns[..|turns| - 1], turns[|turns| - 1]);
      if before != [] && before[|before| - 1].epoch == last.epoch then OneSession(before) + [last] else [last]
  }

  function TotalTokens(turns: seq<Applied>): real {
    if turns == [] then 0.0 else TotalTokens(turns[..|turns| - 1]) + turns[|turns| - 1].inputTokens
  }

  function IdsOf(turns: seq<Applied>): seq<string> {
    seq(|turns|, i requires 0 <= i < |turns| => turns[i].executionId)
  }

  /** The record counts these turns, adds up their tokens and names them in order. */
  predicate Counts(r: SessionState, session: seq<Applied>) {
    && r.executionCount == |session|
    && r.cumulativeInputTokens == TotalTokens(session)
    && r.executionIds == IdsOf(session)
  }

  lemma {:induction false} ApplyCounts(record: Option<SessionState>, session: seq<Applied>, a: Applied)
    requires record.Some? && record.value.sessionEpoch == a.epoch ==> Counts(record.value, session)
    ensures var r := Apply(record, a.snapshot, a.executionId, a.epoch, a.inputTokens);
            && Describes(r, a.snapshot) && r.sessionEpoch == a.epoch
            && Counts(r, if record.Some? && record.value.sessionEpoch == a.epoch then session + [a] else [a])
  {
    assert (session + [a])[..|session|] == session && [a][..0] == [];
    assert IdsOf(session + [a]) == IdsOf(session) + [a.executionId] && IdsOf([a]) == [] + [a.executionId];
    assert TotalTokens([]) == 0.0 && TotalTokens([a]) == a.inputTokens;
    assert TotalTokens(session + [a]) == TotalTokens(session) + a.inputTokens;
    hide DigestsOf;
  }

  /** A record describes the newest completed turn, and counts it and those before it in the same session. */
  lemma {:induction false} RecordAddsUp(turns: seq<Applied>)
    requires turns != []
    ensures var (last, record) := (turns[|turns| - 1], ApplyAll(turns));
            && record.Some? && Describes(record.value, last.snapshot) && record.value.sessionEpoch == last.epoch
            && Counts(record.value, OneSession(turns))
  {
    var before := turns[..|turns| - 1];
    if before != [] { RecordAddsUp(before); }
    ApplyCounts(ApplyAll(before), OneSession(before), turns[|turns| - 1]);
    hide Counts, Describes, Apply;
  }

  // ---------------------------------------------------------------------------------------------
  // The reconciler, updating its records in place
  // ---------------------------------------------------------------------------------------------

  class SessionRecord {
    var sessionEpoch: nat
    var digestVersion: int
    var contextRevision: nat
    var contextDigest: Text
    var participantSnapshotDigest: Text
    var appliedItemCount: nat
    var itemDigests: seq<Text>
    var topic: Text
    var background: Text
    var executionCount: nat
    var cumulativeInputTokens: real
    var executionIds: seq<string>

    constructor (epoch: nat, s: Snapshot)
      ensures State() ==
              SessionState(epoch, s.digestVersion, 0, [], s.participantSnapshotDigest, 0, [], [], [], 0, 0.0, [])
    {
      sessionEpoch, digestVersion, contextRevision, contextDigest := epoch, s.digestVersion, 0, [];
      participantSnapshotDigest, appliedItemCount, itemDigests := s.participantSnapshotDigest, 0, [];
      topic, background, executionCount, cumulativeInputTokens, executionIds := [], [], 0, 0.0, [];
    }

    ghost function State(): SessionState
      reads this
    {
      SessionState(sessionEpoch, digestVersion, contextRevision, contextDigest, participantSnapshotDigest,
                   appliedItemCount, itemDigests, topic, background,
                   executionCount, cumulativeInputTokens, executionIds)
    }

    /** Every record a completed turn left behind holds as many digests as items. */
    ghost predicate Valid()
      reads this
    {
      appliedItemCount == |itemDigests|
    }

    method KeepsPrefixOf(s: Snapshot) returns (kept: bool)
      requires Valid()
      ensures kept == Extends(State(), s)
    {
      if |s.items| < appliedItemCount {
        return false;
      }
      var i := 0;
      while i < appliedItemCount
        invariant 0 <= i <= appliedItemCount
        invariant DigestsOf(s.items)[..i] == itemDigests[..i]
      {
        if HashItem(s.items[i]) != itemDigests[i] {
          assert DigestsOf(s.items)[..appliedItemCount][i] != itemDigests[..appliedItemCount][i];
          return false;
        }
        i := i + 1;
      }
      kept := true;
    }

    method Update(s: Snapshot, executionId: string, inputTokens: real)
      modifies this
      ensures Valid() && State() == Apply(Some(old(State())), s, executionId, old(sessionEpoch), inputTokens)
    {
      ApplyInPlace(State(), s, executionId, inputTokens);
      hide DigestsOf, OrEmpty, Apply;
      digestVersion := s.digestVersion;
      contextRevision := s.contextRevision;
      contextDigest := s.contextDigest;
      participantSnapshotDigest := s.participantSnapshotDigest;
      appliedItemCount := |s.items|;
      itemDigests := DigestsOf(s.items);
      topic := OrEmpty(s.topic);
      background := OrEmpty(s.background);
      executionCount := executionCount + 1;
      cumulativeInputTokens := cumulativeInputTokens + inputTokens;
      executionIds := executionIds + [executionId];
    }
  }

  class Reconciler {
    var records: map<string, SessionRecord>

    ghost predicate Valid()
      reads this, records.Values
    {
      && (forall p | p in records :: records[p].Valid())
      && (forall p, q | p in records && q in records && p != q :: records[p] != records[q])
    }

    /** The session remembered for a participant. */
    ghost function Remembered(participantId: string): Option<SessionState>
      reads this, records.Values
    {
      if participantId in records then Some(records[participantId].State()) else None
    }

    constructor ()
      ensures Valid() && records == map[]
    {
      records := map[];
    }

    method Reconcile(participantId: string, s: Snapshot, driverSessionEpoch: nat, contextWindowTokens: Option<real>)
      returns (outcome: Outcome)
      requires Valid()
      ensures outcome == Decide(Remembered(participantId), s, driverSessionEpoch, contextWindowTokens)
    {
      if participantId !in records || records[participantId].sessionEpoch != driverSessionEpoch {
        return Full(RenderTurn(s, 0));
      }
      var record := records[participantId];
      if record.executionCount >= SESSION_MAX_EXECUTIONS {
        return NeedsRebase(SessionExecutionLimit);
      }
      var window := match contextWindowTokens case Some(w) => w case None => DEFAULT_CONTEXT_WINDOW_TOKENS;
      if record.cumulativeInputTokens >= window * CONTEXT_WINDOW_THRESHOLD_RATIO {
        return NeedsRebase(ContextWindowThreshold);
      }
      if s.digestVersion != record.digestVersion {
        return NeedsRebase(DigestVersionChanged);
      }
      if s.contextRevision < record.contextRevision {
        return NeedsRebase(RevisionRegressed);
      }
      if s.participantSnapshotDigest != record.participantSnapshotDigest {
        return NeedsRebase(ParticipantChanged);
      }
      var kept := record.KeepsPrefixOf(s);
      if !kept {
        return NeedsRebase(HistoryReplaced);
      }
      if OrEmpty(s.topic) != record.topic || OrEmpty(s.background) != record.background {
        return NeedsRebase(SharedContextChanged);
      }
      outcome := Incremental(record.appliedItemCount, RenderTurn(s, record.appliedItemCount));
    }

    method RecordApplied(
      participantId: string, s: Snapshot, executionId: string, driverSessionEpoch: nat, inputTokens: real)
      requires Valid()
      modifies this, records.Values
      ensures Valid()
      ensures Remembered(participantId) ==
              Some(Apply(old(Remembered(participantId)), s, executionId, driverSessionEpoch, inputTokens))
      ensures forall p | p != participantId :: Remembered(p) == old(Remembered(p))
      ensures fresh(records.Values - old(records.Values))
    {
      var base: SessionRecord;
      if participantId in records && records[participantId].sessionEpoch == driverSessionEpoch {
        base := records[participantId];
      } else {
        base := new SessionRecord(driverSessionEpoch, s);
      }
      base.Update(s, executionId, inputTokens);
      records := records[participantId := base];
    }

    method Invalidate(participantId: string)
      requires Valid()
      modifies this
      ensures Valid()
      ensures Remembered(participantId) == None
      ensures forall p | p != participantId :: Remembered(p) == old(Remembered(p))
    {
      records := records - {participantId};
    }
  }
}
