/** Execution identity derived from the order of a transcript's records, and what is reported of an execution. */
module ExecutionRef {
  import opened Options
  import opened DecimalInt

  const AGGREGATION_KEY := "aggregation.finished"

  datatype Failure = Failure(code: string, message: string)

  datatype Status = Success | Failed

  datatype Roster = Roster(attemptIds: set<string>, aggregator: Option<string>)

  /** A transcript record as far as identity depends on it. */
  datatype Row =
    | Other
    | Started(roster: Roster)
    | Resumed(reused: set<string>)
    | Finished(aggregation: bool, attemptId: Option<string>, status: Option<Status>,
               output: Option<string>, failure: Option<Failure>, willRetry: bool)

  /** What a terminal record is counted under: the attempt, or the one aggregator. */
  function KeyOf(row: Row): Option<string> {
    if !row.Finished? || row.status == None then None
    else if row.aggregation then Some(AGGREGATION_KEY)
    else row.attemptId
  }

  function Last<T>(s: seq<T>): T
    requires s != []
  {
    s[|s| - 1]
  }

  function Init<T>(s: seq<T>): seq<T>
    requires s != []
  {
    s[..|s| - 1]
  }

  // ---------------------------------------------------------------------------------------------
  // Identity
  // ---------------------------------------------------------------------------------------------

  function Resumes(rows: seq<Row>): nat {
    if rows == [] then 0 else Resumes(Init(rows)) + if Last(rows).Resumed? then 1 else 0
  }

  /** The generation of a record appended now. */
  function Generation(rows: seq<Row>): nat {
    Resumes(rows) + 1
  }

  /** How many terminal records a key has in a generation. */
  function Occurrences(rows: seq<Row>, key: string, generation: nat): nat {
    if rows == [] then 0
    else Occurrences(Init(rows), key, generation) +
         if KeyOf(Last(rows)) == Some(key) && Generation(Init(rows)) == generation then 1 else 0
  }

  datatype Entry = Entry(key: string, index: nat, generation: nat, ordinal: nat, row: Row)

  /** The identity of the terminal record appended as `row`. */
  function EntryFor(rows: seq<Row>, row: Row, key: string): Entry {
    Entry(key, |rows|, Generation(rows), Occurrences(rows, key, Generation(rows)) + 1, row)
  }

  /** The terminal records with the identities their positions give them. */
  function Entries(rows: seq<Row>): seq<Entry> {
    if rows == [] then []
    else match KeyOf(Last(rows))
      case None => Entries(Init(rows))
      case Some(key) => Entries(Init(rows)) + [EntryFor(Init(rows), Last(rows), key)]
  }

  /** Appending records never changes an identity that has been given. */
  lemma {:induction false} IdentitiesAreStable(rows: seq<Row>, more: seq<Row>)
    ensures Entries(rows) <= Entries(rows + more)
  {
    if more == [] {
      assert rows + more == rows;
    } else {
      IdentitiesAreStable(rows, Init(more));
      assert Init(rows + more) == rows + Init(more);
    }
  }

  predicate Before(a: Entry, b: Entry) {
    a.generation < b.generation || (a.generation == b.generation && a.ordinal < b.ordinal)
  }

  ghost predicate IdentityOk(rows: seq<Row>, e: Entry) {
    && e.index < |rows| && KeyOf(rows[e.index]) == Some(e.key) && e.row == rows[e.index]
    && 1 <= e.generation <= Generation(rows) && 1 <= e.ordinal <= Occurrences(rows, e.key, e.generation)
  }

  lemma {:induction false} IdentitiesAreOk(rows: seq<Row>)
    ensures forall i | 0 <= i < |Entries(rows)| :: IdentityOk(rows, Entries(rows)[i])
  {
    if rows != [] {
      IdentitiesAreOk(Init(rows));
      var before := Entries(Init(rows));
      forall i | 0 <= i < |Entries(rows)| ensures IdentityOk(rows, Entries(rows)[i]) {
        if i < |before| { assert IdentityOk(Init(rows), before[i]); }
      }
    }
  }

  /** The identities of one attempt increase with the order of the records, so no two are equal. */
  lemma {:induction false} IdentitiesIncrease(rows: seq<Row>, i: nat, j: nat)
    requires i < j < |Entries(rows)| && Entries(rows)[i].key == Entries(rows)[j].key
    ensures Before(Entries(rows)[i], Entries(rows)[j]) && Entries(rows)[i].index < Entries(rows)[j].index
  {
    var before := Entries(Init(rows));
    if j < |before| {
      IdentitiesIncrease(Init(rows), i, j);
    } else {
      IdentitiesAreOk(Init(rows));
      assert IdentityOk(Init(rows), before[i]);
    }
  }

  /** Every terminal record has the identity its position gives it. */
  lemma {:induction false} EveryTerminalHasIdentity(rows: seq<Row>, i: nat, key: string)
    requires i < |rows| && KeyOf(rows[i]) == Some(key)
    ensures EntryFor(rows[..i], rows[i], key) in Entries(rows)
  {
    if i < |rows| - 1 {
      assert Init(rows)[..i] == rows[..i];
      EveryTerminalHasIdentity(Init(rows), i, key);
    }
  }

  /** In each generation the ordinals of a key run from one without a gap. */
  lemma {:induction false} OrdinalsHaveNoGaps(
    rows: seq<Row>, key: string, generation: nat, ordinal: nat) returns (e: Entry)
    requires 1 <= ordinal <= Occurrences(rows, key, generation)
    ensures e in Entries(rows) && e.key == key && e.generation == generation && e.ordinal == ordinal
  {
    if ordinal <= Occurrences(Init(rows), key, generation) {
      e := OrdinalsHaveNoGaps(Init(rows), key, generation, ordinal);
    } else {
      e := EntryFor(Init(rows), Last(rows), key);
    }
  }

  // ---------------------------------------------------------------------------------------------
  // The text of a reference
  // ---------------------------------------------------------------------------------------------

  function Format(attemptId: string, generation: nat, ordinal: nat): string {
    attemptId + "#" + Print(generation) + "." + Print(ordinal)
  }

  function UnavailableRef(attemptId: string): string {
    attemptId + "#" + "0.0"
  }

  /** The part behind the last occurrence of a character is determined by the whole. */
  lemma {:induction false} LastMarkSplits(a: string, b: string, c: string, d: string, mark: char)
    requires a + [mark] + b == c + [mark] + d && mark !in b && mark !in d
    ensures a == c && b == d
  {
    var s := a + [mark] + b;
    NoMarkBehind(a, b, mark);
    NoMarkBehind(c, d, mark);
    assert s[|a|] == mark && s[|c|] == mark;
    assert a == s[..|a|] && b == s[|a| + 1..];
  }

  lemma {:induction false} NoMarkBehind(a: string, b: string, mark: char)
    requires mark !in b
    ensures var s := a + [mark] + b; forall k | |a| < k < |s| :: s[k] != mark
  {
    var s := a + [mark] + b;
    assert forall k | |a| < k < |s| :: s[k] == b[k - |a| - 1];
  }

  lemma PrintHoldsNoMark(n: nat)
    ensures '#' !in Print(n) && '.' !in Print(n)
  {
  }

  /** A reference determines the attempt, whatever its characters, the generation and the ordinal. */
  lemma {:induction false} FormatIsInjective(a: string, g: nat, o: nat, b: string, h: nat, p: nat)
    requires Format(a, g, o) == Format(b, h, p)
    ensures a == b && g == h && o == p
  {
    PrintHoldsNoMark(g);
    PrintHoldsNoMark(o);
    PrintHoldsNoMark(h);
    PrintHoldsNoMark(p);
    LastMarkSplits(a + "#" + Print(g), Print(o), b + "#" + Print(h), Print(p), '.');
    LastMarkSplits(a, Print(g), b, Print(h), '#');
    PrintIsInjective(g, h);
    PrintIsInjective(o, p);
  }

  /** The sentinel is the reference of generation zero, which no record has. */
  lemma {:induction false} SentinelIsZero(attemptId: string)
    ensures UnavailableRef(attemptId) == Format(attemptId, 0, 0)
  {
    assert Print(0) == "0";
    assert attemptId + "#" + "0" + "." + "0" == attemptId + "#" + "0.0";
  }

  lemma {:induction false} SentinelNeverCollides(attemptId: string, b: string, generation: nat, ordinal: nat)
    requires generation >= 1
    ensures UnavailableRef(attemptId) != Format(b, generation, ordinal)
  {
    SentinelIsZero(attemptId);
    if UnavailableRef(attemptId) == Format(b, generation, ordinal) {
      FormatIsInjective(attemptId, 0, 0, b, generation, ordinal);
    }
  }

  // ---------------------------------------------------------------------------------------------
  // Resolving an attempt
  // ---------------------------------------------------------------------------------------------

  datatype Role = Attempt | Aggregator

  datatype Live = LivePending | LiveQueued | LiveRunning | LiveSuccess | LiveFailure | LiveCancelled

  datatype InflightStatus = Pending | Queued | Running

  datatype TerminalStatus = TerminalSuccess | TerminalFailure | TerminalCancelled

  datatype Reason = NoStartedRecord | NoExecutionRecord

  datatype Resolution =
    | Inflight(role: Role, ref: string, inflight: InflightStatus)
    | Terminal(role: Role, ref: string, status: TerminalStatus, output: Option<string>, failure: Option<Failure>,
               reusedRef: Option<string>)
    | Unavailable(unavailableRole: Option<Role>, ref: string, reason: Reason)
    | UnknownAttempt

  datatype Resume = Resume(index: nat, reused: set<string>)

  function LastRoster(rows: seq<Row>): Option<Roster> {
    if rows == [] then None
    else if Last(rows).Started? then Some(Last(rows).roster)
    else LastRoster(Init(rows))
  }

  function LastResume(rows: seq<Row>): Option<Resume> {
    if rows == [] then None
    else if Last(rows).Resumed? then Some(Resume(|rows| - 1, Last(rows).reused))
    else LastResume(Init(rows))
  }

  /** The last terminal record of a key. */
  function LastEntry(rows: seq<Row>, key: string): (e: Option<Entry>)
    ensures e.Some? ==> e.value.row.Finished? && e.value.index < |rows|
  {
    if rows == [] then None
    else if KeyOf(Last(rows)) == Some(key) then Some(EntryFor(Init(rows), Last(rows), key))
    else LastEntry(Init(rows), key)
  }

  function RoleOf(roster: Roster, attemptId: string): Option<Role> {
    if roster.aggregator == Some(attemptId) then Some(Aggregator)
    else if attemptId in roster.attemptIds then Some(Attempt)
    else None
  }

  function KeyFor(role: Role, attemptId: string): string {
    if role == Aggregator then AGGREGATION_KEY else attemptId
  }

  function TerminalFromEntry(attemptId: string, role: Role, e: Entry, reusedRef: Option<string>): Resolution
    requires e.row.Finished?
  {
    var failed := e.row.status != Some(Success);
    var failure := if failed then e.row.failure else None;
    var cancelled := failure.Some? && failure.value.code in {"CANCELLED", "ABORTED"};
    Terminal(role, Format(attemptId, e.generation, e.ordinal),
             if !failed then TerminalSuccess else if cancelled then TerminalCancelled else TerminalFailure,
             if failed then None else e.row.output, failure, reusedRef)
  }

  function InflightOf(live: Option<Live>): InflightStatus {
    match live
    case Some(LiveQueued) => Queued
    case Some(LiveRunning) => Running
    case _ => Pending
  }

  predicate LiveTerminal(live: Option<Live>) {
    live in {Some(LiveSuccess), Some(LiveFailure), Some(LiveCancelled)}
  }

  /** The last terminal record of an attempt was written before the last resume, which reuses it. */
  predicate IsReused(role: Role, attemptId: string, last: Option<Entry>, resume: Option<Resume>) {
    && role == Attempt && resume.Some? && attemptId in resume.value.reused
    && (last == None || last.value.index < resume.value.index)
  }

  predicate IsCurrent(last: Option<Entry>, resume: Option<Resume>) {
    last.Some? && (resume == None || last.value.index > resume.value.index)
  }

  /** What is reported of an attempt with a role, given its last terminal record and its next identity. */
  function Report(
    attemptId: string, role: Role, last: Option<Entry>, resume: Option<Resume>, generation: nat, ordinal: nat,
    live: Option<Live>, runActive: bool): Resolution
    requires last.Some? ==> last.value.row.Finished?
  {
    if IsReused(role, attemptId, last, resume) && last.Some? && last.value.row.status == Some(Success) then
      TerminalFromEntry(attemptId, role, last.value, Some(Format(attemptId, last.value.generation, last.value.ordinal)))
    else if IsCurrent(last, resume) then
      if runActive && last.value.row.willRetry then
        Inflight(role, Format(attemptId, last.value.generation, last.value.ordinal + 1), Running)
      else TerminalFromEntry(attemptId, role, last.value, None)
    else if runActive && !LiveTerminal(live) then
      Inflight(role, Format(attemptId, generation, ordinal), InflightOf(live))
    else Unavailable(Some(role), Format(attemptId, generation, ordinal), NoExecutionRecord)
  }

  function Resolve(rows: seq<Row>, attemptId: string, live: Option<Live>, runActive: bool): Resolution {
    match LastRoster(rows)
    case None => Unavailable(None, UnavailableRef(attemptId), NoStartedRecord)
    case Some(roster) =>
      match RoleOf(roster, attemptId)
      case None => UnknownAttempt
      case Some(role) =>
        var key := KeyFor(role, attemptId);
        Report(attemptId, role, LastEntry(rows, key), LastResume(rows), Generation(rows),
               Occurrences(rows, key, Generation(rows)) + 1, live, runActive)
  }

  // ---------------------------------------------------------------------------------------------
  // One pass over the transcript
  // ---------------------------------------------------------------------------------------------

  type Counters = map<string, (nat, nat)>

  /** The number of terminal records of a key in a generation, as far as the counters know. */
  function Counted(counters: Counters, key: string, generation: nat): nat {
    if key in counters && counters[key].0 == generation then counters[key].1 else 0
  }

  /** The counters know the current generation, and none of a later one. */
  ghost predicate CountersOk(counters: Counters, rows: seq<Row>) {
    forall key: string ::
      && (key in counters ==> counters[key].0 <= Generation(rows))
      && Counted(counters, key, Generation(rows)) == Occurrences(rows, key, Generation(rows))
  }

  lemma {:induction false} NothingAhead(rows: seq<Row>, key: string, generation: nat)
    requires generation > Generation(rows)
    ensures Occurrences(rows, key, generation) == 0
  {
    if rows != [] { NothingAhead(Init(rows), key, generation); }
  }

  lemma {:induction false} CountersAfter(counters: Counters, rows: seq<Row>, row: Row)
    requires CountersOk(counters, rows)
    ensures var all := rows + [row];
            CountersOk(match KeyOf(row)
                       case None => counters
                       case Some(key) =>
                         counters[key := (Generation(rows), Counted(counters, key, Generation(rows)) + 1)],
                       all)
  {
    var all := rows + [row];
    assert Init(all) == rows && Last(all) == row;
    var after := match KeyOf(row)
      case None => counters
      case Some(key) => counters[key := (Generation(rows), Counted(counters, key, Generation(rows)) + 1)];
    forall key: string
      ensures (key in after ==> after[key].0 <= Generation(all)) &&
              Counted(after, key, Generation(all)) == Occurrences(all, key, Generation(all))
    {
      assert key in counters ==> counters[key].0 <= Generation(rows);
      assert Counted(counters, key, Generation(rows)) == Occurrences(rows, key, Generation(rows));
      if row.Resumed? { NothingAhead(rows, key, Generation(all)); }
    }
  }

  function EntriesOf(entries: seq<Entry>, key: string): seq<Entry> {
    if entries == [] then []
    else EntriesOf(Init(entries), key) + if Last(entries).key == key then [Last(entries)] else []
  }

  lemma {:induction false} LastOfMine(rows: seq<Row>, key: string)
    ensures var mine := EntriesOf(Entries(rows), key);
            LastEntry(rows, key) == if mine == [] then None else Some(Last(mine))
  {
    if rows != [] {
      LastOfMine(Init(rows), key);
      if KeyOf(Last(rows)).Some? {
        var before := Entries(Init(rows));
        assert Init(Entries(rows)) == before;
      }
    }
  }

  /** The scan of `resolveAttemptExecution` and the report it leads to. */
  method ResolveAttemptExecution(rows: seq<Row>, attemptId: string, live: Option<Live>, runActive: bool)
    returns (r: Resolution)
    ensures r == Resolve(rows, attemptId, live, runActive)
  {
    var roster: Option<Roster> := None;
    var (resumes, lastResume: Option<Resume>) := (0, None);
    var (finished: seq<Entry>, counters: Counters) := ([], map[]);
    for n := 0 to |rows|
      invariant roster == LastRoster(rows[..n]) && lastResume == LastResume(rows[..n])
      invariant resumes == Resumes(rows[..n]) && finished == Entries(rows[..n])
      invariant CountersOk(counters, rows[..n])
    {
      var row := rows[n];
      ghost var all := rows[..n + 1];
      assert all == rows[..n] + [row] && Init(all) == rows[..n];
      CountersAfter(counters, rows[..n], row);
      hide CountersOk;
      match row
      case Started(named) =>
        roster := Some(named);
      case Resumed(reused) =>
        resumes, lastResume := resumes + 1, Some(Resume(n, reused));
      case Other =>
      case Finished(_, _, _, _, _, _) =>
        var keyed := KeyOf(row);
        if keyed.Some? {
          var (key, generation) := (keyed.value, resumes + 1);
          var ordinal := Counted(counters, key, generation) + 1;
          CountIsOccurrences(counters, rows[..n], key);
          counters := counters[key := (generation, ordinal)];
          finished := finished + [Entry(key, n, generation, ordinal, row)];
        }
    }
    assert rows[..|rows|] == rows;
    if roster == None { return Unavailable(None, UnavailableRef(attemptId), NoStartedRecord); }
    var role := RoleOf(roster.value, attemptId);
    if role == None { return UnknownAttempt; }
    var key := KeyFor(role.value, attemptId);
    var mine := EntriesOf(finished, key);
    LastOfMine(rows, key);
    CountIsOccurrences(counters, rows, key);
    r := Report(attemptId, role.value, if mine == [] then None else Some(Last(mine)), lastResume, resumes + 1,
                Counted(counters, key, resumes + 1) + 1, live, runActive);
  }

  lemma CountIsOccurrences(counters: Counters, rows: seq<Row>, key: string)
    requires CountersOk(counters, rows)
    ensures Counted(counters, key, Generation(rows)) == Occurrences(rows, key, Generation(rows))
  {
  }

  // ---------------------------------------------------------------------------------------------
  // What a reported reference is worth
  // ---------------------------------------------------------------------------------------------

  ghost predicate NoneOf(rows: seq<Row>, key: string) {
    forall i | 0 <= i < |rows| :: KeyOf(rows[i]) != Some(key)
  }

  lemma {:induction false} CountsStay(rows: seq<Row>, more: seq<Row>, key: string, generation: nat)
    requires NoneOf(more, key)
    ensures Occurrences(rows + more, key, generation) == Occurrences(rows, key, generation)
  {
    if more == [] {
      assert rows + more == rows;
    } else {
      assert Init(rows + more) == rows + Init(more) && KeyOf(Last(more)) != Some(key);
      CountsStay(rows, Init(more), key, generation);
    }
  }

  lemma {:induction false} ResumesGrow(rows: seq<Row>, more: seq<Row>)
    ensures Resumes(rows + more) == Resumes(rows) + Resumes(more)
  {
    if more == [] {
      assert rows + more == rows;
    } else {
      assert Init(rows + more) == rows + Init(more);
      ResumesGrow(rows, Init(more));
    }
  }

  /** A terminal record behind the last resume is the last of its generation. */
  lemma {:induction false} CurrentIsLatest(rows: seq<Row>, key: string)
    requires IsCurrent(LastEntry(rows, key), LastResume(rows))
    ensures var last := LastEntry(rows, key).value;
            last.generation == Generation(rows) && last.ordinal == Occurrences(rows, key, Generation(rows))
  {
    LastResumeIsWithin(rows);
    if KeyOf(Last(rows)) != Some(key) { CurrentIsLatest(Init(rows), key); }
  }

  lemma {:induction false} LastResumeIsWithin(rows: seq<Row>)
    ensures LastResume(rows).Some? ==> LastResume(rows).value.index < |rows|
  {
    if rows != [] { LastResumeIsWithin(Init(rows)); }
  }

  /** A report that names an execution without a terminal record of its own. */
  predicate Prospective(r: Resolution) {
    r.Inflight? || (r.Unavailable? && r.reason == NoExecutionRecord)
  }

  /** Such a report names the next identity of its key. */
  lemma {:induction false} ProspectiveRef(rows: seq<Row>, attemptId: string, live: Option<Live>, runActive: bool)
    returns (key: string)
    requires Prospective(Resolve(rows, attemptId, live, runActive))
    ensures key == KeyFor(RoleOf(LastRoster(rows).value, attemptId).value, attemptId)
    ensures Resolve(rows, attemptId, live, runActive).ref ==
            Format(attemptId, Generation(rows), Occurrences(rows, key, Generation(rows)) + 1)
  {
    key := KeyFor(RoleOf(LastRoster(rows).value, attemptId).value, attemptId);
    hide Occurrences, Resumes, LastRoster, LastEntry, LastResume, Format, RoleOf, KeyFor;
    if IsCurrent(LastEntry(rows, key), LastResume(rows)) { CurrentIsLatest(rows, key); }
  }

  /**
   * The reference of an execution in flight, a retry included, is the one its next terminal record
   * receives, if and only if the run is not resumed in between.
   */
  lemma {:induction false} InflightRefIsNextTerminals(
    rows: seq<Row>, attemptId: string, live: Option<Live>, runActive: bool, between: seq<Row>, row: Row, key: string)
    requires Prospective(Resolve(rows, attemptId, live, runActive))
    requires key == KeyFor(RoleOf(LastRoster(rows).value, attemptId).value, attemptId)
    requires NoneOf(between, key) && KeyOf(row) == Some(key)
    ensures var e := EntryFor(rows + between, row, key);
            && e in Entries(rows + between + [row])
            && (Format(attemptId, e.generation, e.ordinal) == Resolve(rows, attemptId, live, runActive).ref
                <==> Resumes(between) == 0)
  {
    var key' := ProspectiveRef(rows, attemptId, live, runActive);
    CountsStay(rows, between, key, Generation(rows));
    ResumesGrow(rows, between);
    var e := EntryFor(rows + between, row, key);
    assert Init(rows + between + [row]) == rows + between;
    if Resumes(between) > 0
       && Format(attemptId, e.generation, e.ordinal) == Resolve(rows, attemptId, live, runActive).ref
    {
      FormatIsInjective(attemptId, e.generation, e.ordinal, attemptId, Generation(rows),
                        Occurrences(rows, key, Generation(rows)) + 1);
    }
  }

  lemma {:induction false} LastEntryIsReal(rows: seq<Row>, key: string)
    ensures LastEntry(rows, key).Some? ==> LastEntry(rows, key).value.generation >= 1
  {
    if rows != [] { LastEntryIsReal(Init(rows), key); }
  }

  /** The sentinel of any attempt is reported exactly for a transcript without a roster, for that attempt. */
  lemma {:induction false} SentinelIff(
    rows: seq<Row>, attemptId: string, live: Option<Live>, runActive: bool, other: string)
    ensures var r := Resolve(rows, attemptId, live, runActive);
            !r.UnknownAttempt? ==> (r.ref == UnavailableRef(other) <==> LastRoster(rows) == None && other == attemptId)
  {
    hide Occurrences, Resumes, LastRoster, LastEntry, LastResume, Format, UnavailableRef, RoleOf, KeyFor;
    var r := Resolve(rows, attemptId, live, runActive);
    match LastRoster(rows)
    case None =>
      if r.ref == UnavailableRef(other) {
        SentinelIsZero(attemptId);
        SentinelIsZero(other);
        FormatIsInjective(attemptId, 0, 0, other, 0, 0);
      }
    case Some(roster) =>
      match RoleOf(roster, attemptId)
      case None =>
      case Some(role) =>
        var key := KeyFor(role, attemptId);
        LastEntryIsReal(rows, key);
        var last := LastEntry(rows, key);
        if last.Some? {
          SentinelNeverCollides(other, attemptId, last.value.generation, last.value.ordinal);
          SentinelNeverCollides(other, attemptId, last.value.generation, last.value.ordinal + 1);
        }
        SentinelNeverCollides(other, attemptId, Generation(rows), Occurrences(rows, key, Generation(rows)) + 1);
  }

  /** A record that ends the attempt, or the aggregation if that is its role. */
  predicate Ends(row: Row, role: Role, attemptId: string) {
    && row.Finished? && row.status.Some?
    && (if role == Aggregator then row.aggregation else !row.aggregation && row.attemptId == Some(attemptId))
  }

  /**
   * A terminal record is what is reported from then on, unless it announces a retry of a live run: as a
   * success with its output, or as a failure, or as a cancellation if its code says so, without output.
   */
  lemma {:induction false} TerminalIsReported(
    rows: seq<Row>, row: Row, attemptId: string, role: Role, live: Option<Live>, runActive: bool)
    requires LastRoster(rows).Some? && RoleOf(LastRoster(rows).value, attemptId) == Some(role)
    requires Ends(row, role, attemptId)
    ensures var key := if role == Aggregator then "aggregation.finished" else attemptId;
            var (generation, ordinal) := (Generation(rows), Occurrences(rows, key, Generation(rows)) + 1);
            var r := Resolve(rows + [row], attemptId, live, runActive);
            if runActive && row.willRetry
            then r == Inflight(role, Format(attemptId, generation, ordinal + 1), Running)
            else
              && r.Terminal? && r.role == role && r.ref == Format(attemptId, generation, ordinal) && r.reusedRef == None
              && (row.status == Some(Success) ==>
                    r.status == TerminalSuccess && r.output == row.output && r.failure == None)
              && (row.status == Some(Failed) ==>
                    && r.output == None && r.failure == row.failure
                    && r.status == if row.failure.Some? && (row.failure.value.code == "CANCELLED"
                                                            || row.failure.value.code == "ABORTED")
                                   then TerminalCancelled else TerminalFailure)
  {
    assert Init(rows + [row]) == rows && Last(rows + [row]) == row;
    LastResumeIsWithin(rows);
    hide Occurrences, Resumes, Format;
  }

  /**
   * Without a terminal record since the last resume, and none that this reuses, a live run's attempt is in
   * flight, running or queued as the run says and else pending; in any other run there is no record of it.
   */
  lemma {:induction false} WithoutRecordIsReported(
    rows: seq<Row>, reused: set<string>, since: seq<Row>, resumed: bool, attemptId: string, role: Role,
    live: Option<Live>, runActive: bool)
    requires var all := if resumed then rows + [Resumed(reused)] + since else since;
             && LastRoster(all).Some? && RoleOf(LastRoster(all).value, attemptId) == Some(role)
    requires NoneOf(since, KeyFor(role, attemptId)) && Resumes(since) == 0
    requires resumed && role == Attempt ==>
               attemptId !in reused || LastEntry(rows, attemptId) == None
               || LastEntry(rows, attemptId).value.row.status != Some(Success)
    ensures var all := if resumed then rows + [Resumed(reused)] + since else since;
            var r := Resolve(all, attemptId, live, runActive);
            if runActive && live != Some(LiveSuccess) && live != Some(LiveFailure) && live != Some(LiveCancelled)
            then
              && r.Inflight? && r.role == role
              && (r.inflight == Running <==> live == Some(LiveRunning))
              && (r.inflight == Queued <==> live == Some(LiveQueued))
            else r.Unavailable? && r.unavailableRole == Some(role) && r.reason == NoExecutionRecord
  {
    var key := KeyFor(role, attemptId);
    var all := if resumed then rows + [Resumed(reused)] + since else since;
    NothingSince(since, key);
    if resumed {
      var before := rows + [Resumed(reused)];
      assert Init(before) == rows && Last(before) == Resumed(reused);
      NothingNew(before, since, key);
      LastEntryIsWithin(rows, key);
    }
    hide Occurrences, Resumes, Format, RoleOf;
  }

  lemma {:induction false} LastEntryIsWithin(rows: seq<Row>, key: string)
    ensures LastEntry(rows, key).Some? ==> LastEntry(rows, key).value.index < |rows|
  {
  }

  lemma {:induction false} NothingSince(since: seq<Row>, key: string)
    requires NoneOf(since, key) && Resumes(since) == 0
    ensures LastEntry(since, key) == None && LastResume(since) == None
  {
    if since != [] {
      assert KeyOf(Last(since)) != Some(key);
      NothingSince(Init(since), key);
    }
  }

  lemma {:induction false} NothingNew(rows: seq<Row>, since: seq<Row>, key: string)
    requires NoneOf(since, key) && Resumes(since) == 0
    ensures LastEntry(rows + since, key) == LastEntry(rows, key) && LastResume(rows + since) == LastResume(rows)
  {
    if since == [] {
      assert rows + since == rows;
    } else {
      assert Init(rows + since) == rows + Init(since) && Last(rows + since) == Last(since);
      assert KeyOf(Last(since)) != Some(key);
      NothingNew(rows, Init(since), key);
    }
  }

  /**
   * Whose roster counts: the newest one. An attempt it does not name is unknown; one it names as aggregator
   * is reported in that role, any other as an attempt.
   */
  lemma {:induction false} NewestRosterDecides(
    rows: seq<Row>, roster: Roster, since: seq<Row>, attemptId: string, live: Option<Live>, runActive: bool)
    requires forall i | 0 <= i < |since| :: !since[i].Started?
    ensures var r := Resolve(rows + [Started(roster)] + since, attemptId, live, runActive);
            && (r.UnknownAttempt? <==> roster.aggregator != Some(attemptId) && attemptId !in roster.attemptIds)
            && (r.Inflight? || r.Terminal? ==>
                  r.role == if roster.aggregator == Some(attemptId) then Aggregator else Attempt)
            && (r.Unavailable? ==>
                  r.unavailableRole == Some(if roster.aggregator == Some(attemptId) then Aggregator else Attempt))
  {
    RosterStays(rows, roster, since);
    hide Occurrences, Resumes, LastRoster, LastEntry, LastResume, Format;
  }

  lemma {:induction false} RosterStays(rows: seq<Row>, roster: Roster, since: seq<Row>)
    requires forall i | 0 <= i < |since| :: !since[i].Started?
    ensures LastRoster(rows + [Started(roster)] + since) == Some(roster)
  {
    var all := rows + [Started(roster)] + since;
    if since == [] {
      assert Last(all) == Started(roster);
    } else {
      assert Init(all) == rows + [Started(roster)] + Init(since) && Last(all) == Last(since);
      RosterStays(rows, roster, Init(since));
    }
  }

  /** The records of a key in a generation, by their positions. */
  function Positions(rows: seq<Row>, key: string, generation: nat): set<nat> {
    set i: nat | i < |rows| && KeyOf(rows[i]) == Some(key) && Generation(rows[..i]) == generation
  }

  function ResumePositions(rows: seq<Row>): set<nat> {
    set i: nat | i < |rows| && rows[i].Resumed?
  }

  lemma {:induction false} ResumesCount(rows: seq<Row>)
    ensures Resumes(rows) == |ResumePositions(rows)|
  {
    if rows != [] {
      var (before, n) := (Init(rows), |rows| - 1);
      ResumesCount(before);
      assert ResumePositions(rows) == ResumePositions(before) + if rows[n].Resumed? then {n} else {};
    }
  }

  lemma {:induction false} PositionsOfOneMore(rows: seq<Row>, row: Row, key: string, generation: nat)
    ensures Positions(rows + [row], key, generation) == Positions(rows, key, generation) +
            if KeyOf(row) == Some(key) && Generation(rows) == generation then {|rows|} else {}
  {
    hide Generation, KeyOf;
    var all := rows + [row];
    assert all[..|rows|] == rows;
    assert forall i: nat | i < |rows| :: all[..i] == rows[..i] && all[i] == rows[i];
  }

  /** Generations count the resumes so far, and ordinals the terminal records of a key in a generation. */
  lemma {:induction false} IdentitiesCount(rows: seq<Row>, key: string, generation: nat)
    ensures Generation(rows) == 1 + |ResumePositions(rows)|
    ensures Occurrences(rows, key, generation) == |Positions(rows, key, generation)|
  {
    hide Generation, Positions, KeyOf, ResumePositions;
    GenerationCounts(rows);
    if rows == [] {
      NoPositions(key, generation);
    } else {
      IdentitiesCount(Init(rows), key, generation);
      assert rows == Init(rows) + [Last(rows)];
      PositionsOfOneMore(Init(rows), Last(rows), key, generation);
      PositionsAreWithin(Init(rows), key, generation);
    }
  }

  lemma GenerationCounts(rows: seq<Row>)
    ensures Generation(rows) == 1 + |ResumePositions(rows)|
  {
    ResumesCount(rows);
  }

  lemma NoPositions(key: string, generation: nat)
    ensures Positions([], key, generation) == {}
  {
  }

  lemma PositionsAreWithin(rows: seq<Row>, key: string, generation: nat)
    ensures |rows| !in Positions(rows, key, generation)
  {
  }

  /** A resume that reuses a successful attempt reports that execution, by its own reference. */
  lemma {:induction false} ReuseIsReported(
    rows: seq<Row>, reused: set<string>, attemptId: string, live: Option<Live>, runActive: bool)
    requires LastRoster(rows).Some? && RoleOf(LastRoster(rows).value, attemptId) == Some(Attempt)
    requires attemptId in reused
    requires LastEntry(rows, attemptId).Some? && LastEntry(rows, attemptId).value.row.status == Some(Success)
    ensures var e := LastEntry(rows, attemptId).value;
            && e in Entries(rows)
            && Resolve(rows + [Resumed(reused)], attemptId, live, runActive) ==
               Terminal(Attempt, Format(attemptId, e.generation, e.ordinal), TerminalSuccess, e.row.output, None,
                        Some(Format(attemptId, e.generation, e.ordinal)))
  {
    var all := rows + [Resumed(reused)];
    assert Init(all) == rows && Last(all) == Resumed(reused);
    LastEntryIsEntry(rows, attemptId);
    hide Occurrences, Resumes, Format, Entries;
  }

  lemma {:induction false} LastEntryIsEntry(rows: seq<Row>, key: string)
    ensures LastEntry(rows, key).Some? ==> LastEntry(rows, key).value in Entries(rows)
  {
    if rows != [] { LastEntryIsEntry(Init(rows), key); }
  }
}
