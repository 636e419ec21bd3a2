/** The displayed problems: sidecar groups, inferred duplicates, and the merge of explicit references. */
module FindingList {
  import opened Options
  import opened Components
  import Groups = FindingGroups

  datatype Origin = Sidecar | Inferred | Singleton

  datatype Problem = Problem(
    key: string,
    severity: Severity,
    blocking: bool,
    pending: bool,
    resolved: bool,
    members: seq<Finding>,
    origin: Origin)

  /** The two display orders; sorting by them is stable. */
  datatype Orders = Orders(finding: (Finding, Finding) -> bool, problem: (Problem, Problem) -> bool)

  predicate IsFindingBlocking(f: Finding) {
    if f.severity != Critical && f.severity != Major then false
    else if f.status == Accepted || f.verifiedClosed then false
    else match f.contractClass
      case OutOfSpec => false
      case InContract => f.actOnFooting
      case Unclassified => true
  }

  predicate IsSettled(f: Finding) {
    f.verifiedClosed || f.status == Accepted
  }

  /**
   * What blocks: a critical or major finding that is neither accepted nor verified as closed, unless it is
   * out of the contract, or in it without being one to act on.
   */
  lemma BlocksIff(f: Finding)
    ensures IsFindingBlocking(f) <==>
            && (f.severity == Critical || f.severity == Major) && !IsSettled(f)
            && (f.contractClass == InContract ==> f.actOnFooting) && f.contractClass != OutOfSpec
    ensures IsSettled(f) <==> f.verifiedClosed || f.status == Accepted
  {
  }

  // ---------------------------------------------------------------------------------------------
  // Sorting
  // ---------------------------------------------------------------------------------------------

  function InsertBy<T>(before: (T, T) -> bool, x: T, s: seq<T>): seq<T> {
    if s == [] then [x]
    else if before(s[0], x) then [s[0]] + InsertBy(before, x, s[1..])
    else [x] + s
  }

  /** Stable: an element moves in front of another only if it comes strictly before it. */
  function SortBy<T>(before: (T, T) -> bool, s: seq<T>): seq<T> {
    if s == [] then [] else InsertBy(before, s[0], SortBy(before, s[1..]))
  }

  lemma {:induction false} InsertKeepsElements<T>(before: (T, T) -> bool, x: T, s: seq<T>)
    ensures multiset(InsertBy(before, x, s)) == multiset{x} + multiset(s)
  {
    if s != [] && before(s[0], x) {
      InsertKeepsElements(before, x, s[1..]);
      assert s == [s[0]] + s[1..];
    }
  }

  lemma {:induction false} SortKeepsElements<T>(before: (T, T) -> bool, s: seq<T>)
    ensures multiset(SortBy(before, s)) == multiset(s)
  {
    if s != [] {
      SortKeepsElements(before, s[1..]);
      InsertKeepsElements(before, s[0], SortBy(before, s[1..]));
      assert s == [s[0]] + s[1..];
    }
  }

  /** What a comparison must be for sorting by it to mean something. */
  ghost predicate IsOrder<T(!new)>(before: (T, T) -> bool) {
    && (forall a, b :: before(a, b) ==> !before(b, a))
    && (forall a, b, c :: before(a, c) ==> before(a, b) || before(b, c))
  }

  ghost predicate Sorted<T>(before: (T, T) -> bool, s: seq<T>) {
    forall i, j | 0 <= i < j < |s| :: !before(s[j], s[i])
  }

  lemma {:induction false} InsertKeepsSorted<T(!new)>(before: (T, T) -> bool, x: T, s: seq<T>)
    requires IsOrder(before) && Sorted(before, s)
    ensures Sorted(before, InsertBy(before, x, s))
  {
    if s != [] && before(s[0], x) {
      InsertKeepsSorted(before, x, s[1..]);
      InsertKeepsElements(before, x, s[1..]);
      var rest := InsertBy(before, x, s[1..]);
      forall j | 0 <= j < |rest| ensures !before(rest[j], s[0]) {
        assert rest[j] in multiset(rest);
        if rest[j] != x { assert rest[j] in s[1..]; }
      }
    }
  }

  lemma {:induction false} SortSorts<T(!new)>(before: (T, T) -> bool, s: seq<T>)
    requires IsOrder(before)
    ensures Sorted(before, SortBy(before, s))
  {
    if s != [] {
      SortSorts(before, s[1..]);
      InsertKeepsSorted(before, s[0], SortBy(before, s[1..]));
    }
  }

  /** Those a comparison does not tell from `y`. */
  function Peers<T>(before: (T, T) -> bool, y: T, s: seq<T>): seq<T> {
    if s == [] then []
    else (if !before(s[0], y) && !before(y, s[0]) then [s[0]] else []) + Peers(before, y, s[1..])
  }

  lemma {:induction false} InsertIsStable<T(!new)>(before: (T, T) -> bool, x: T, s: seq<T>, y: T)
    requires IsOrder(before)
    ensures Peers(before, y, InsertBy(before, x, s)) == Peers(before, y, [x] + s)
  {
    assert ([x] + s)[1..] == s;
    if s != [] && before(s[0], x) {
      InsertIsStable(before, x, s[1..], y);
      assert ([x] + s[1..])[1..] == s[1..];
      assert ([s[0]] + InsertBy(before, x, s[1..]))[1..] == InsertBy(before, x, s[1..]);
    }
  }

  /** Sorting leaves those it does not tell apart in the order they had. */
  lemma {:induction false} SortIsStable<T(!new)>(before: (T, T) -> bool, s: seq<T>, y: T)
    requires IsOrder(before)
    ensures Peers(before, y, SortBy(before, s)) == Peers(before, y, s)
  {
    if s != [] {
      SortIsStable(before, s[1..], y);
      InsertIsStable(before, s[0], SortBy(before, s[1..]), y);
      assert ([s[0]] + SortBy(before, s[1..]))[1..] == SortBy(before, s[1..]);
    }
  }

  // ---------------------------------------------------------------------------------------------
  // Problems
  // ---------------------------------------------------------------------------------------------

  function Rank(s: Severity): nat {
    match s case Critical => 0 case Major => 1 case Minor => 2 case Nit => 3
  }

  function HighestSeverity(members: seq<Finding>): Severity {
    if members == [] then Nit
    else
      var rest := HighestSeverity(members[1..]);
      if Rank(members[0].severity) < Rank(rest) then members[0].severity else rest
  }

  predicate Has(members: seq<Finding>, severity: Severity) {
    exists f | f in members :: f.severity == severity
  }

  /** The first of critical, major and minor that some member has, or else the lowest. */
  predicate IsHighest(severity: Severity, members: seq<Finding>) {
    severity == if Has(members, Critical) then Critical else if Has(members, Major) then Major
                else if Has(members, Minor) then Minor else Nit
  }

  lemma {:induction false} HighestSeverityIs(members: seq<Finding>)
    ensures IsHighest(HighestSeverity(members), members)
  {
    if members != [] {
      HighestSeverityIs(members[1..]);
      assert members == [members[0]] + members[1..];
    }
  }

  function ToProblem(orders: Orders, members: seq<Finding>, key: string, origin: Origin): Problem {
    var ordered := SortBy(orders.finding, members);
    var settled := forall f | f in ordered :: IsSettled(f);
    Problem(key, HighestSeverity(ordered), exists f | f in ordered :: IsFindingBlocking(f),
            !settled, settled, ordered, origin)
  }

  /** A problem's flags are those of its members, and its severity is the highest of theirs. */
  predicate Summarizes(p: Problem) {
    && IsHighest(p.severity, p.members)
    && (p.blocking <==> exists f | f in p.members :: IsFindingBlocking(f))
    && (p.resolved <==> forall f | f in p.members :: IsSettled(f))
    && p.pending == !p.resolved
  }

  lemma {:induction false} ToProblemKeepsMembers(orders: Orders, members: seq<Finding>, key: string, origin: Origin)
    ensures var p := ToProblem(orders, members, key, origin);
            && multiset(p.members) == multiset(members) && Summarizes(p) && InOrder(orders, p)
            && p.key == key && p.origin == origin
  {
    SortKeepsElements(orders.finding, members);
    HighestSeverityIs(SortBy(orders.finding, members));
    if IsOrder(orders.finding) { SortSorts(orders.finding, members); }
  }

  function MembersOf(problems: seq<Problem>): seq<seq<Finding>> {
    seq(|problems|, i requires 0 <= i < |problems| => problems[i].members)
  }

  ghost predicate AllSummarize(problems: seq<Problem>) {
    forall i | 0 <= i < |problems| :: Summarizes(problems[i])
  }

  /** The members of a problem stand in display order, if that is an order. */
  ghost predicate InOrder(orders: Orders, p: Problem) {
    IsOrder(orders.finding) ==> Sorted(orders.finding, p.members)
  }

  ghost predicate AllInOrder(orders: Orders, problems: seq<Problem>) {
    forall i | 0 <= i < |problems| :: InOrder(orders, problems[i])
  }

  // ---------------------------------------------------------------------------------------------
  // Inferred duplicates
  // ---------------------------------------------------------------------------------------------

  predicate IsProvenDuplicate(h: Heuristics, left: Finding, right: Finding) {
    left.id == right.id || CrossReference(h, left, right) || h.similar(left, right)
  }

  /** Each later member was proven a duplicate of every earlier one. */
  ghost predicate PairwiseDuplicates(h: Heuristics, group: seq<Finding>) {
    forall i, j | 0 <= i < j < |group| ::
      || group[i].id == group[j].id || h.similar(group[i], group[j])
      || h.refersTo(group[i], group[j].id) || h.refersTo(group[j], group[i].id)
  }

  lemma {:induction false} JoinHost(groups: seq<seq<Finding>>, host: nat, row: Finding)
    requires host < |groups|
    ensures Bag(groups[host := groups[host] + [row]]) == Bag(groups) + multiset{row}
  {
    var grown := groups[host := groups[host] + [row]];
    BagAround(groups, host);
    BagAround(grown, host);
    assert grown[..host] == groups[..host] && grown[host + 1..] == groups[host + 1..];
  }

  lemma {:induction false} NewGroup(groups: seq<seq<Finding>>, row: Finding)
    ensures Bag(groups + [[row]]) == Bag(groups) + multiset{row}
  {
    BagOfConcat(groups, [[row]]);
    assert [[row]][1..] == [];
  }

  lemma DuplicatesGrow(h: Heuristics, group: seq<Finding>, row: Finding)
    requires PairwiseDuplicates(h, group) && forall m | m in group :: IsProvenDuplicate(h, m, row)
    ensures PairwiseDuplicates(h, group + [row])
  {
    assert forall i | 0 <= i < |group| :: group[i] in group && IsProvenDuplicate(h, group[i], row);
  }

  predicate Takes(h: Heuristics, group: seq<Finding>, row: Finding) {
    forall m | m in group :: IsProvenDuplicate(h, m, row)
  }

  /** The first group all of whose members are proven duplicates of the row. */
  function FirstHost(h: Heuristics, groups: seq<seq<Finding>>, row: Finding): (host: nat)
    ensures host <= |groups|
    ensures host < |groups| ==> Takes(h, groups[host], row)
    ensures forall i | 0 <= i < host :: !Takes(h, groups[i], row)
  {
    if groups == [] || Takes(h, groups[0], row) then 0 else 1 + FirstHost(h, groups[1..], row)
  }

  /** A row joins the first group that takes it, or founds one. */
  function Joined(h: Heuristics, groups: seq<seq<Finding>>, row: Finding): seq<seq<Finding>> {
    var host := FirstHost(h, groups, row);
    if host < |groups| then groups[host := groups[host] + [row]] else groups + [[row]]
  }

  /** The groups of the ledger, row by row. */
  function Greedy(h: Heuristics, findings: seq<Finding>): seq<seq<Finding>> {
    if findings == [] then []
    else Joined(h, Greedy(h, findings[..|findings| - 1]), findings[|findings| - 1])
  }

  /** Some member has another id, no similar text and no reference to or from the row. */
  predicate HoldsStranger(h: Heuristics, group: seq<Finding>, row: Finding) {
    exists m | m in group ::
      m.id != row.id && !h.similar(m, row) && !h.refersTo(m, row.id) && !h.refersTo(row, m.id)
  }

  /** No group could have taken the founder of a later one. */
  ghost predicate Unjoinable(h: Heuristics, groups: seq<seq<Finding>>) {
    forall i, j | 0 <= i < j < |groups| && groups[j] != [] :: HoldsStranger(h, groups[i], groups[j][0])
  }

  /**
   * Inferred groups are a partition into sets of proven duplicates, and no group could have taken in
   * the founder of a later one.
   */
  lemma {:induction false} GreedyGroups(h: Heuristics, findings: seq<Finding>)
    ensures var groups := Greedy(h, findings);
            && Bag(groups) == multiset(findings) && Unjoinable(h, groups)
            && forall k | 0 <= k < |groups| :: groups[k] != [] && PairwiseDuplicates(h, groups[k])
  {
    if findings != [] {
      var n := |findings| - 1;
      var (groups, row) := (Greedy(h, findings[..n]), findings[n]);
      GreedyGroups(h, findings[..n]);
      assert findings == findings[..n] + [row];
      GreedyStep(h, groups, row);
    }
  }

  lemma {:induction false} GreedyStep(h: Heuristics, groups: seq<seq<Finding>>, row: Finding)
    requires Unjoinable(h, groups)
    requires forall k | 0 <= k < |groups| :: groups[k] != [] && PairwiseDuplicates(h, groups[k])
    ensures var more := Joined(h, groups, row);
            && Bag(more) == Bag(groups) + multiset{row} && Unjoinable(h, more)
            && forall k | 0 <= k < |more| :: more[k] != [] && PairwiseDuplicates(h, more[k])
  {
    hide Bag, PairwiseDuplicates, IsProvenDuplicate, FirstHost, Unjoinable;
    var host := FirstHost(h, groups, row);
    if host < |groups| {
      JoinHost(groups, host, row);
      DuplicatesGrow(h, groups[host], row);
      HostKeepsUnjoinable(h, groups, host, row);
    } else {
      NewGroup(groups, row);
      OneIsPairwise(h, row);
      NewGroupKeepsUnjoinable(h, groups, row);
    }
  }

  lemma {:induction false} HostKeepsUnjoinable(h: Heuristics, groups: seq<seq<Finding>>, host: nat, row: Finding)
    requires Unjoinable(h, groups) && host < |groups| && groups[host] != []
    ensures Unjoinable(h, groups[host := groups[host] + [row]])
  {
    var more := groups[host := groups[host] + [row]];
    forall i, j | 0 <= i < j < |more| && more[j] != [] ensures HoldsStranger(h, more[i], more[j][0]) {
      assert HoldsStranger(h, groups[i], groups[j][0]);
    }
  }

  lemma {:induction false} NewGroupKeepsUnjoinable(h: Heuristics, groups: seq<seq<Finding>>, row: Finding)
    requires Unjoinable(h, groups) && forall i | 0 <= i < |groups| :: !Takes(h, groups[i], row)
    ensures Unjoinable(h, groups + [[row]])
  {
  }

  lemma OneIsPairwise(h: Heuristics, row: Finding)
    ensures PairwiseDuplicates(h, [row])
  {
  }

  method InferDuplicateGroups(h: Heuristics, findings: seq<Finding>) returns (groups: seq<seq<Finding>>)
    ensures groups == Greedy(h, findings)
  {
    groups := [];
    for n := 0 to |findings|
      invariant groups == Greedy(h, findings[..n])
    {
      var row := findings[n];
      assert findings[..n + 1][..n] == findings[..n];
      var host := 0;
      while host < |groups| && !Takes(h, groups[host], row)
        invariant 0 <= host <= |groups|
        invariant forall i | 0 <= i < host :: !Takes(h, groups[i], row)
      {
        host := host + 1;
      }
      assert host == FirstHost(h, groups, row);
      if host < |groups| {
        groups := groups[host := groups[host] + [row]];
      } else {
        groups := groups + [[row]];
      }
    }
    assert findings[..|findings|] == findings;
  }

  // ---------------------------------------------------------------------------------------------
  // What a problem was put together from
  // ---------------------------------------------------------------------------------------------

  /** The members of the chosen problems. */
  function Chosen(start: seq<Problem>, part: seq<nat>): seq<seq<Finding>>
    requires forall i | 0 <= i < |part| :: part[i] < |start|
  {
    seq(|part|, i requires 0 <= i < |part| => start[part[i]].members)
  }

  /**
   * Problem `p` holds the members of the problems `part` of the start, under the key of one of them. One
   * that nothing joined is unchanged; one with a sidecar group in it is a sidecar group.
   */
  ghost predicate MadeFrom(start: seq<Problem>, part: seq<nat>, p: Problem) {
    && part != [] && (forall i | 0 <= i < |part| :: part[i] < |start|)
    && multiset(p.members) == Bag(Chosen(start, part))
    && (|part| == 1 ==> p == start[part[0]])
    && (|part| > 1 ==> p.origin != Singleton)
    && (exists i | 0 <= i < |part| :: start[part[i]].key == p.key)
    && (p.origin == Sidecar <==> exists i | 0 <= i < |part| :: start[part[i]].origin == Sidecar)
  }

  /** The first number of a part is its least. */
  ghost predicate PartOk(part: seq<nat>, n: nat) {
    part != [] && forall k | k in part :: part[0] <= k < n
  }

  ghost predicate Apart(a: seq<nat>, b: seq<nat>)
    requires a != [] && b != []
  {
    a[0] < b[0] && forall k | k in a :: k !in b
  }

  predicate InPart(parts: seq<seq<nat>>, k: nat) {
    exists i | 0 <= i < |parts| :: k in parts[i]
  }

  /** The parts share out the numbers below `n`, and stand in the order of their first ones. */
  ghost predicate PartsOk(parts: seq<seq<nat>>, n: nat) {
    && (forall i | 0 <= i < |parts| :: PartOk(parts[i], n))
    && (forall k | 0 <= k < n :: InPart(parts, k))
    && (forall i, j | 0 <= i < j < |parts| :: Apart(parts[i], parts[j]))
  }

  ghost predicate AllMade(start: seq<Problem>, parts: seq<seq<nat>>, problems: seq<Problem>) {
    && |parts| == |problems| && PartsOk(parts, |start|)
    && forall i | 0 <= i < |parts| :: MadeFrom(start, parts[i], problems[i])
  }

  lemma {:induction false} StartIsMade(start: seq<Problem>) returns (parts: seq<seq<nat>>)
    ensures AllMade(start, parts, start)
  {
    parts := seq(|start|, i requires 0 <= i < |start| => [i]);
    forall i | 0 <= i < |parts| ensures MadeFrom(start, parts[i], start[i]) {
      assert Chosen(start, [i]) == [start[i].members] && [start[i].members][1..] == [];
      assert parts[i] == [i] && parts[i][0] == i;
    }
    forall k | 0 <= k < |start| ensures InPart(parts, k) {
      assert k in parts[k];
    }
  }

  lemma {:induction false} JoinedIsMade(
    start: seq<Problem>, a: seq<nat>, b: seq<nat>, left: Problem, right: Problem, joined: Problem)
    requires MadeFrom(start, a, left) && MadeFrom(start, b, right)
    requires multiset(joined.members) == multiset(left.members) + multiset(right.members)
    requires joined.key == left.key || joined.key == right.key
    requires joined.origin == if left.origin == Sidecar || right.origin == Sidecar then Sidecar else Inferred
    ensures MadeFrom(start, a + b, joined)
  {
    var both := a + b;
    assert forall i | 0 <= i < |a| :: both[i] == a[i];
    assert forall i | 0 <= i < |b| :: both[|a| + i] == b[i];
    assert Chosen(start, both) == Chosen(start, a) + Chosen(start, b);
    BagOfConcat(Chosen(start, a), Chosen(start, b));
  }

  function MergeParts(parts: seq<seq<nat>>, i: nat, j: nat): seq<seq<nat>>
    requires i < j < |parts|
  {
    parts[i := parts[i] + parts[j]][..j] + parts[j + 1..]
  }

  lemma PartsJoin(a: seq<nat>, b: seq<nat>, n: nat)
    requires PartOk(a, n) && PartOk(b, n) && Apart(a, b)
    ensures PartOk(a + b, n)
    ensures forall c | PartOk(c, n) && Apart(c, a) && Apart(c, b) :: Apart(c, a + b)
    ensures forall c | PartOk(c, n) && Apart(a, c) && (Apart(b, c) || Apart(c, b)) :: Apart(a + b, c)
  {
  }

  lemma {:induction false} MergedPartsAreOk(parts: seq<seq<nat>>, n: nat, i: nat, j: nat)
    requires PartsOk(parts, n) && i < j < |parts|
    ensures PartsOk(MergeParts(parts, i, j), n)
  {
    var merged := MergeParts(parts, i, j);
    var joined := parts[i] + parts[j];
    assert |merged| == |parts| - 1 && merged[i] == joined;
    assert forall m | 0 <= m < j && m != i :: merged[m] == parts[m];
    assert forall m | j <= m < |merged| :: merged[m] == parts[m + 1];
    forall k | 0 <= k < n ensures InPart(merged, k) {
      assert InPart(parts, k);
      var m :| 0 <= m < |parts| && k in parts[m];
      assert k in merged[if m == j then i else if m < j then m else m - 1];
    }
    PartsJoin(parts[i], parts[j], n);
    hide PartOk, Apart, InPart;
    forall a, b | 0 <= a < b < |merged| ensures Apart(merged[a], merged[b]) {
      assert Apart(parts[Before(j, a)], parts[Before(j, b)]);
      if a == i {
        assert if b < j then Apart(parts[b], parts[j]) else Apart(parts[j], parts[b + 1]);
      } else if b == i {
        assert Apart(parts[a], parts[i]) && Apart(parts[a], parts[j]);
      }
    }
  }

  /** Where a group stood before group `j` was spliced out. */
  function Before(j: nat, m: nat): nat {
    if m < j then m else m + 1
  }

  lemma {:induction false} SpliceIsMade(
    start: seq<Problem>, parts: seq<seq<nat>>, problems: seq<Problem>, i: nat, j: nat, joined: Problem)
    requires AllMade(start, parts, problems) && i < j < |problems|
    requires MadeFrom(start, parts[i] + parts[j], joined)
    ensures AllMade(start, MergeParts(parts, i, j), problems[i := joined][..j] + problems[j + 1..])
  {
    MergedPartsAreOk(parts, |start|, i, j);
    hide PartsOk, MadeFrom;
    var (mergedParts, merged) := (MergeParts(parts, i, j), problems[i := joined][..j] + problems[j + 1..]);
    forall m | 0 <= m < |merged| ensures MadeFrom(start, mergedParts[m], merged[m]) {
      if m != i { assert MadeFrom(start, parts[Before(j, m)], problems[Before(j, m)]); }
    }
  }

  // ---------------------------------------------------------------------------------------------
  // Merging explicit references, in place
  // ---------------------------------------------------------------------------------------------

  /** Groups in front of `limit` neither refer to nor are referred to by any other group. */
  ghost predicate SettledUpTo(h: Heuristics, groups: seq<seq<Finding>>, limit: nat) {
    forall i, j | 0 <= i < |groups| && 0 <= j < |groups| && i != j && i < limit ::
      !Refers(h, groups[i], groups[j]) && !Refers(h, groups[j], groups[i])
  }

  lemma {:induction false} MergeKeepsSettled(
    h: Heuristics, groups: seq<seq<Finding>>, i: nat, j: nat, joined: seq<Finding>)
    requires SettledUpTo(h, groups, i) && i < j < |groups|
    requires multiset(joined) == multiset(groups[i]) + multiset(groups[j])
    ensures SettledUpTo(h, MergeAt(groups, i, j, joined), i)
  {
    var merged := MergeAt(groups, i, j, joined);
    forall k, m | 0 <= k < |merged| && 0 <= m < |merged| && k != m && k < i
      ensures !Refers(h, merged[k], merged[m]) && !Refers(h, merged[m], merged[k])
    {
      assert merged[k] == groups[k];
      forall a: Finding, b: Finding | a in merged[k] && b in merged[m]
        ensures !h.refersTo(a, b.id) && !h.refersTo(b, a.id)
      {
        MergeOrigin(groups, i, j, joined, m, b);
        var o := if m == i then (if b in groups[i] then i else j) else if m < j then m else m + 1;
        assert b in groups[o] && o != k;
        assert !Refers(h, groups[k], groups[o]) && !Refers(h, groups[o], groups[k]);
      }
    }
  }

  method MergeExplicitReferences(h: Heuristics, orders: Orders, problems: seq<Problem>)
    returns (merged: seq<Problem>, ghost parts: seq<seq<nat>>)
    requires AllSummarize(problems) && AllInOrder(orders, problems)
    ensures AllSummarize(merged) && AllInOrder(orders, merged)
    ensures AllMade(problems, parts, merged)
    ensures Bag(MembersOf(merged)) == Bag(MembersOf(problems))
    ensures GroupsConnected(h, MembersOf(problems), MembersOf(merged))
    ensures Coarser(MembersOf(problems), MembersOf(merged))
    ensures NoReferenceAcross(h, MembersOf(merged))
  {
    merged := problems;
    ghost var initial := MembersOf(problems);
    InitialGroupsConnected(h, initial);
    parts := StartIsMade(problems);
    hide Bag, GroupsConnected, Coarser, AllSummarize, AllInOrder, Refers, AllMade;
    var leftIndex := 0;
    while leftIndex < |merged|
      invariant 0 <= leftIndex <= |merged|
      invariant AllSummarize(merged) && AllInOrder(orders, merged) && AllMade(problems, parts, merged)
      invariant Bag(MembersOf(merged)) == Bag(initial)
      invariant GroupsConnected(h, initial, MembersOf(merged)) && Coarser(initial, MembersOf(merged))
      invariant SettledUpTo(h, MembersOf(merged), leftIndex)
      decreases |merged|, |merged| - leftIndex
    {
      var left := merged[leftIndex];
      var rightIndex := leftIndex + 1;
      while rightIndex < |merged| &&
            !Refers(h, left.members, merged[rightIndex].members) && !Refers(h, merged[rightIndex].members, left.members)
        invariant leftIndex < rightIndex <= |merged|
        invariant forall j | leftIndex < j < rightIndex ::
                    !Refers(h, left.members, merged[j].members) && !Refers(h, merged[j].members, left.members)
      {
        rightIndex := rightIndex + 1;
      }
      if rightIndex < |merged| {
        merged, parts := MergePair(h, orders, problems, merged, leftIndex, rightIndex, parts);
      } else {
        leftIndex := leftIndex + 1;
      }
    }
  }

  /** The right problem joins the left one and is spliced out. */
  method MergePair(
    h: Heuristics, orders: Orders, ghost start: seq<Problem>, problems: seq<Problem>, i: nat, j: nat,
    ghost parts: seq<seq<nat>>)
    returns (merged: seq<Problem>, ghost mergedParts: seq<seq<nat>>)
    requires i < j < |problems| && AllSummarize(problems) && AllMade(start, parts, problems)
    requires AllInOrder(orders, problems)
    requires Refers(h, problems[i].members, problems[j].members) || Refers(h, problems[j].members, problems[i].members)
    requires Bag(MembersOf(problems)) == Bag(MembersOf(start))
    requires GroupsConnected(h, MembersOf(start), MembersOf(problems)) && Coarser(MembersOf(start), MembersOf(problems))
    requires SettledUpTo(h, MembersOf(problems), i)
    ensures |merged| == |problems| - 1 && AllSummarize(merged) && AllMade(start, mergedParts, merged)
    ensures AllInOrder(orders, merged)
    ensures Bag(MembersOf(merged)) == Bag(MembersOf(start))
    ensures GroupsConnected(h, MembersOf(start), MembersOf(merged)) && Coarser(MembersOf(start), MembersOf(merged))
    ensures SettledUpTo(h, MembersOf(merged), i)
  {
    hide Bag, GroupsConnected, Coarser, SettledUpTo, Summarizes, InOrder, AllMade, ToProblem, Refers, MembersOf;
    var (left, right) := (problems[i], problems[j]);
    var leftRefersRight := Refers(h, left.members, right.members);
    var key := if leftRefersRight then right.key else left.key;
    var origin := if left.origin == Sidecar || right.origin == Sidecar then Sidecar else Inferred;
    var joined := ToProblem(orders, left.members + right.members, key, origin);
    merged := problems[i := joined][..j] + problems[j + 1..];
    ToProblemKeepsMembers(orders, left.members + right.members, key, origin);
    assert multiset(left.members + right.members) == multiset(left.members) + multiset(right.members);
    PartsAreMade(start, parts, problems);
    mergedParts := MergeParts(parts, i, j);
    JoinedIsMade(start, parts[i], parts[j], left, right, joined);
    SpliceIsMade(start, parts, problems, i, j, joined);
    SpliceMembers(orders, problems, i, j, joined);
    MergeKeepsAll(h, MembersOf(start), MembersOf(problems), i, j, joined.members);
  }

  lemma PartsAreMade(start: seq<Problem>, parts: seq<seq<nat>>, problems: seq<Problem>)
    requires AllMade(start, parts, problems)
    ensures |parts| == |problems| && forall i | 0 <= i < |parts| :: MadeFrom(start, parts[i], problems[i])
  {
  }

  lemma SpliceMembers(orders: Orders, problems: seq<Problem>, i: nat, j: nat, joined: Problem)
    requires i < j < |problems|
    ensures |MembersOf(problems)| == |problems| && MembersOf(problems)[i] == problems[i].members
    ensures MembersOf(problems)[j] == problems[j].members
    ensures AllInOrder(orders, problems) && InOrder(orders, joined) ==>
            AllInOrder(orders, problems[i := joined][..j] + problems[j + 1..])
    ensures MembersOf(problems[i := joined][..j] + problems[j + 1..]) ==
            MergeAt(MembersOf(problems), i, j, joined.members)
    ensures AllSummarize(problems) && Summarizes(joined) ==>
            AllSummarize(problems[i := joined][..j] + problems[j + 1..])
  {
  }

  lemma {:induction false} MergeKeepsAll(
    h: Heuristics, initial: seq<seq<Finding>>, groups: seq<seq<Finding>>, i: nat, j: nat, joined: seq<Finding>)
    requires i < j < |groups| && multiset(joined) == multiset(groups[i]) + multiset(groups[j])
    requires Refers(h, groups[i], groups[j]) || Refers(h, groups[j], groups[i])
    requires Bag(groups) == Bag(initial) && GroupsConnected(h, initial, groups) && Coarser(initial, groups)
    requires SettledUpTo(h, groups, i)
    ensures var merged := MergeAt(groups, i, j, joined);
            && Bag(merged) == Bag(initial) && GroupsConnected(h, initial, merged) && Coarser(initial, merged)
            && SettledUpTo(h, merged, i)
  {
    MergeKeepsBag(groups, i, j, joined);
    MergeKeepsConnected(h, initial, groups, i, j, joined);
    MergeKeepsCoarser(initial, groups, i, j, joined);
    MergeKeepsSettled(h, groups, i, j, joined);
  }

  // ---------------------------------------------------------------------------------------------
  // Sidecar buckets
  // ---------------------------------------------------------------------------------------------

  /** The ledger's ids are unique. */
  ghost predicate DistinctIds(findings: seq<Finding>) {
    forall i, j | 0 <= i < j < |findings| :: findings[i].id != findings[j].id
  }

  function IdsOf(findings: seq<Finding>): set<string> {
    set f | f in findings :: f.id
  }

  function Select(findings: seq<Finding>, ids: set<string>): seq<Finding> {
    if findings == [] then []
    else if findings[0].id in ids then [findings[0]] + Select(findings[1..], ids)
    else Select(findings[1..], ids)
  }

  lemma {:induction false} SelectMembers(findings: seq<Finding>, ids: set<string>)
    ensures forall f :: f in Select(findings, ids) <==> f in findings && f.id in ids
    ensures DistinctIds(findings) ==> DistinctIds(Select(findings, ids))
  {
    if findings != [] {
      SelectMembers(findings[1..], ids);
      assert findings == [findings[0]] + findings[1..];
    }
  }

  lemma {:induction false} SameIdSameFinding(findings: seq<Finding>, f: Finding, g: Finding)
    requires DistinctIds(findings) && f in findings && g in findings && f.id == g.id
    ensures f == g
  {
    var i :| 0 <= i < |findings| && findings[i] == f;
    var j :| 0 <= j < |findings| && findings[j] == g;
  }

  datatype Bucket = Bucket(root: string, members: seq<Finding>)

  function BucketMembers(buckets: seq<Bucket>): seq<seq<Finding>> {
    seq(|buckets|, i requires 0 <= i < |buckets| => buckets[i].members)
  }

  ghost predicate InBucket(buckets: seq<Bucket>, root: string, f: Finding) {
    exists i | 0 <= i < |buckets| :: buckets[i].root == root && f in buckets[i].members
  }

  /** Each bucket holds exactly the ledger's findings that the groups map to its root. */
  ghost predicate BucketsOk(buckets: seq<Bucket>, findings: seq<Finding>, groups: seq<Groups.Group>) {
    && (forall i, j | 0 <= i < j < |buckets| :: buckets[i].root != buckets[j].root)
    && (forall i | 0 <= i < |buckets| :: buckets[i].members != [] && DistinctIds(buckets[i].members))
    && (forall i, f | 0 <= i < |buckets| :: f in buckets[i].members ==>
          f in findings && Groups.Claims(groups, f.id, buckets[i].root))
    && (forall f, root | f in findings && Groups.Claims(groups, f.id, root) :: InBucket(buckets, root, f))
  }

  /** Rows whose id is not there yet are appended. */
  method AddMissing(members: seq<Finding>, rows: seq<Finding>) returns (all: seq<Finding>)
    requires DistinctIds(members)
    requires forall f, g | f in members && g in rows && f.id == g.id :: f == g
    requires DistinctIds(rows)
    ensures DistinctIds(all)
    ensures forall f :: f in all <==> f in members || f in rows
  {
    all := members;
    for n := 0 to |rows|
      invariant DistinctIds(all)
      invariant forall f :: f in all <==> f in members || f in rows[..n]
    {
      if !exists f | f in all :: f.id == rows[n].id {
        all := all + [rows[n]];
      } else {
        var f :| f in all && f.id == rows[n].id;
        assert f in rows[..n] ==> f in rows;
      }
      assert rows[..n + 1] == rows[..n] + [rows[n]];
    }
  }

  method SidecarBuckets(findings: seq<Finding>, groups: seq<Groups.Group>) returns (buckets: seq<Bucket>)
    requires DistinctIds(findings)
    ensures BucketsOk(buckets, findings, groups)
  {
    buckets := [];
    for k := 0 to |groups|
      invariant BucketsOk(buckets, findings, groups[..k])
    {
      var g := groups[k];
      var rows := Select(findings, set id | id in Groups.Ids(g));
      SelectMembers(findings, set id | id in Groups.Ids(g));
      var at := 0;
      while at < |buckets| && buckets[at].root != g.rootCauseId
        invariant 0 <= at <= |buckets|
        invariant forall i | 0 <= i < at :: buckets[i].root != g.rootCauseId
      {
        at := at + 1;
      }
      if rows == [] {
        NoRowsNoChange(buckets, findings, groups, k, rows);
      } else if at < |buckets| {
        forall a, b | a in buckets[at].members && b in rows && a.id == b.id
          ensures a == b
        {
          SameIdSameFinding(findings, a, b);
        }
        var all := AddMissing(buckets[at].members, rows);
        GrownBucketOk(buckets, findings, groups, k, rows, at, all);
        buckets := buckets[at := Bucket(g.rootCauseId, all)];
      } else {
        NewBucketOk(buckets, findings, groups, k, rows);
        buckets := buckets + [Bucket(g.rootCauseId, rows)];
      }
    }
    assert groups[..|groups|] == groups;
  }

  ghost predicate RowsOf(rows: seq<Finding>, findings: seq<Finding>, g: Groups.Group) {
    DistinctIds(rows) && forall f :: f in rows <==> f in findings && f.id in Groups.Ids(g)
  }

  /** One more group adds exactly its own claims. */
  lemma {:induction false} ClaimsOfNext(groups: seq<Groups.Group>, k: nat, id: string, root: string)
    requires k < |groups|
    ensures Groups.Claims(groups[..k + 1], id, root) <==>
            Groups.Claims(groups[..k], id, root) || (id in Groups.Ids(groups[k]) && groups[k].rootCauseId == root)
  {
    var more := groups[..k + 1];
    assert more[k] == groups[k] && forall i | 0 <= i < k :: more[i] == groups[..k][i];
    if Groups.Claims(groups[..k], id, root) {
      var i :| 0 <= i < k && id in Groups.Ids(groups[..k][i]) && groups[..k][i].rootCauseId == root;
      assert id in Groups.Ids(more[i]);
    }
    if Groups.Claims(more, id, root) {
      var i :| 0 <= i < k + 1 && id in Groups.Ids(more[i]) && more[i].rootCauseId == root;
      if i < k { assert id in Groups.Ids(groups[..k][i]); }
    }
  }

  lemma {:induction false} NoRowsNoChange(
    buckets: seq<Bucket>, findings: seq<Finding>, groups: seq<Groups.Group>, k: nat, rows: seq<Finding>)
    requires k < |groups| && BucketsOk(buckets, findings, groups[..k])
    requires RowsOf(rows, findings, groups[k]) && rows == []
    ensures BucketsOk(buckets, findings, groups[..k + 1])
  {
    forall id, root { ClaimsOfNext(groups, k, id, root); }
    forall f, root | f in findings && Groups.Claims(groups[..k + 1], f.id, root)
      ensures InBucket(buckets, root, f)
    {
      assert f !in rows;
      assert Groups.Claims(groups[..k], f.id, root);
    }
  }

  lemma {:induction false} GrownBucketOk(
    buckets: seq<Bucket>, findings: seq<Finding>, groups: seq<Groups.Group>, k: nat, rows: seq<Finding>, at: nat,
    all: seq<Finding>)
    requires k < |groups| && BucketsOk(buckets, findings, groups[..k]) && RowsOf(rows, findings, groups[k])
    requires at < |buckets| && buckets[at].root == groups[k].rootCauseId
    requires DistinctIds(all) && forall f :: f in all <==> f in buckets[at].members || f in rows
    ensures BucketsOk(buckets[at := Bucket(groups[k].rootCauseId, all)], findings, groups[..k + 1])
  {
    var grown := buckets[at := Bucket(groups[k].rootCauseId, all)];
    forall id, root { ClaimsOfNext(groups, k, id, root); }
    assert buckets[at].members[0] in all;
    forall f, root | f in findings && Groups.Claims(groups[..k + 1], f.id, root)
      ensures InBucket(grown, root, f)
    {
      if Groups.Claims(groups[..k], f.id, root) {
        var i :| 0 <= i < |buckets| && buckets[i].root == root && f in buckets[i].members;
        assert grown[i].root == root && f in grown[i].members;
      } else {
        assert f in rows && f in grown[at].members;
      }
    }
  }

  lemma {:induction false} NewBucketOk(
    buckets: seq<Bucket>, findings: seq<Finding>, groups: seq<Groups.Group>, k: nat, rows: seq<Finding>)
    requires k < |groups| && BucketsOk(buckets, findings, groups[..k])
    requires RowsOf(rows, findings, groups[k]) && rows != []
    requires forall i | 0 <= i < |buckets| :: buckets[i].root != groups[k].rootCauseId
    ensures BucketsOk(buckets + [Bucket(groups[k].rootCauseId, rows)], findings, groups[..k + 1])
  {
    var grown := buckets + [Bucket(groups[k].rootCauseId, rows)];
    forall id, root { ClaimsOfNext(groups, k, id, root); }
    forall f, root | f in findings && Groups.Claims(groups[..k + 1], f.id, root)
      ensures InBucket(grown, root, f)
    {
      if Groups.Claims(groups[..k], f.id, root) {
        var i :| 0 <= i < |buckets| && buckets[i].root == root && f in buckets[i].members;
        assert grown[i].root == root && f in grown[i].members;
      } else {
        assert grown[|buckets|].members == rows;
      }
    }
  }

  // ---------------------------------------------------------------------------------------------
  // The projection
  // ---------------------------------------------------------------------------------------------

  lemma {:induction false} DistinctIdsEachOnce(findings: seq<Finding>)
    requires DistinctIds(findings)
    ensures EachOnce(multiset(findings))
  {
    if findings != [] {
      DistinctIdsEachOnce(findings[1..]);
      assert findings == [findings[0]] + findings[1..];
      assert findings[0] !in multiset(findings[1..]);
    }
  }

  lemma {:induction false} BucketsEachOnce(buckets: seq<Bucket>, findings: seq<Finding>, groups: seq<Groups.Group>)
    requires BucketsOk(buckets, findings, groups) && Groups.Consistent(groups)
    ensures EachOnce(Bag(BucketMembers(buckets)))
  {
    for n := 0 to |buckets|
      invariant EachOnce(Bag(BucketMembers(buckets[..n])))
    {
      var (before, now) := (BucketMembers(buckets[..n]), buckets[n].members);
      assert BucketMembers(buckets[..n + 1]) == before + [now];
      BagOfConcat(before, [now]);
      assert Bag([now]) == multiset(now) by { assert [now][1..] == []; }
      DistinctIdsEachOnce(now);
      forall f | f in Bag(before)
        ensures f !in now
      {
        BagMembers(before, f);
        var i :| 0 <= i < n && f in before[i];
        assert before[i] == buckets[i].members;
        if f in now {
          assert Groups.Claims(groups, f.id, buckets[i].root) && Groups.Claims(groups, f.id, buckets[n].root);
          OneRootPerId(groups, f.id, buckets[i].root, buckets[n].root);
        }
      }
    }
    assert buckets[..|buckets|] == buckets;
  }

  lemma {:induction false} OneRootPerId(groups: seq<Groups.Group>, id: string, root: string, other: string)
    requires Groups.Consistent(groups) && Groups.Claims(groups, id, root) && Groups.Claims(groups, id, other)
    ensures root == other
  {
    var i :| 0 <= i < |groups| && id in Groups.Ids(groups[i]) && groups[i].rootCauseId == root;
    var j :| 0 <= j < |groups| && id in Groups.Ids(groups[j]) && groups[j].rootCauseId == other;
  }

  /** Buckets and the unclaimed rest make up the ledger. */
  lemma {:induction false} BucketsAndRest(
    buckets: seq<Bucket>, findings: seq<Finding>, groups: seq<Groups.Group>, rest: seq<Finding>)
    requires BucketsOk(buckets, findings, groups) && Groups.Consistent(groups)
    requires DistinctIds(findings) && DistinctIds(rest)
    requires forall f :: f in rest <==> f in findings && f !in Bag(BucketMembers(buckets))
    ensures Bag(BucketMembers(buckets)) + multiset(rest) == multiset(findings)
  {
    var bag := Bag(BucketMembers(buckets));
    BucketsEachOnce(buckets, findings, groups);
    DistinctIdsEachOnce(findings);
    DistinctIdsEachOnce(rest);
    forall f: Finding
      ensures (bag + multiset(rest))[f] == multiset(findings)[f]
    {
      BagMembers(BucketMembers(buckets), f);
      assert f in rest <==> f in multiset(rest);
      assert f in findings <==> f in multiset(findings);
      if f in bag {
        var i :| 0 <= i < |buckets| && f in BucketMembers(buckets)[i];
        assert f in buckets[i].members;
      }
    }
  }

  /** The sidecar is used only if it is well-formed against this ledger. */
  method UsableFindingGroups(
    sidecar: Option<seq<Groups.Group>>, findings: seq<Finding>) returns (groups: seq<Groups.Group>)
    ensures Groups.Consistent(groups)
    ensures sidecar.Some? && Groups.WellFormed(sidecar.value, Some(IdsOf(findings))) ==> groups == sidecar.value
    ensures !(sidecar.Some? && Groups.WellFormed(sidecar.value, Some(IdsOf(findings)))) ==> groups == []
  {
    groups := [];
    if sidecar.Some? {
      var verdict := Groups.ValidateFindingGroups(sidecar.value, Some(IdsOf(findings)));
      if verdict == Groups.Valid { groups := sidecar.value; }
    }
  }

  /** All findings of one root cause. */
  ghost predicate HoldsRoot(findings: seq<Finding>, groups: seq<Groups.Group>, members: seq<Finding>, root: string) {
    forall f :: f in members <==> f in findings && Groups.Claims(groups, f.id, root)
  }

  ghost predicate Claimed(groups: seq<Groups.Group>, f: Finding) {
    exists root :: Groups.Claims(groups, f.id, root)
  }

  /** The rows no sidecar group claims, in ledger order. */
  ghost function Unclaimed(findings: seq<Finding>, groups: seq<Groups.Group>): seq<Finding> {
    if findings == [] then []
    else (if Claimed(groups, findings[0]) then [] else [findings[0]]) + Unclaimed(findings[1..], groups)
  }

  ghost predicate ShareRoot(groups: seq<Groups.Group>, a: Finding, b: Finding) {
    exists root :: Groups.Claims(groups, a.id, root) && Groups.Claims(groups, b.id, root)
  }

  /** Two findings start in one problem: by a common root cause, or by inference among the unclaimed rows. */
  ghost predicate Alike(h: Heuristics, findings: seq<Finding>, groups: seq<Groups.Group>, a: Finding, b: Finding) {
    || (a in findings && b in findings && ShareRoot(groups, a, b))
    || Together(Greedy(h, Unclaimed(findings, groups)), a, b)
  }

  /** The problems hold the members of the groups, in whatever order each. */
  ghost predicate Holds(problems: seq<Problem>, groups: seq<seq<Finding>>) {
    |problems| == |groups| && forall k | 0 <= k < |groups| :: multiset(problems[k].members) == multiset(groups[k])
  }

  lemma {:induction false} BucketHoldsRoot(
    buckets: seq<Bucket>, findings: seq<Finding>, groups: seq<Groups.Group>, n: nat)
    requires BucketsOk(buckets, findings, groups) && n < |buckets|
    ensures HoldsRoot(findings, groups, buckets[n].members, buckets[n].root)
  {
    forall f | f in findings && Groups.Claims(groups, f.id, buckets[n].root)
      ensures f in buckets[n].members
    {
      assert InBucket(buckets, buckets[n].root, f);
    }
  }

  lemma {:induction false} SameMembers(p: seq<Finding>, q: seq<Finding>)
    requires multiset(p) == multiset(q)
    ensures forall f :: f in p <==> f in q
  {
    assert forall f :: (f in p <==> f in multiset(p)) && (f in q <==> f in multiset(q));
  }

  lemma MembersOfConcat(a: seq<Problem>, b: seq<Problem>)
    ensures MembersOf(a + b) == MembersOf(a) + MembersOf(b)
  {
  }

  lemma {:induction false} HoldsOneMore(problems: seq<Problem>, groups: seq<seq<Finding>>, n: nat, p: Problem)
    requires n < |groups| && AllSummarize(problems) && Holds(problems, groups[..n])
    requires Summarizes(p) && multiset(p.members) == multiset(groups[n])
    ensures AllSummarize(problems + [p]) && Holds(problems + [p], groups[..n + 1])
  {
    assert groups[..n + 1] == groups[..n] + [groups[n]];
  }

  lemma {:induction false} BagOfNext(groups: seq<seq<Finding>>, n: nat)
    requires n < |groups|
    ensures Bag(groups[..n + 1]) == Bag(groups[..n]) + multiset(groups[n])
  {
    BagAround(groups[..n + 1], n);
    assert groups[..n + 1][..n] == groups[..n];
  }

  ghost predicate HasId(bag: multiset<Finding>, id: string) {
    exists f :: f in bag && f.id == id
  }

  lemma {:induction false} HasIdGrows(bag: multiset<Finding>, members: seq<Finding>, id: string)
    ensures HasId(bag + multiset(members), id) <==> HasId(bag, id) || id in IdsOf(members)
  {
    assert forall f :: f in multiset(members) <==> f in members;
    if HasId(bag, id) {
      var f :| f in bag && f.id == id;
      assert f in bag + multiset(members);
    }
    if id in IdsOf(members) {
      var f :| f in members && f.id == id;
      assert f in bag + multiset(members);
    }
  }

  lemma {:induction false} ClaimedGrows(bag: multiset<Finding>, members: seq<Finding>, claimed: set<string>)
    requires forall id :: id in claimed <==> HasId(bag, id)
    ensures forall id :: id in claimed + IdsOf(members) <==> HasId(bag + multiset(members), id)
  {
    forall id ensures id in claimed + IdsOf(members) <==> HasId(bag + multiset(members), id) {
      HasIdGrows(bag, members, id);
    }
  }

  lemma {:induction false} HoldsBag(problems: seq<Problem>, groups: seq<seq<Finding>>)
    requires Holds(problems, groups)
    ensures Bag(MembersOf(problems)) == Bag(groups)
    decreases |groups|
  {
    if groups != [] {
      assert MembersOf(problems)[1..] == MembersOf(problems[1..]);
      HoldsBag(problems[1..], groups[1..]);
    }
  }

  /** One problem for each group, under its key; `many` is the origin of those with several members. */
  method ProblemsOf(
    orders: Orders, groups: seq<seq<Finding>>, keys: seq<string>, many: Origin) returns (problems: seq<Problem>)
    requires |keys| == |groups|
    ensures AllSummarize(problems) && AllInOrder(orders, problems) && Holds(problems, groups)
    ensures forall n | 0 <= n < |groups| ::
              problems[n].key == keys[n] && problems[n].origin == if |groups[n]| > 1 then many else Singleton
  {
    problems := [];
    assert AllSummarize(problems) && Holds(problems, groups[..0]);
    hide AllSummarize, ToProblem, InOrder;
    for n := 0 to |groups|
      invariant AllSummarize(problems) && AllInOrder(orders, problems) && Holds(problems, groups[..n])
      invariant forall k | 0 <= k < n ::
                  problems[k].key == keys[k] && problems[k].origin == if |groups[k]| > 1 then many else Singleton
    {
      var members := groups[n];
      var p := ToProblem(orders, members, keys[n], if |members| > 1 then many else Singleton);
      ToProblemKeepsMembers(orders, members, keys[n], p.origin);
      HoldsOneMore(problems, groups, n, p);
      problems := problems + [p];
    }
    assert groups[..|groups|] == groups;
  }

  /** The ids of all rows in buckets. */
  method ClaimedIds(buckets: seq<Bucket>) returns (claimed: set<string>)
    ensures forall id :: id in claimed <==> HasId(Bag(BucketMembers(buckets)), id)
  {
    claimed := {};
    ghost var all := BucketMembers(buckets);
    assert |all| == |buckets| && forall n | 0 <= n < |buckets| :: all[n] == buckets[n].members;
    assert forall id :: id in claimed <==> HasId(Bag(all[..0]), id);
    hide Bag, HasId, IdsOf, BucketMembers;
    for n := 0 to |buckets|
      invariant forall id :: id in claimed <==> HasId(Bag(all[..n]), id)
    {
      BagOfNext(all, n);
      ClaimedGrows(Bag(all[..n]), buckets[n].members, claimed);
      claimed := claimed + IdsOf(buckets[n].members);
    }
    assert all[..|buckets|] == all;
  }

  function RootsOf(buckets: seq<Bucket>): seq<string> {
    seq(|buckets|, i requires 0 <= i < |buckets| => buckets[i].root)
  }

  function FirstIds(groups: seq<seq<Finding>>): seq<string> {
    seq(|groups|, i requires 0 <= i < |groups| => if groups[i] == [] then "finding" else groups[i][0].id)
  }

  /**
   * What a problem is called before references are merged: by the root that its members are mapped to, or
   * else by the founder of its group. It is a sidecar or inferred group only if it has several members.
   */
  ghost predicate Named(groups: seq<Groups.Group>, found: seq<seq<Finding>>, p: Problem) {
    && p.members != [] && (p.origin == Singleton <==> |p.members| == 1)
    && (p.origin == Sidecar ==> forall f | f in p.members :: Groups.Claims(groups, f.id, p.key))
    && (p.origin == Inferred ==> forall f | f in p.members :: !Claimed(groups, f))
    && ((forall f | f in p.members :: Groups.Claims(groups, f.id, p.key))
        || ((forall f | f in p.members :: !Claimed(groups, f)) && IsCalledByFounder(found, p)))
  }

  ghost predicate IsCalledByFounder(found: seq<seq<Finding>>, p: Problem) {
    exists n | 0 <= n < |found| ::
      found[n] != [] && multiset(p.members) == multiset(found[n]) && p.key == found[n][0].id
  }

  ghost predicate AllNamed(groups: seq<Groups.Group>, found: seq<seq<Finding>>, problems: seq<Problem>) {
    forall i | 0 <= i < |problems| :: Named(groups, found, problems[i])
  }

  lemma {:induction false} SidecarIsNamed(
    findings: seq<Finding>, groups: seq<Groups.Group>, buckets: seq<Bucket>, found: seq<seq<Finding>>,
    problems: seq<Problem>)
    requires BucketsOk(buckets, findings, groups) && Holds(problems, BucketMembers(buckets))
    requires forall n | 0 <= n < |buckets| ::
               && problems[n].key == buckets[n].root
               && problems[n].origin == if |buckets[n].members| > 1 then Sidecar else Singleton
    ensures AllNamed(groups, found, problems)
  {
    forall n | 0 <= n < |problems| ensures Named(groups, found, problems[n]) {
      var members := BucketMembers(buckets)[n];
      assert members == buckets[n].members != [] && multiset(problems[n].members) == multiset(members);
      SameMembers(problems[n].members, members);
      assert |problems[n].members| == |multiset(problems[n].members)| == |multiset(members)| == |members|;
    }
  }

  lemma {:induction false} InferredIsNamed(
    h: Heuristics, findings: seq<Finding>, groups: seq<Groups.Group>, problems: seq<Problem>)
    requires var found := Greedy(h, Unclaimed(findings, groups));
             && Holds(problems, found)
             && forall n | 0 <= n < |found| ::
                  && problems[n].key == FirstIds(found)[n]
                  && problems[n].origin == if |found[n]| > 1 then Inferred else Singleton
    ensures AllNamed(groups, Greedy(h, Unclaimed(findings, groups)), problems)
  {
    var rest := Unclaimed(findings, groups);
    var found := Greedy(h, rest);
    GreedyGroups(h, rest);
    UnclaimedMembers(findings, groups);
    hide Greedy, Unclaimed, PairwiseDuplicates, Unjoinable, Claimed, Groups.Claims;
    forall n | 0 <= n < |problems| ensures Named(groups, found, problems[n]) {
      SameMembers(problems[n].members, found[n]);
      assert |problems[n].members| == |multiset(problems[n].members)| == |multiset(found[n])| == |found[n]|;
      assert found[n][0] in problems[n].members;
      forall f | f in problems[n].members ensures f in rest {
        BagMembers(found, f);
        assert f in multiset(rest);
      }
    }
  }

  lemma {:induction false} UnclaimedMembers(findings: seq<Finding>, groups: seq<Groups.Group>)
    ensures forall f | f in Unclaimed(findings, groups) :: f in findings && !Claimed(groups, f)
  {
    if findings != [] {
      UnclaimedMembers(findings[1..], groups);
      assert findings == [findings[0]] + findings[1..];
    }
  }

  /** The problems before references are merged: a partition of the ledger into what is alike. */
  method InitialProblems(h: Heuristics, orders: Orders, findings: seq<Finding>, groups: seq<Groups.Group>)
    returns (problems: seq<Problem>)
    requires DistinctIds(findings) && Groups.Consistent(groups)
    ensures AllSummarize(problems) && AllInOrder(orders, problems)
    ensures AllNamed(groups, Greedy(h, Unclaimed(findings, groups)), problems)
    ensures Bag(MembersOf(problems)) == multiset(findings)
    ensures forall a, b :: Together(MembersOf(problems), a, b) <==> Alike(h, findings, groups, a, b)
  {
    var buckets := SidecarBuckets(findings, groups);
    var claimed := ClaimedIds(buckets);
    var sidecar := ProblemsOf(orders, BucketMembers(buckets), RootsOf(buckets), Sidecar);
    var rest := Select(findings, IdsOf(findings) - claimed);
    RestIsUnclaimed(buckets, findings, groups, claimed, rest);
    var found := InferDuplicateGroups(h, rest);
    var inferred := ProblemsOf(orders, found, FirstIds(found), Inferred);
    problems := sidecar + inferred;
    SidecarIsNamed(findings, groups, buckets, found, sidecar);
    InferredIsNamed(h, findings, groups, inferred);
    InitialPartition(h, findings, groups, buckets, rest, sidecar, inferred);
    InitiallyTogether(h, findings, groups, buckets, sidecar, inferred);
  }

  lemma {:induction false} InitialPartition(
    h: Heuristics, findings: seq<Finding>, groups: seq<Groups.Group>, buckets: seq<Bucket>, rest: seq<Finding>,
    sidecar: seq<Problem>, inferred: seq<Problem>)
    requires DistinctIds(findings) && Groups.Consistent(groups) && BucketsOk(buckets, findings, groups)
    requires DistinctIds(rest) && forall f :: f in rest <==> f in findings && f !in Bag(BucketMembers(buckets))
    requires Holds(sidecar, BucketMembers(buckets)) && Holds(inferred, Greedy(h, rest))
    requires AllSummarize(sidecar) && AllSummarize(inferred)
    ensures AllSummarize(sidecar + inferred) && Bag(MembersOf(sidecar + inferred)) == multiset(findings)
  {
    BucketsAndRest(buckets, findings, groups, rest);
    HoldsBag(sidecar, BucketMembers(buckets));
    HoldsBag(inferred, Greedy(h, rest));
    GreedyGroups(h, rest);
    ConcatProblems(sidecar, inferred);
  }

  lemma {:induction false} ConcatProblems(a: seq<Problem>, b: seq<Problem>)
    ensures Bag(MembersOf(a + b)) == Bag(MembersOf(a)) + Bag(MembersOf(b))
    ensures AllSummarize(a) && AllSummarize(b) ==> AllSummarize(a + b)
  {
    assert MembersOf(a + b) == MembersOf(a) + MembersOf(b);
    BagOfConcat(MembersOf(a), MembersOf(b));
  }

  lemma {:induction false} HoldsTogether(problems: seq<Problem>, groups: seq<seq<Finding>>, a: Finding, b: Finding)
    requires Holds(problems, groups)
    ensures Together(MembersOf(problems), a, b) <==> Together(groups, a, b)
  {
    var members := MembersOf(problems);
    if Together(members, a, b) {
      var i :| 0 <= i < |members| && a in members[i] && b in members[i];
      SameMembers(problems[i].members, groups[i]);
    }
    if Together(groups, a, b) {
      var i :| 0 <= i < |groups| && a in groups[i] && b in groups[i];
      SameMembers(problems[i].members, groups[i]);
      assert a in members[i] && b in members[i];
    }
  }

  lemma {:induction false} TogetherInConcat(x: seq<seq<Finding>>, y: seq<seq<Finding>>, a: Finding, b: Finding)
    ensures Together(x + y, a, b) <==> Together(x, a, b) || Together(y, a, b)
  {
    if Together(x, a, b) {
      var i :| 0 <= i < |x| && a in x[i] && b in x[i];
      assert (x + y)[i] == x[i];
    }
    if Together(y, a, b) {
      var i :| 0 <= i < |y| && a in y[i] && b in y[i];
      assert (x + y)[|x| + i] == y[i];
    }
  }

  lemma {:induction false} BucketsTogether(
    findings: seq<Finding>, groups: seq<Groups.Group>, buckets: seq<Bucket>, a: Finding, b: Finding)
    requires BucketsOk(buckets, findings, groups)
    ensures Together(BucketMembers(buckets), a, b) <==>
            a in findings && b in findings && ShareRoot(groups, a, b)
  {
    if Together(BucketMembers(buckets), a, b) {
      var i :| 0 <= i < |buckets| && a in BucketMembers(buckets)[i] && b in BucketMembers(buckets)[i];
      assert a in buckets[i].members && b in buckets[i].members;
    }
    if a in findings && b in findings && ShareRoot(groups, a, b) {
      var root :| Groups.Claims(groups, a.id, root) && Groups.Claims(groups, b.id, root);
      assert InBucket(buckets, root, a);
      var i :| 0 <= i < |buckets| && buckets[i].root == root && a in buckets[i].members;
      BucketHoldsRoot(buckets, findings, groups, i);
      assert b in BucketMembers(buckets)[i];
    }
  }

  lemma {:induction false} InitiallyTogether(
    h: Heuristics, findings: seq<Finding>, groups: seq<Groups.Group>, buckets: seq<Bucket>, sidecar: seq<Problem>,
    inferred: seq<Problem>)
    requires BucketsOk(buckets, findings, groups)
    requires Holds(sidecar, BucketMembers(buckets)) && Holds(inferred, Greedy(h, Unclaimed(findings, groups)))
    ensures forall a, b :: Together(MembersOf(sidecar + inferred), a, b) <==> Alike(h, findings, groups, a, b)
  {
    hide Together, Greedy, BucketsOk, Holds, MembersOf, Alike;
    MembersOfConcat(sidecar, inferred);
    forall a, b ensures Together(MembersOf(sidecar + inferred), a, b) <==> Alike(h, findings, groups, a, b) {
      TogetherInConcat(MembersOf(sidecar), MembersOf(inferred), a, b);
      PairTogether(h, findings, groups, buckets, sidecar, inferred, a, b);
    }
  }

  lemma {:induction false} PairTogether(
    h: Heuristics, findings: seq<Finding>, groups: seq<Groups.Group>, buckets: seq<Bucket>, sidecar: seq<Problem>,
    inferred: seq<Problem>, a: Finding, b: Finding)
    requires BucketsOk(buckets, findings, groups)
    requires Holds(sidecar, BucketMembers(buckets)) && Holds(inferred, Greedy(h, Unclaimed(findings, groups)))
    ensures Together(MembersOf(sidecar), a, b) || Together(MembersOf(inferred), a, b) <==>
            Alike(h, findings, groups, a, b)
  {
    hide Together, Greedy, BucketsOk, Holds, MembersOf, BucketMembers, Unclaimed;
    HoldsTogether(sidecar, BucketMembers(buckets), a, b);
    HoldsTogether(inferred, Greedy(h, Unclaimed(findings, groups)), a, b);
    BucketsTogether(findings, groups, buckets, a, b);
  }

  lemma {:induction false} SelectIsUnclaimed(findings: seq<Finding>, groups: seq<Groups.Group>, ids: set<string>)
    requires forall f | f in findings :: f.id in ids <==> !Claimed(groups, f)
    ensures Select(findings, ids) == Unclaimed(findings, groups)
  {
    if findings != [] {
      assert findings[0] in findings && forall f | f in findings[1..] :: f in findings;
      SelectIsUnclaimed(findings[1..], groups, ids);
    }
  }

  lemma {:induction false} RestIsUnclaimed(
    buckets: seq<Bucket>, findings: seq<Finding>, groups: seq<Groups.Group>, claimed: set<string>, rest: seq<Finding>)
    requires BucketsOk(buckets, findings, groups) && DistinctIds(findings)
    requires forall id :: id in claimed <==> HasId(Bag(BucketMembers(buckets)), id)
    requires rest == Select(findings, IdsOf(findings) - claimed)
    ensures forall f :: f in rest <==> f in findings && f !in Bag(BucketMembers(buckets))
    ensures rest == Unclaimed(findings, groups) && DistinctIds(rest)
  {
    SelectMembers(findings, IdsOf(findings) - claimed);
    forall f | f in findings
      ensures f.id in claimed <==> f in Bag(BucketMembers(buckets))
      ensures f in Bag(BucketMembers(buckets)) <==> Claimed(groups, f)
    {
      BucketedIsClaimed(buckets, findings, groups, f);
      if f.id in claimed {
        var g :| g in Bag(BucketMembers(buckets)) && g.id == f.id;
        BagMembers(BucketMembers(buckets), g);
        var i :| 0 <= i < |buckets| && g in BucketMembers(buckets)[i];
        assert g in buckets[i].members;
        SameIdSameFinding(findings, f, g);
      }
    }
    SelectIsUnclaimed(findings, groups, IdsOf(findings) - claimed);
  }

  lemma {:induction false} BucketedIsClaimed(
    buckets: seq<Bucket>, findings: seq<Finding>, groups: seq<Groups.Group>, f: Finding)
    requires BucketsOk(buckets, findings, groups) && f in findings
    ensures f in Bag(BucketMembers(buckets)) <==> Claimed(groups, f)
  {
    BagMembers(BucketMembers(buckets), f);
    if f in Bag(BucketMembers(buckets)) {
      var i :| 0 <= i < |buckets| && f in BucketMembers(buckets)[i];
      assert f in buckets[i].members;
    }
    if Claimed(groups, f) {
      var root :| Groups.Claims(groups, f.id, root);
      assert InBucket(buckets, root, f);
      var i :| 0 <= i < |buckets| && buckets[i].root == root && f in buckets[i].members;
      assert f in BucketMembers(buckets)[i];
    }
  }

  // Sorting the problems only changes their order.

  lemma {:induction false} TogetherByProblem(problems: seq<Problem>, a: Finding, b: Finding)
    ensures Together(MembersOf(problems), a, b) <==> exists p :: p in problems && a in p.members && b in p.members
  {
    if Together(MembersOf(problems), a, b) {
      var i :| 0 <= i < |problems| && a in MembersOf(problems)[i] && b in MembersOf(problems)[i];
      assert problems[i] in problems;
    }
    if exists p :: p in problems && a in p.members && b in p.members {
      var p :| p in problems && a in p.members && b in p.members;
      var i :| 0 <= i < |problems| && problems[i] == p;
      assert MembersOf(problems)[i] == p.members;
    }
  }

  lemma {:induction false} BagOfCons(p: Problem, problems: seq<Problem>)
    ensures Bag(MembersOf([p] + problems)) == multiset(p.members) + Bag(MembersOf(problems))
  {
    assert MembersOf([p] + problems) == [p.members] + MembersOf(problems);
    assert ([p.members] + MembersOf(problems))[1..] == MembersOf(problems);
  }

  lemma {:induction false} SortKeepsBag(before: (Problem, Problem) -> bool, problems: seq<Problem>)
    ensures Bag(MembersOf(SortBy(before, problems))) == Bag(MembersOf(problems))
  {
    if problems != [] {
      SortKeepsBag(before, problems[1..]);
      InsertKeepsBag(before, problems[0], SortBy(before, problems[1..]));
      BagOfCons(problems[0], problems[1..]);
      assert problems == [problems[0]] + problems[1..];
    }
  }

  lemma {:induction false} InsertKeepsBag(before: (Problem, Problem) -> bool, p: Problem, problems: seq<Problem>)
    ensures Bag(MembersOf(InsertBy(before, p, problems))) == multiset(p.members) + Bag(MembersOf(problems))
  {
    if problems == [] || !before(problems[0], p) {
      BagOfCons(p, problems);
      assert problems == [] ==> [p] + problems == [p];
    } else {
      InsertKeepsBag(before, p, problems[1..]);
      BagOfCons(problems[0], InsertBy(before, p, problems[1..]));
      BagOfCons(problems[0], problems[1..]);
      assert problems == [problems[0]] + problems[1..];
    }
  }

  /**
   * The projection. No finding is lost or shown twice; two findings are shown as one problem exactly
   * when a chain of shared groups and explicit references connects them; and something blocking is
   * shown exactly when some finding blocks.
   */
  method ProjectFindingList(h: Heuristics, orders: Orders, findings: seq<Finding>, sidecar: Option<seq<Groups.Group>>)
    returns (problems: seq<Problem>, ghost groups: seq<Groups.Group>, ghost initial: seq<Problem>,
             ghost parts: seq<seq<nat>>, ghost merged: seq<Problem>)
    requires DistinctIds(findings)
    ensures groups == (if sidecar.Some? && Groups.WellFormed(sidecar.value, Some(IdsOf(findings)))
                       then sidecar.value else [])
    ensures Bag(MembersOf(initial)) == multiset(findings)
    ensures forall a, b :: Together(MembersOf(initial), a, b) <==> Alike(h, findings, groups, a, b)
    ensures Bag(MembersOf(problems)) == multiset(findings)
    ensures forall a, b :: Together(MembersOf(problems), a, b) <==> Connected(h, MembersOf(initial), a, b)
    ensures AllNamed(groups, Greedy(h, Unclaimed(findings, groups)), initial) && AllMade(initial, parts, merged)
    ensures multiset(problems) == multiset(merged)
    ensures forall p | p in problems :: Summarizes(p) && InOrder(orders, p)
    ensures IsOrder(orders.problem) ==>
              Sorted(orders.problem, problems) &&
              forall p :: Peers(orders.problem, p, problems) == Peers(orders.problem, p, merged)
    ensures (exists p :: p in problems && p.blocking) <==> (exists f :: f in findings && IsFindingBlocking(f))
  {
    var usable := UsableFindingGroups(sidecar, findings);
    groups := usable;
    var start := InitialProblems(h, orders, findings, usable);
    initial := start;
    var joined;
    joined, parts := MergeExplicitReferences(h, orders, start);
    merged := joined;
    problems := SortBy(orders.problem, joined);
    if IsOrder(orders.problem) {
      SortSorts(orders.problem, merged);
      forall p ensures Peers(orders.problem, p, problems) == Peers(orders.problem, p, merged) {
        SortIsStable(orders.problem, merged, p);
      }
    }
    SortKeepsElements(orders.problem, merged);
    SortKeepsBag(orders.problem, merged);
    assert forall p :: p in problems <==> p in merged by {
      assert forall p :: (p in problems <==> p in multiset(problems)) && (p in merged <==> p in multiset(merged));
    }
    DistinctIdsEachOnce(findings);
    forall a, b
      ensures Together(MembersOf(problems), a, b) <==> Connected(h, MembersOf(initial), a, b)
    {
      GroupsAreComponents(h, MembersOf(start), MembersOf(merged), a, b);
      TogetherByProblem(problems, a, b);
      TogetherByProblem(merged, a, b);
    }
    BlockingShows(problems, findings);
  }

  lemma {:induction false} BlockingShows(problems: seq<Problem>, findings: seq<Finding>)
    requires Bag(MembersOf(problems)) == multiset(findings) && forall p | p in problems :: Summarizes(p)
    ensures (exists p :: p in problems && p.blocking) <==> (exists f :: f in findings && IsFindingBlocking(f))
  {
    if exists p :: p in problems && p.blocking {
      var p :| p in problems && p.blocking;
      var i :| 0 <= i < |problems| && problems[i] == p;
      var f :| f in p.members && IsFindingBlocking(f);
      assert f in MembersOf(problems)[i];
      BagMembers(MembersOf(problems), f);
      assert f in multiset(findings);
    }
    if exists f :: f in findings && IsFindingBlocking(f) {
      var f :| f in findings && IsFindingBlocking(f);
      assert f in multiset(findings);
      BagMembers(MembersOf(problems), f);
      var i :| 0 <= i < |problems| && f in MembersOf(problems)[i];
      assert problems[i] in problems && problems[i].blocking;
    }
  }
}
