/** The finding-groups sidecar: which findings share a root cause, and when such a file is usable. */
module FindingGroups {
  import opened Options

  datatype Group = Group(rootCauseId: string, findingIds: seq<string>, aliases: seq<string>, basis: string)

  datatype Verdict = Valid | Conflict(id: string) | UnknownMember(id: string) | NoFindingIds | Cycle(root: string)

  function Ids(g: Group): seq<string> {
    g.findingIds + g.aliases
  }

  /** Some group maps `id` to `root`. */
  ghost predicate Claims(groups: seq<Group>, id: string, root: string) {
    exists k | 0 <= k < |groups| :: id in Ids(groups[k]) && groups[k].rootCauseId == root
  }

  /** No id is mapped to two roots. */
  ghost predicate Consistent(groups: seq<Group>) {
    forall i, j, id | 0 <= i < |groups| && 0 <= j < |groups| && id in Ids(groups[i]) && id in Ids(groups[j]) ::
      groups[i].rootCauseId == groups[j].rootCauseId
  }

  ghost predicate MembersKnown(groups: seq<Group>, knownIds: Option<set<string>>) {
    knownIds.Some? ==>
      forall k, id | 0 <= k < |groups| && id in groups[k].findingIds :: id in knownIds.value
  }

  /** A root that is itself mapped is mapped to itself. */
  ghost predicate RootsAreStable(groups: seq<Group>) {
    forall i, j | 0 <= i < |groups| && 0 <= j < |groups| && groups[i].rootCauseId in Ids(groups[j]) ::
      groups[j].rootCauseId == groups[i].rootCauseId
  }

  ghost predicate WellFormed(groups: seq<Group>, knownIds: Option<set<string>>) {
    && Consistent(groups)
    && MembersKnown(groups, knownIds)
    && RootsAreStable(groups)
    && forall k | 0 <= k < |groups| :: groups[k].findingIds != []
  }

  /** `claimed` is what the first groups map, and they agree among themselves. */
  ghost predicate Recorded(claimed: map<string, string>, groups: seq<Group>) {
    && (forall id | id in claimed :: Claims(groups, id, claimed[id]))
    && (forall k, id | 0 <= k < |groups| && id in Ids(groups[k]) ::
          id in claimed && claimed[id] == groups[k].rootCauseId)
  }

  lemma {:induction false} RecordedIsConsistent(claimed: map<string, string>, groups: seq<Group>)
    requires Recorded(claimed, groups)
    ensures Consistent(groups)
  {
    forall i, j, id | 0 <= i < |groups| && 0 <= j < |groups| && id in Ids(groups[i]) && id in Ids(groups[j])
      ensures groups[i].rootCauseId == groups[j].rootCauseId
    {
      assert claimed[id] == groups[i].rootCauseId;
    }
  }

  // ---------------------------------------------------------------------------------------------
  // Which fault is reported
  // ---------------------------------------------------------------------------------------------

  /** What the first pass asks of groups: everything but stable roots. */
  ghost predicate Sound(groups: seq<Group>, knownIds: Option<set<string>>) {
    && Consistent(groups) && MembersKnown(groups, knownIds)
    && forall k | 0 <= k < |groups| :: groups[k].findingIds != []
  }

  /** An earlier group maps this id of group `k` to another root. */
  ghost predicate Clashes(groups: seq<Group>, k: nat, id: string)
    requires k < |groups|
  {
    exists i | 0 <= i < k :: id in Ids(groups[i]) && groups[i].rootCauseId != groups[k].rootCauseId
  }

  predicate Stranger(g: Group, knownIds: Option<set<string>>, id: string) {
    knownIds.Some? && id in g.findingIds && id !in knownIds.value
  }

  /** The first fault is in group `k`, at its id number `p`, or else behind its ids: it has no findings. */
  ghost predicate FirstFault(groups: seq<Group>, knownIds: Option<set<string>>, k: nat, p: nat, verdict: Verdict) {
    && k < |groups| && Sound(groups[..k], knownIds) && p <= |Ids(groups[k])|
    && var (g, ids) := (groups[k], Ids(groups[k]));
       && (forall q | 0 <= q < p :: !Clashes(groups, k, ids[q]) && !Stranger(g, knownIds, ids[q]))
       && match verdict
          case Conflict(id) => p < |ids| && ids[p] == id && Clashes(groups, k, id)
          case UnknownMember(id) =>
            p < |ids| && ids[p] == id && !Clashes(groups, k, id) && Stranger(g, knownIds, id)
          case NoFindingIds => p == |ids| && g.findingIds == []
          case _ => false
  }

  /** A root is reported as a cycle if its own id is mapped elsewhere, in a sidecar that is sound otherwise. */
  ghost predicate UnstableRootIs(groups: seq<Group>, root: string) {
    && (exists k | 0 <= k < |groups| :: groups[k].rootCauseId == root)
    && exists other :: other != root && Claims(groups, root, other)
  }

  lemma {:induction false} ClashIsRecorded(groups: seq<Group>, k: nat, claimed: map<string, string>, id: string)
    requires k < |groups| && Recorded(claimed, groups[..k])
    ensures Clashes(groups, k, id) <==> id in claimed && claimed[id] != groups[k].rootCauseId
  {
    assert forall i | 0 <= i < k :: groups[..k][i] == groups[i];
    if id in claimed { assert Claims(groups[..k], id, claimed[id]); }
  }

  /** One group's ids, recorded one after the other as the validator does. */
  method RecordGroup(g: Group, before: map<string, string>, knownIds: Option<set<string>>)
    returns (claimed: map<string, string>, verdict: Verdict, ghost p: nat)
    ensures verdict == Valid || verdict.Conflict? || verdict.UnknownMember?
    ensures verdict == Valid ==>
              && p == |Ids(g)|
              && (forall id | id in Ids(g) :: id in claimed && claimed[id] == g.rootCauseId)
              && (forall id | id in before :: id in claimed && claimed[id] == before[id])
              && (forall id | id in claimed && id !in before :: id in Ids(g))
              && (knownIds.Some? ==> forall id | id in g.findingIds :: id in knownIds.value)
    ensures p <= |Ids(g)| && forall q | 0 <= q < p :: var id := Ids(g)[q];
              !(id in before && before[id] != g.rootCauseId) && !Stranger(g, knownIds, id)
    ensures verdict.Conflict? ==>
              p < |Ids(g)| && verdict.id == Ids(g)[p] && verdict.id in before && before[verdict.id] != g.rootCauseId
    ensures verdict.UnknownMember? ==>
              && p < |Ids(g)| && verdict.id == Ids(g)[p] && Stranger(g, knownIds, verdict.id)
              && !(verdict.id in before && before[verdict.id] != g.rootCauseId)
  {
    claimed := before;
    var ids := Ids(g);
    for i := 0 to |ids|
      invariant forall k | 0 <= k < i :: ids[k] in claimed && claimed[ids[k]] == g.rootCauseId
      invariant forall id | id in before :: id in claimed && claimed[id] == before[id]
      invariant forall id | id in claimed && id !in before :: id in ids && claimed[id] == g.rootCauseId
      invariant forall q | 0 <= q < i ::
                  !(ids[q] in before && before[ids[q]] != g.rootCauseId) && !Stranger(g, knownIds, ids[q])
    {
      var id := ids[i];
      if id in claimed && claimed[id] != g.rootCauseId {
        return claimed, Conflict(id), i;
      }
      claimed := claimed[id := g.rootCauseId];
      if knownIds.Some? && id in g.findingIds && id !in knownIds.value {
        return claimed, UnknownMember(id), i;
      }
    }
    forall id | id in g.findingIds
      ensures id in ids
    {
      var k :| 0 <= k < |g.findingIds| && g.findingIds[k] == id;
      assert ids[k] == id;
    }
    return claimed, Valid, |ids|;
  }

  lemma {:induction false} ConflictRefutes(groups: seq<Group>, k: nat, claimed: map<string, string>, id: string)
    requires k < |groups| && Recorded(claimed, groups[..k])
    requires id in Ids(groups[k]) && id in claimed && claimed[id] != groups[k].rootCauseId
    ensures !Consistent(groups)
  {
    var i :| 0 <= i < k && id in Ids(groups[..k][i]) && groups[..k][i].rootCauseId == claimed[id];
    assert groups[i] == groups[..k][i];
  }

  lemma {:induction false} RecordOneMore(
    groups: seq<Group>, k: nat, before: map<string, string>, after: map<string, string>)
    requires k < |groups| && Recorded(before, groups[..k])
    requires forall id | id in Ids(groups[k]) :: id in after && after[id] == groups[k].rootCauseId
    requires forall id | id in before :: id in after && after[id] == before[id]
    requires forall id | id in after && id !in before :: id in Ids(groups[k])
    ensures Recorded(after, groups[..k + 1])
  {
    var more := groups[..k + 1];
    assert more == groups[..k] + [groups[k]];
    forall id | id in after
      ensures Claims(more, id, after[id])
    {
      if id in before {
        var i :| 0 <= i < k && id in Ids(groups[..k][i]) && groups[..k][i].rootCauseId == before[id];
        assert more[i] == groups[..k][i];
      } else {
        assert id in Ids(more[k]);
      }
    }
  }

  /** The roots named by the groups, each with ids its groups list as findings. */
  ghost predicate Buckets(membersOfRoot: map<string, set<string>>, groups: seq<Group>) {
    && (forall k | 0 <= k < |groups| :: groups[k].rootCauseId in membersOfRoot)
    && (forall root | root in membersOfRoot :: exists k | 0 <= k < |groups| :: groups[k].rootCauseId == root)
    && (forall root, id | root in membersOfRoot && id in membersOfRoot[root] :: Claims(groups, id, root))
  }

  /** What the first pass has established about the groups it accepted. */
  ghost predicate Collected(
    claimed: map<string, string>, membersOfRoot: map<string, set<string>>, groups: seq<Group>,
    knownIds: Option<set<string>>)
  {
    && Recorded(claimed, groups) && Buckets(membersOfRoot, groups) && MembersKnown(groups, knownIds)
    && forall k | 0 <= k < |groups| :: groups[k].findingIds != []
  }

  function AddToBucket(membersOfRoot: map<string, set<string>>, g: Group): map<string, set<string>> {
    var bucket := if g.rootCauseId in membersOfRoot then membersOfRoot[g.rootCauseId] else {};
    membersOfRoot[g.rootCauseId := bucket + set id | id in g.findingIds]
  }

  lemma {:induction false} BucketsOfOneMore(groups: seq<Group>, k: nat, membersOfRoot: map<string, set<string>>)
    requires k < |groups| && Buckets(membersOfRoot, groups[..k])
    ensures Buckets(AddToBucket(membersOfRoot, groups[k]), groups[..k + 1])
  {
    var (more, grown) := (groups[..k + 1], AddToBucket(membersOfRoot, groups[k]));
    assert more[k] == groups[k] && forall i | 0 <= i < k :: more[i] == groups[..k][i];
    forall root | root in grown
      ensures exists i | 0 <= i < |more| :: more[i].rootCauseId == root
    {
      if root == groups[k].rootCauseId {
        assert more[k].rootCauseId == root;
      } else {
        var i :| 0 <= i < k && groups[..k][i].rootCauseId == root;
        assert more[i].rootCauseId == root;
      }
    }
    forall root, id | root in grown && id in grown[root]
      ensures Claims(more, id, root)
    {
      if root in membersOfRoot && id in membersOfRoot[root] {
        var i :| 0 <= i < k && id in Ids(groups[..k][i]) && groups[..k][i].rootCauseId == root;
        assert id in Ids(more[i]);
      } else {
        assert id in Ids(more[k]);
      }
    }
  }

  lemma {:induction false} CollectedOneMore(
    groups: seq<Group>, k: nat, before: map<string, string>, after: map<string, string>,
    membersOfRoot: map<string, set<string>>, knownIds: Option<set<string>>)
    requires k < |groups| && Collected(before, membersOfRoot, groups[..k], knownIds)
    requires forall id | id in Ids(groups[k]) :: id in after && after[id] == groups[k].rootCauseId
    requires forall id | id in before :: id in after && after[id] == before[id]
    requires forall id | id in after && id !in before :: id in Ids(groups[k])
    requires knownIds.Some? ==> forall id | id in groups[k].findingIds :: id in knownIds.value
    requires groups[k].findingIds != []
    ensures Collected(after, AddToBucket(membersOfRoot, groups[k]), groups[..k + 1], knownIds)
  {
    RecordOneMore(groups, k, before, after);
    BucketsOfOneMore(groups, k, membersOfRoot);
    assert groups[..k + 1] == groups[..k] + [groups[k]];
  }

  /** The first pass: claims and buckets, or the first group that does not fit. */
  method CollectClaims(groups: seq<Group>, knownIds: Option<set<string>>)
    returns (claimed: map<string, string>, membersOfRoot: map<string, set<string>>, verdict: Verdict)
    ensures verdict == Valid ==> Collected(claimed, membersOfRoot, groups, knownIds)
    ensures verdict != Valid ==>
            !WellFormed(groups, knownIds) && exists k: nat, p: nat :: FirstFault(groups, knownIds, k, p, verdict)
  {
    claimed, membersOfRoot := map[], map[];
    assert Collected(claimed, membersOfRoot, groups[..0], knownIds);
    for k := 0 to |groups|
      invariant Collected(claimed, membersOfRoot, groups[..k], knownIds)
    {
      var before := claimed;
      ghost var p;
      claimed, verdict, p := RecordGroup(groups[k], before, knownIds);
      if verdict != Valid || groups[k].findingIds == [] {
        if verdict == Valid { verdict := NoFindingIds; }
        FaultIsFirst(groups, k, p, before, membersOfRoot, knownIds, verdict);
        return;
      }
      CollectedOneMore(groups, k, before, claimed, membersOfRoot, knownIds);
      membersOfRoot := AddToBucket(membersOfRoot, groups[k]);
    }
    assert groups[..|groups|] == groups;
    verdict := Valid;
  }

  lemma {:induction false} FaultIsFirst(
    groups: seq<Group>, k: nat, p: nat, claimed: map<string, string>, membersOfRoot: map<string, set<string>>,
    knownIds: Option<set<string>>, verdict: Verdict)
    requires k < |groups| && Collected(claimed, membersOfRoot, groups[..k], knownIds) && p <= |Ids(groups[k])|
    requires forall q | 0 <= q < p :: var id := Ids(groups[k])[q];
               !(id in claimed && claimed[id] != groups[k].rootCauseId) && !Stranger(groups[k], knownIds, id)
    requires match verdict
             case Conflict(id) =>
               p < |Ids(groups[k])| && id == Ids(groups[k])[p] && id in claimed && claimed[id] != groups[k].rootCauseId
             case UnknownMember(id) =>
               && p < |Ids(groups[k])| && id == Ids(groups[k])[p] && Stranger(groups[k], knownIds, id)
               && !(id in claimed && claimed[id] != groups[k].rootCauseId)
             case NoFindingIds => p == |Ids(groups[k])| && groups[k].findingIds == []
             case _ => false
    ensures FirstFault(groups, knownIds, k, p, verdict) && !WellFormed(groups, knownIds)
  {
    RecordedIsConsistent(claimed, groups[..k]);
    forall id ensures Clashes(groups, k, id) <==> id in claimed && claimed[id] != groups[k].rootCauseId {
      ClashIsRecorded(groups, k, claimed, id);
    }
    if verdict.Conflict? { ConflictRefutes(groups, k, claimed, verdict.id); }
  }

  /**
   * Validation accepts exactly the well-formed sidecars, and reports the first fault in the order of groups
   * and ids; roots are looked at only when there is none.
   */
  method ValidateFindingGroups(groups: seq<Group>, knownIds: Option<set<string>>) returns (verdict: Verdict)
    ensures verdict == Valid <==> WellFormed(groups, knownIds)
    ensures verdict.Cycle? <==> Sound(groups, knownIds) && !RootsAreStable(groups)
    ensures verdict.Cycle? ==> UnstableRootIs(groups, verdict.root)
    ensures verdict != Valid && !verdict.Cycle? ==> exists k: nat, p: nat :: FirstFault(groups, knownIds, k, p, verdict)
  {
    var claimed, membersOfRoot;
    claimed, membersOfRoot, verdict := CollectClaims(groups, knownIds);
    if verdict != Valid {
      FaultIsNoCycle(groups, knownIds, verdict);
      return;
    }
    RecordedIsConsistent(claimed, groups);
    var roots := membersOfRoot.Keys;
    while roots != {}
      invariant roots <= membersOfRoot.Keys
      invariant forall root | root in membersOfRoot && root !in roots && root in claimed :: claimed[root] == root
    {
      var root :| root in roots;
      if root in claimed && claimed[root] != root && root !in membersOfRoot[root] {
        UnstableRoot(groups, claimed, root);
        return Cycle(root);
      }
      roots := roots - {root};
    }
    StableRoots(groups, claimed, membersOfRoot);
  }

  lemma {:induction false} FaultIsNoCycle(groups: seq<Group>, knownIds: Option<set<string>>, verdict: Verdict)
    requires exists k: nat, p: nat :: FirstFault(groups, knownIds, k, p, verdict)
    ensures !verdict.Cycle? && !Sound(groups, knownIds)
  {
    var k: nat, p: nat :| FirstFault(groups, knownIds, k, p, verdict);
    if verdict.Conflict? {
      var i :| 0 <= i < k && verdict.id in Ids(groups[i]) && groups[i].rootCauseId != groups[k].rootCauseId;
    }
  }

  lemma {:induction false} StableRoots(
    groups: seq<Group>, claimed: map<string, string>, membersOfRoot: map<string, set<string>>)
    requires Recorded(claimed, groups) && Buckets(membersOfRoot, groups)
    requires forall root | root in membersOfRoot && root in claimed :: claimed[root] == root
    ensures RootsAreStable(groups)
  {
    forall i, j | 0 <= i < |groups| && 0 <= j < |groups| && groups[i].rootCauseId in Ids(groups[j])
      ensures groups[j].rootCauseId == groups[i].rootCauseId
    {
      assert claimed[groups[i].rootCauseId] == groups[j].rootCauseId;
    }
  }

  lemma {:induction false} UnstableRoot(groups: seq<Group>, claimed: map<string, string>, root: string)
    requires Recorded(claimed, groups)
    requires exists i | 0 <= i < |groups| :: groups[i].rootCauseId == root
    requires root in claimed && claimed[root] != root
    ensures !RootsAreStable(groups) && UnstableRootIs(groups, root)
  {
    var i :| 0 <= i < |groups| && groups[i].rootCauseId == root;
    var j :| 0 <= j < |groups| && root in Ids(groups[j]) && groups[j].rootCauseId == claimed[root];
  }

  // ---------------------------------------------------------------------------------------------
  // From finding to root cause
  // ---------------------------------------------------------------------------------------------

  /** The root an id gets: later groups override earlier ones for findings, and nothing for aliases. */
  function RootOf(groups: seq<Group>, id: string): Option<string> {
    if groups == [] then None
    else
      var (earlier, last) := (groups[..|groups| - 1], groups[|groups| - 1]);
      if id in last.findingIds then Some(last.rootCauseId)
      else if RootOf(earlier, id).Some? then RootOf(earlier, id)
      else if id in last.aliases then Some(last.rootCauseId)
      else None
  }

  function Lookup(roots: map<string, string>, id: string): Option<string> {
    if id in roots then Some(roots[id]) else None
  }

  method RootCauseByFindingId(groups: seq<Group>) returns (roots: map<string, string>)
    ensures forall id :: Lookup(roots, id) == RootOf(groups, id)
    ensures Consistent(groups) ==> Recorded(roots, groups)
  {
    roots := map[];
    hide RootOf;
    assert forall id :: RootOf([], id) == None by { NoRoots(); }
    for k := 0 to |groups|
      invariant forall id :: Lookup(roots, id) == RootOf(groups[..k], id)
    {
      var g := groups[k];
      ghost var before := roots;
      for i := 0 to |g.findingIds|
        invariant forall id :: Lookup(roots, id) ==
                    if id in g.findingIds[..i] then Some(g.rootCauseId) else Lookup(before, id)
      {
        roots := roots[g.findingIds[i] := g.rootCauseId];
        assert g.findingIds[..i + 1] == g.findingIds[..i] + [g.findingIds[i]];
      }
      ghost var mid := roots;
      assert g.findingIds[..|g.findingIds|] == g.findingIds;
      for i := 0 to |g.aliases|
        invariant forall id :: Lookup(roots, id) ==
                    if id !in mid && id in g.aliases[..i] then Some(g.rootCauseId) else Lookup(mid, id)
      {
        assert g.aliases[..i + 1] == g.aliases[..i] + [g.aliases[i]];
        if g.aliases[i] !in roots { roots := roots[g.aliases[i] := g.rootCauseId]; }
      }
      assert g.aliases[..|g.aliases|] == g.aliases;
      forall id ensures Lookup(roots, id) == RootOf(groups[..k + 1], id) {
        RootOfOneMore(groups, k, id);
      }
    }
    assert groups[..|groups|] == groups;
    ConsistentRoots(groups, roots);
  }

  lemma NoRoots()
    ensures forall id :: RootOf([], id) == None
  {
  }

  lemma {:induction false} RootOfOneMore(groups: seq<Group>, k: nat, id: string)
    requires k < |groups|
    ensures var (g, before) := (groups[k], RootOf(groups[..k], id));
            RootOf(groups[..k + 1], id) ==
            if id in g.findingIds then Some(g.rootCauseId)
            else if before.Some? then before
            else if id in g.aliases then Some(g.rootCauseId) else None
  {
    assert groups[..k + 1][..k] == groups[..k] && groups[..k + 1][k] == groups[k];
  }

  /** Group `k` is the one that decides the root of an id. */
  ghost predicate Decides(groups: seq<Group>, id: string, k: nat)
    requires k < |groups|
  {
    || (id in groups[k].findingIds && forall j | k < j < |groups| :: id !in groups[j].findingIds)
    || (id in groups[k].aliases && (forall j | 0 <= j < |groups| :: id !in groups[j].findingIds)
        && forall j | 0 <= j < k :: id !in groups[j].aliases)
  }

  /** The last group that lists an id as a finding decides, or else the first that lists it as an alias. */
  lemma {:induction false} DecidingGroup(groups: seq<Group>, id: string)
    ensures RootOf(groups, id) == None <==> forall k | 0 <= k < |groups| :: id !in Ids(groups[k])
    ensures forall k | 0 <= k < |groups| && Decides(groups, id, k) :: RootOf(groups, id) == Some(groups[k].rootCauseId)
    ensures RootOf(groups, id).Some? ==> exists k | 0 <= k < |groups| :: Decides(groups, id, k)
    decreases |groups|
  {
    if groups != [] {
      var n := |groups| - 1;
      var earlier := groups[..n];
      DecidingGroup(earlier, id);
      if id in groups[n].findingIds {
        assert Decides(groups, id, n);
      } else {
        forall k | 0 <= k < n ensures Decides(groups, id, k) <==> Decides(earlier, id, k) {
          assert earlier[k] == groups[k];
        }
        if RootOf(earlier, id) == None && id in groups[n].aliases {
          forall j | 0 <= j < n ensures id !in Ids(groups[j]) { assert groups[j] == earlier[j]; }
          assert Decides(groups, id, n);
        }
      }
    }
  }

  /** In a consistent sidecar the map is the one function its groups define. */
  lemma {:induction false} ConsistentRoots(groups: seq<Group>, roots: map<string, string>)
    requires forall id :: Lookup(roots, id) == RootOf(groups, id)
    ensures forall id | id in roots :: Claims(groups, id, roots[id])
    ensures forall k, id | 0 <= k < |groups| && id in Ids(groups[k]) :: id in roots
    ensures Consistent(groups) ==> Recorded(roots, groups)
  {
    hide RootOf, Consistent;
    forall id | id in roots ensures Claims(groups, id, roots[id]) {
      DecidingGroup(groups, id);
      assert Lookup(roots, id) == Some(roots[id]);
      var k :| 0 <= k < |groups| && Decides(groups, id, k);
      assert id in Ids(groups[k]);
    }
    forall k, id | 0 <= k < |groups| && id in Ids(groups[k]) ensures id in roots {
      DecidingGroup(groups, id);
      assert Lookup(roots, id).Some?;
    }
    if Consistent(groups) { AllClaimedIsRecorded(roots, groups); }
  }

  lemma AllClaimedIsRecorded(roots: map<string, string>, groups: seq<Group>)
    requires Consistent(groups)
    requires forall id | id in roots :: Claims(groups, id, roots[id])
    requires forall k, id | 0 <= k < |groups| && id in Ids(groups[k]) :: id in roots
    ensures Recorded(roots, groups)
  {
  }

  function Resolve(roots: map<string, string>, id: string): string {
    if id in roots then roots[id] else id
  }

  /** In a well-formed sidecar every id has one root, and a root is its own root. */
  lemma {:induction false} ResolutionIsStable(
    groups: seq<Group>, knownIds: Option<set<string>>, roots: map<string, string>, id: string)
    requires WellFormed(groups, knownIds) && Recorded(roots, groups)
    ensures Resolve(roots, Resolve(roots, id)) == Resolve(roots, id)
    ensures forall root | Claims(groups, id, root) :: Resolve(roots, id) == root
  {
    if id in roots {
      var i :| 0 <= i < |groups| && id in Ids(groups[i]) && groups[i].rootCauseId == roots[id];
      if roots[id] in roots {
        var j :| 0 <= j < |groups| && roots[id] in Ids(groups[j]) && groups[j].rootCauseId == roots[roots[id]];
      }
    }
  }
}
