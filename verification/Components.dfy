/**
 * Connected components of groups of findings: the groups are the nodes, and two findings are linked
 * when they share a group or one refers to the other. The source merges until nothing refers across.
 */
module Components {
  datatype Severity = Critical | Major | Minor | Nit

  datatype Status = Open | Closed | Accepted | Regress

  datatype Source = Consensus | Unique | Unknown

  datatype ContractClass = Unclassified | InContract | OutOfSpec

  datatype Finding = Finding(
    id: string,
    severity: Severity,
    status: Status,
    source: Source,
    verifiedClosed: bool,          // closed, and the verification of this commit says so
    contractClass: ContractClass,
    actOnFooting: bool,
    title: string,
    text: string)

  /** The textual heuristics: leading identity declarations, and similarity of evidence. */
  datatype Heuristics = Heuristics(
    refersTo: (Finding, string) -> bool,
    similar: (Finding, Finding) -> bool)

  predicate CrossReference(h: Heuristics, a: Finding, b: Finding) {
    h.refersTo(a, b.id) || h.refersTo(b, a.id)
  }

  // ---------------------------------------------------------------------------------------------
  // Bags of members
  // ---------------------------------------------------------------------------------------------

  ghost function Bag(groups: seq<seq<Finding>>): multiset<Finding> {
    if groups == [] then multiset{} else multiset(groups[0]) + Bag(groups[1..])
  }

  lemma {:induction false} BagOfConcat(a: seq<seq<Finding>>, b: seq<seq<Finding>>)
    ensures Bag(a + b) == Bag(a) + Bag(b)
  {
    if a == [] {
      assert a + b == b;
    } else {
      assert (a + b)[1..] == a[1..] + b;
      BagOfConcat(a[1..], b);
    }
  }

  lemma {:induction false} BagAround(groups: seq<seq<Finding>>, i: nat)
    requires i < |groups|
    ensures Bag(groups) == Bag(groups[..i]) + multiset(groups[i]) + Bag(groups[i + 1..])
  {
    BagOfConcat(groups[..i], groups[i..]);
    assert groups == groups[..i] + groups[i..];
    assert groups[i..][1..] == groups[i + 1..];
  }

  lemma {:induction false} BagMembers(groups: seq<seq<Finding>>, f: Finding)
    ensures f in Bag(groups) <==> exists i | 0 <= i < |groups| :: f in groups[i]
  {
    if groups != [] {
      BagMembers(groups[1..], f);
      if exists i | 0 <= i < |groups| :: f in groups[i] {
        var i :| 0 <= i < |groups| && f in groups[i];
        if i > 0 { assert f in groups[1..][i - 1]; }
      }
      if exists i | 0 <= i < |groups[1..]| :: f in groups[1..][i] {
        var i :| 0 <= i < |groups[1..]| && f in groups[1..][i];
        assert f in groups[i + 1];
      }
    }
  }

  /** No finding occurs twice. */
  ghost predicate EachOnce(bag: multiset<Finding>) {
    forall f :: bag[f] <= 1
  }

  lemma {:induction false} GroupsAreDisjoint(groups: seq<seq<Finding>>, i: nat, j: nat, f: Finding)
    requires EachOnce(Bag(groups)) && i < |groups| && j < |groups| && f in groups[i] && f in groups[j]
    ensures i == j
  {
    if i < j {
      TwoGroupsCount(groups, i, j, f);
    } else if j < i {
      TwoGroupsCount(groups, j, i, f);
    }
  }

  lemma {:induction false} TwoGroupsCount(groups: seq<seq<Finding>>, i: nat, j: nat, f: Finding)
    requires i < j < |groups| && f in groups[i] && f in groups[j]
    ensures Bag(groups)[f] >= 2
  {
    BagAround(groups, i);
    BagMembers(groups[i + 1..], f);
    assert groups[i + 1..][j - i - 1] == groups[j];
    assert multiset(groups[i])[f] >= 1 && Bag(groups[i + 1..])[f] >= 1;
  }

  // ---------------------------------------------------------------------------------------------
  // Links and paths
  // ---------------------------------------------------------------------------------------------

  ghost predicate Together(groups: seq<seq<Finding>>, a: Finding, b: Finding) {
    exists i | 0 <= i < |groups| :: a in groups[i] && b in groups[i]
  }

  /** Both are listed, and they share an initial group or one refers to the other. */
  ghost predicate Linked(h: Heuristics, groups: seq<seq<Finding>>, a: Finding, b: Finding) {
    && a in Bag(groups) && b in Bag(groups)
    && (Together(groups, a, b) || CrossReference(h, a, b))
  }

  ghost predicate IsPath(h: Heuristics, groups: seq<seq<Finding>>, p: seq<Finding>) {
    && p != [] && p[0] in Bag(groups)
    && forall i | 0 <= i < |p| - 1 :: Linked(h, groups, p[i], p[i + 1])
  }

  /** Some chain of links leads from one finding to the other. */
  ghost predicate Connected(h: Heuristics, groups: seq<seq<Finding>>, a: Finding, b: Finding) {
    exists p :: IsPath(h, groups, p) && p[0] == a && p[|p| - 1] == b
  }

  lemma {:induction false} LinkConnects(h: Heuristics, groups: seq<seq<Finding>>, a: Finding, b: Finding)
    requires Linked(h, groups, a, b)
    ensures Connected(h, groups, a, b)
  {
    assert IsPath(h, groups, [a, b]);
  }

  lemma {:induction false} ConnectedIsTransitive(
    h: Heuristics, groups: seq<seq<Finding>>, a: Finding, b: Finding, c: Finding)
    requires Connected(h, groups, a, b) && Connected(h, groups, b, c)
    ensures Connected(h, groups, a, c)
  {
    var p :| IsPath(h, groups, p) && p[0] == a && p[|p| - 1] == b;
    var q :| IsPath(h, groups, q) && q[0] == b && q[|q| - 1] == c;
    var r := p + q[1..];
    forall i | 0 <= i < |r| - 1
      ensures Linked(h, groups, r[i], r[i + 1])
    {
      if i >= |p| - 1 {
        assert r[i] == q[i - (|p| - 1)] && r[i + 1] == q[i - (|p| - 1) + 1];
      }
    }
    assert IsPath(h, groups, r);
  }

  /** Every two members of one group are connected. */
  ghost predicate GroupsConnected(h: Heuristics, initial: seq<seq<Finding>>, merged: seq<seq<Finding>>) {
    forall k, a, b | 0 <= k < |merged| && a in merged[k] && b in merged[k] :: Connected(h, initial, a, b)
  }

  /** Members of one initial group stay together. */
  ghost predicate Coarser(initial: seq<seq<Finding>>, merged: seq<seq<Finding>>) {
    forall a, b | Together(initial, a, b) :: Together(merged, a, b)
  }

  /** Some member of the one group refers to a member of the other. */
  predicate Refers(h: Heuristics, left: seq<Finding>, right: seq<Finding>) {
    exists a, b | a in left && b in right :: h.refersTo(a, b.id)
  }

  ghost predicate NoReferenceAcross(h: Heuristics, groups: seq<seq<Finding>>) {
    forall i, j | 0 <= i < |groups| && 0 <= j < |groups| && i != j :: !Refers(h, groups[i], groups[j])
  }

  lemma {:induction false} InitialGroupsConnected(h: Heuristics, groups: seq<seq<Finding>>)
    ensures GroupsConnected(h, groups, groups) && Coarser(groups, groups)
  {
    forall k, a, b | 0 <= k < |groups| && a in groups[k] && b in groups[k]
      ensures Connected(h, groups, a, b)
    {
      BagMembers(groups, a);
      BagMembers(groups, b);
      LinkConnects(h, groups, a, b);
    }
  }

  lemma {:induction false} ReferencesStayInside(
    h: Heuristics, groups: seq<seq<Finding>>, i: nat, j: nat, a: Finding, b: Finding)
    requires NoReferenceAcross(h, groups) && i < |groups| && j < |groups|
    requires a in groups[i] && b in groups[j] && CrossReference(h, a, b)
    ensures i == j
  {
    assert Refers(h, groups[i], groups[j]) || Refers(h, groups[j], groups[i]);
  }

  /** Along a path nothing leaves the group it starts in, once nothing refers across groups. */
  lemma {:induction false} PathsStayInside(
    h: Heuristics, initial: seq<seq<Finding>>, merged: seq<seq<Finding>>, p: seq<Finding>, n: nat)
    requires EachOnce(Bag(merged)) && Bag(merged) == Bag(initial)
    requires Coarser(initial, merged) && NoReferenceAcross(h, merged)
    requires IsPath(h, initial, p) && n < |p|
    ensures Together(merged, p[0], p[n])
  {
    if n == 0 {
      BagMembers(merged, p[0]);
    } else {
      PathsStayInside(h, initial, merged, p, n - 1);
      assert Linked(h, initial, p[n - 1], p[n - 1 + 1]);
      var i :| 0 <= i < |merged| && p[0] in merged[i] && p[n - 1] in merged[i];
      BagMembers(merged, p[n]);
      var j :| 0 <= j < |merged| && p[n] in merged[j];
      if Together(initial, p[n - 1], p[n]) {
        var k :| 0 <= k < |merged| && p[n - 1] in merged[k] && p[n] in merged[k];
        GroupsAreDisjoint(merged, i, k, p[n - 1]);
      } else {
        ReferencesStayInside(h, merged, i, j, p[n - 1], p[n]);
      }
    }
  }

  /** The characterization: merged groups are exactly the connected components. */
  lemma {:induction false} GroupsAreComponents(
    h: Heuristics, initial: seq<seq<Finding>>, merged: seq<seq<Finding>>, a: Finding, b: Finding)
    requires EachOnce(Bag(merged)) && Bag(merged) == Bag(initial)
    requires GroupsConnected(h, initial, merged) && Coarser(initial, merged) && NoReferenceAcross(h, merged)
    ensures Together(merged, a, b) <==> Connected(h, initial, a, b)
  {
    if Connected(h, initial, a, b) {
      var p :| IsPath(h, initial, p) && p[0] == a && p[|p| - 1] == b;
      PathsStayInside(h, initial, merged, p, |p| - 1);
    }
  }

  // ---------------------------------------------------------------------------------------------
  // One merge
  // ---------------------------------------------------------------------------------------------

  /** Group `j` joins group `i` and disappears; `joined` lists the members of both in some order. */
  function MergeAt(groups: seq<seq<Finding>>, i: nat, j: nat, joined: seq<Finding>): seq<seq<Finding>>
    requires i < j < |groups|
  {
    groups[i := joined][..j] + groups[j + 1..]
  }

  lemma {:induction false} BagOfParts(groups: seq<seq<Finding>>, i: nat, j: nat)
    requires i < j < |groups|
    ensures Bag(groups) == Bag(groups[..i]) + multiset(groups[i]) + Bag(groups[i + 1..j]) +
                           multiset(groups[j]) + Bag(groups[j + 1..])
  {
    BagAround(groups, j);
    BagAround(groups[..j], i);
    assert groups[..j][..i] == groups[..i] && groups[..j][i + 1..] == groups[i + 1..j];
  }

  lemma MergeParts(groups: seq<seq<Finding>>, i: nat, j: nat, joined: seq<Finding>)
    requires i < j < |groups|
    ensures var merged := MergeAt(groups, i, j, joined);
            && merged[..i] == groups[..i] && merged[i] == joined
            && merged[i + 1..] == groups[i + 1..j] + groups[j + 1..]
  {
  }

  lemma {:induction false} MergeKeepsBag(groups: seq<seq<Finding>>, i: nat, j: nat, joined: seq<Finding>)
    requires i < j < |groups| && multiset(joined) == multiset(groups[i]) + multiset(groups[j])
    ensures Bag(MergeAt(groups, i, j, joined)) == Bag(groups)
  {
    BagOfParts(groups, i, j);
    MergeParts(groups, i, j, joined);
    BagAround(MergeAt(groups, i, j, joined), i);
    BagOfConcat(groups[i + 1..j], groups[j + 1..]);
  }

  /** Where the members of the old groups are after the merge. */
  ghost function NewIndex(i: nat, j: nat, k: nat): nat
    requires i < j
  {
    if k == j then i else if k < j then k else k - 1
  }

  lemma {:induction false} MergeMoves(groups: seq<seq<Finding>>, i: nat, j: nat, joined: seq<Finding>, k: nat)
    requires i < j < |groups| && k < |groups|
    requires multiset(joined) == multiset(groups[i]) + multiset(groups[j])
    ensures NewIndex(i, j, k) < |MergeAt(groups, i, j, joined)|
    ensures forall f | f in groups[k] :: f in MergeAt(groups, i, j, joined)[NewIndex(i, j, k)]
  {
    forall f | f in groups[k] && (k == i || k == j)
      ensures f in joined
    {
      assert f in multiset(groups[k]);
      assert f in multiset(joined);
    }
  }

  /** Where the members of a new group come from. */
  lemma {:induction false} MergeOrigin(
    groups: seq<seq<Finding>>, i: nat, j: nat, joined: seq<Finding>, m: nat, f: Finding)
    requires i < j < |groups| && m < |MergeAt(groups, i, j, joined)|
    requires multiset(joined) == multiset(groups[i]) + multiset(groups[j])
    requires f in MergeAt(groups, i, j, joined)[m]
    ensures m != i ==> f in groups[if m < j then m else m + 1]
    ensures m == i ==> f in groups[i] || f in groups[j]
  {
    if m == i {
      assert f in multiset(joined);
    }
  }

  lemma {:induction false} MergeKeepsCoarser(
    initial: seq<seq<Finding>>, groups: seq<seq<Finding>>, i: nat, j: nat, joined: seq<Finding>)
    requires Coarser(initial, groups) && i < j < |groups|
    requires multiset(joined) == multiset(groups[i]) + multiset(groups[j])
    ensures Coarser(initial, MergeAt(groups, i, j, joined))
  {
    forall a, b | Together(initial, a, b)
      ensures Together(MergeAt(groups, i, j, joined), a, b)
    {
      var k :| 0 <= k < |groups| && a in groups[k] && b in groups[k];
      MergeMoves(groups, i, j, joined, k);
    }
  }

  lemma {:induction false} MergeKeepsConnected(
    h: Heuristics, initial: seq<seq<Finding>>, groups: seq<seq<Finding>>, i: nat, j: nat, joined: seq<Finding>)
    requires GroupsConnected(h, initial, groups) && Bag(groups) == Bag(initial) && i < j < |groups|
    requires multiset(joined) == multiset(groups[i]) + multiset(groups[j])
    requires Refers(h, groups[i], groups[j]) || Refers(h, groups[j], groups[i])
    ensures GroupsConnected(h, initial, MergeAt(groups, i, j, joined))
  {
    var merged := MergeAt(groups, i, j, joined);
    forall k, a, b | 0 <= k < |merged| && a in merged[k] && b in merged[k]
      ensures Connected(h, initial, a, b)
    {
      MergeOrigin(groups, i, j, joined, k, a);
      MergeOrigin(groups, i, j, joined, k, b);
      if k == i {
        if a in groups[i] && b in groups[j] { BridgeConnects(h, initial, groups, i, j, a, b); }
        if a in groups[j] && b in groups[i] { BridgeConnects(h, initial, groups, j, i, a, b); }
      }
    }
  }

  lemma {:induction false} BridgeConnects(
    h: Heuristics, initial: seq<seq<Finding>>, groups: seq<seq<Finding>>, i: nat, j: nat, a: Finding, b: Finding)
    requires GroupsConnected(h, initial, groups) && Bag(groups) == Bag(initial)
    requires i < |groups| && j < |groups| && a in groups[i] && b in groups[j]
    requires Refers(h, groups[i], groups[j]) || Refers(h, groups[j], groups[i])
    ensures Connected(h, initial, a, b)
  {
    var x, y :| x in groups[i] && y in groups[j] && CrossReference(h, x, y);
    BagMembers(groups, x);
    BagMembers(groups, y);
    LinkConnects(h, initial, x, y);
    ConnectedIsTransitive(h, initial, a, x, y);
    ConnectedIsTransitive(h, initial, a, y, b);
  }
}
