/** The table-filling search for a longest common substring. */
module CommonSubstring {
  import opened Text16

  predicate OccursAt(part: Text, whole: Text, i: nat) {
    i + |part| <= |whole| && whole[i..i + |part|] == part
  }

  predicate OccursIn(part: Text, whole: Text) {
    exists i | 0 <= i <= |whole| :: OccursAt(part, whole, i)
  }

  predicate IsCommon(part: Text, left: Text, right: Text) {
    OccursIn(part, left) && OccursIn(part, right)
  }

  /** The last `n` units before position `i` on the left equal those before `j` on the right. */
  predicate AgreeBefore(left: Text, right: Text, i: nat, j: nat, n: nat)
    requires i <= |left| && j <= |right|
  {
    n <= i && n <= j && left[i - n..i] == right[j - n..j]
  }

  /** `v` is the length of the longest agreement that ends at `i` and `j`. */
  predicate IsLongestAt(left: Text, right: Text, i: nat, j: nat, v: nat)
    requires i <= |left| && j <= |right|
  {
    && AgreeBefore(left, right, i, j, v)
    && forall n | v < n <= i :: !AgreeBefore(left, right, i, j, n)
  }

  lemma {:induction false} AgreementStep(left: Text, right: Text, i: nat, j: nat, n: nat)
    requires 0 < i <= |left| && 0 < j <= |right| && n > 0
    ensures AgreeBefore(left, right, i, j, n) <==>
            left[i - 1] == right[j - 1] && AgreeBefore(left, right, i - 1, j - 1, n - 1)
  {
    if n <= i && n <= j {
      var (a, b) := (left[i - n..i], right[j - n..j]);
      assert a == a[..n - 1] + [a[n - 1]] && b == b[..n - 1] + [b[n - 1]];
      assert a[..n - 1] == left[i - n..i - 1] && a[n - 1] == left[i - 1];
      assert b[..n - 1] == right[j - n..j - 1] && b[n - 1] == right[j - 1];
    }
  }

  lemma {:induction false} CellIsLongest(left: Text, right: Text, i: nat, j: nat, diagonal: nat)
    requires 0 < i <= |left| && 0 < j <= |right|
    requires IsLongestAt(left, right, i - 1, j - 1, diagonal)
    ensures IsLongestAt(left, right, i, j, if left[i - 1] == right[j - 1] then diagonal + 1 else 0)
  {
    forall n | 0 < n <= i
      ensures AgreeBefore(left, right, i, j, n) <==>
              left[i - 1] == right[j - 1] && AgreeBefore(left, right, i - 1, j - 1, n - 1)
    {
      AgreementStep(left, right, i, j, n);
    }
  }

  /** A common substring shows up as an agreement somewhere in the table. */
  lemma {:induction false} CommonIsAgreement(part: Text, left: Text, right: Text) returns (i: nat, j: nat)
    requires IsCommon(part, left, right)
    ensures i <= |left| && j <= |right| && AgreeBefore(left, right, i, j, |part|)
  {
    var a :| 0 <= a <= |left| && OccursAt(part, left, a);
    var b :| 0 <= b <= |right| && OccursAt(part, right, b);
    i, j := a + |part|, b + |part|;
  }

  /** The result occurs in both texts, and nothing longer does. */
  method LongestCommonSubstringText(left: Text, right: Text) returns (shared: Text)
    ensures IsCommon(shared, left, right)
    ensures forall part :: IsCommon(part, left, right) ==> |part| <= |shared|
  {
    if |left| == 0 || |right| == 0 {
      assert OccursAt([], left, 0) && OccursAt([], right, 0);
      return [];
    }
    var (rows, cols) := (|left| + 1, |right| + 1);
    var dp := new nat[rows, cols]((_, _) => 0);
    var best, end := 0, 0;
    ghost var endRight := 0;
    for i := 1 to rows
      invariant forall r, c | 0 <= r < i && 0 <= c < cols :: IsLongestAt(left, right, r, c, dp[r, c])
      invariant forall r, c | i <= r < rows && 0 <= c < cols :: dp[r, c] == 0
      invariant forall r, c | 0 <= r < i && 0 <= c < cols :: dp[r, c] <= best
      invariant end <= |left| && endRight <= |right| && AgreeBefore(left, right, end, endRight, best)
    {
      for j := 1 to cols
        invariant forall r, c | 0 <= r < i && 0 <= c < cols :: IsLongestAt(left, right, r, c, dp[r, c])
        invariant forall c | 0 <= c < j :: IsLongestAt(left, right, i, c, dp[i, c]) && dp[i, c] <= best
        invariant forall c | j <= c < cols :: dp[i, c] == 0
        invariant forall r, c | i < r < rows && 0 <= c < cols :: dp[r, c] == 0
        invariant forall r, c | 0 <= r < i && 0 <= c < cols :: dp[r, c] <= best
        invariant end <= |left| && endRight <= |right| && AgreeBefore(left, right, end, endRight, best)
      {
        CellIsLongest(left, right, i, j, dp[i - 1, j - 1]);
        if left[i - 1] == right[j - 1] {
          var value := dp[i - 1, j - 1] + 1;
          dp[i, j] := value;
          if value > best {
            best := value;
            end := i;
            endRight := j;
          }
        }
      }
    }
    shared := left[end - best..end];
    assert OccursAt(shared, left, end - best) && OccursAt(shared, right, endRight - best);
    forall part | IsCommon(part, left, right)
      ensures |part| <= |shared|
    {
      var i, j := CommonIsAgreement(part, left, right);
      assert IsLongestAt(left, right, i, j, dp[i, j]);
    }
  }
}
