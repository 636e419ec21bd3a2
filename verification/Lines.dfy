/** Cutting a sequence at a separator: the pieces before each separator, and what follows the last. */
module Lines {
  /** The first position of `x` at or after `from`, or -1. */
  function IndexOf<T(==)>(s: seq<T>, x: T, from: nat): (i: int)
    requires from <= |s|
    ensures i == -1 || (from <= i < |s| && s[i] == x)
    decreases |s| - from
  {
    if from == |s| then -1 else if s[from] == x then from else IndexOf(s, x, from + 1)
  }

  lemma {:induction false} IndexOfIsFirst<T>(s: seq<T>, x: T, from: nat)
    requires from <= |s|
    ensures var i := IndexOf(s, x, from); forall k | from <= k < (if i == -1 then |s| else i) :: s[k] != x
    decreases |s| - from
  {
    if from < |s| && s[from] != x { IndexOfIsFirst(s, x, from + 1); }
  }

  function Split<T(==)>(s: seq<T>, x: T): (pieces: seq<seq<T>>)
    ensures pieces != []
    decreases |s|
  {
    var i := IndexOf(s, x, 0);
    if i == -1 then [s] else [s[..i]] + Split(s[i + 1..], x)
  }

  /** The first position is determined by what stands before it. */
  lemma {:induction false} IndexIs<T>(s: seq<T>, x: T, from: nat, i: nat)
    requires from <= i < |s| && s[i] == x && forall k | from <= k < i :: s[k] != x
    ensures IndexOf(s, x, from) == i
    decreases i - from
  {
    if from < i { IndexIs(s, x, from + 1, i); }
  }

  lemma {:induction false} NoIndex<T>(s: seq<T>, x: T, from: nat)
    requires from <= |s| && forall k | from <= k < |s| :: s[k] != x
    ensures IndexOf(s, x, from) == -1
    decreases |s| - from
  {
    if from < |s| { NoIndex(s, x, from + 1); }
  }

  /** The first line of a sequence and what follows it, or the news that there is none. */
  lemma {:induction false} FirstLine<T>(s: seq<T>, x: T)
    ensures var i := IndexOf(s, x, 0);
            if i == -1 then x !in s
            else x !in s[..i] && s == s[..i] + [x] + s[i + 1..]
  {
    IndexOfIsFirst(s, x, 0);
  }

  lemma {:induction false} SplitAt<T>(line: seq<T>, x: T, rest: seq<T>)
    requires x !in line
    ensures Split(line + [x] + rest, x) == [line] + Split(rest, x)
  {
    var s := line + [x] + rest;
    IndexIs(s, x, 0, |line|);
    assert s[..|line|] == line && s[|line| + 1..] == rest;
  }

  lemma {:induction false} SplitWithout<T>(line: seq<T>, x: T)
    requires x !in line
    ensures Split(line, x) == [line]
  {
    NoIndex(line, x, 0);
  }

  lemma {:induction false} Slice<T>(s: seq<T>, a: nat, b: nat, i: nat, j: nat)
    requires a <= b <= |s| && i <= j <= b - a
    ensures s[a..b][i..j] == s[a + i..a + j]
  {
    var part := s[a..b];
    forall k | 0 <= k < j - i ensures part[i..j][k] == s[a + i..a + j][k] {
      assert part[i + k] == s[a + (i + k)];
    }
  }
}
