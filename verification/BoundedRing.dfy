/** A ring that keeps the most recent bytes of a stream as the chunks they came in. */
module BoundedRing {
  import opened Chunks
  import opened Utf8

  /** The last `limit` bytes, or all if there are fewer. */
  function Suffix(s: Bytes, limit: nat): Bytes {
    if |s| <= limit then s else s[|s| - limit..]
  }

  /** Only what is left matters when more is appended. */
  lemma SuffixOfSuffix(s: Bytes, more: Bytes, limit: nat)
    ensures Suffix(Suffix(s, limit) + more, limit) == Suffix(s + more, limit)
  {
  }

  /** Bytes in front of the last ones may go. */
  lemma DropKeepsSuffix(s: Bytes, k: nat, limit: nat)
    requires k + limit <= |s|
    ensures Suffix(s[k..], limit) == Suffix(s, limit)
  {
  }

  /** What is left when some bytes of the first chunk go. */
  lemma {:induction false} FlattenOfCut(chunks: seq<Bytes>, k: nat)
    requires chunks != [] && k <= |chunks[0]|
    ensures Flatten(chunks[0 := chunks[0][k..]]) == Flatten(chunks)[k..]
    ensures k == |chunks[0]| ==> Flatten(chunks[1..]) == Flatten(chunks)[k..]
  {
    assert chunks[0 := chunks[0][k..]][1..] == chunks[1..];
  }

  class Ring {
    const limit: nat
    var chunks: seq<Bytes>
    var total: nat
    ghost var appended: Bytes        // everything since the last clear

    constructor (limit: nat)
      ensures Valid() && this.limit == limit && appended == []
    {
      this.limit := limit;
      chunks, total, appended := [], 0, [];
    }

    ghost predicate Valid()
      reads this
    {
      total == |Flatten(chunks)| && Flatten(chunks) == Suffix(appended, limit)
    }

    method Append(buffer: Bytes)
      requires Valid()
      modifies this
      ensures Valid() && appended == old(appended) + buffer
    {
      ghost var all := Flatten(chunks) + buffer;
      SuffixOfSuffix(appended, buffer, limit);
      appended := appended + buffer;
      if buffer == [] { return; }
      FlattenOfOneMore(chunks, buffer);
      chunks, total := chunks + [buffer], total + |buffer|;
      while total > limit && chunks != []
        invariant total == |Flatten(chunks)| && appended == old(appended) + buffer
        invariant Suffix(Flatten(chunks), limit) == Suffix(all, limit)
        decreases total, |chunks|
      {
        var (excess, head) := (total - limit, chunks[0]);
        ghost var cut := if |head| <= excess then |head| else excess;
        FlattenOfCut(chunks, cut);
        DropKeepsSuffix(Flatten(chunks), cut, limit);
        if |head| <= excess {
          chunks, total := chunks[1..], total - |head|;
        } else {
          chunks, total := chunks[0 := head[excess..]], total - excess;
        }
      }
    }

    method Text() returns (text: seq<Scalar>)
      requires Valid()
      ensures text == Decode(Suffix(appended, limit))
    {
      text := Decode(Flatten(chunks));
    }

    method Clear()
      modifies this
      ensures Valid() && appended == []
    {
      chunks, total, appended := [], 0, [];
    }
  }
}
