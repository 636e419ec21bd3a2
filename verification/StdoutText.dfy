/**
 * How the one-shot driver reads its command's output: each chunk of bytes is decoded by itself and the
 * texts are put together. A character that two chunks share is lost.
 */
module StdoutText {
  import opened Chunks
  import opened Utf8
  import Detail = SourceDetail

  function TextOf(chunks: seq<Bytes>): seq<Scalar> {
    if chunks == [] then [] else Decode(chunks[0]) + TextOf(chunks[1..])
  }

  predicate AllContinuations(s: Bytes) {
    forall i | 0 <= i < |s| :: IsContinuation(s[i])
  }

  /** Every chunk is whole characters. */
  ghost predicate Whole(chunks: seq<Bytes>) {
    forall i | 0 <= i < |chunks| :: exists t :: chunks[i] == Encode(t)
  }

  /** The end of a character whose beginning is in an earlier chunk becomes one replacement per byte. */
  lemma {:induction false} LooseBytesAreReplaced(ends: Bytes, rest: Bytes)
    requires AllContinuations(ends)
    ensures |Decode(ends + rest)| == |ends| + |Decode(rest)|
  {
    if ends == [] {
      assert ends + rest == rest;
    } else {
      assert (ends + rest)[1..] == ends[1..] + rest;
      LooseBytesAreReplaced(ends[1..], rest);
    }
  }

  lemma SomethingIsDecoded(s: Bytes)
    requires s != []
    ensures |Decode(s)| >= 1
  {
  }

  /** The first chunk ends with part of a character, or right behind one. */
  lemma {:induction false} FirstChunk(ends: Bytes, t: seq<Scalar>, chunk: Bytes, k: nat, part: Bytes)
    requires AllContinuations(ends) && |ends| <= |chunk| && chunk <= ends + Encode(t)
    requires Detail.EndsWith(chunk[|ends|..], t, k, part)
    ensures |Decode(chunk)| == |ends| + k + |Decode(part)|
  {
    assert chunk == ends + chunk[|ends|..];
    LooseBytesAreReplaced(ends, chunk[|ends|..]);
    DecodeOfEncoding(t[..k], part);
  }

  /** What the first chunk leaves of the bytes: the end of a character, if it cut one, and whole ones. */
  /** Two ways to cut the same bytes. */
  lemma {:induction false} CutTwice(a: Bytes, b: Bytes, c: Bytes, d: Bytes)
    requires a + b == c + d && |a| <= |c|
    ensures c == a + c[|a|..] && b == c[|a|..] + d
  {
    assert (a + b)[..|a|] == a && (c + d)[..|a|] == c[..|a|];
    assert (a + b)[|a|..] == b && (c + d)[|a|..] == c[|a|..] + d;
  }

  lemma {:induction false} BytesLeft(t: seq<Scalar>, s: Bytes, k: nat, part: Bytes, rest: Bytes) returns (ends: Bytes)
    requires Detail.EndsWith(s, t, k, part) && s + rest == Encode(t)
    ensures AllContinuations(ends) && (part == [] <==> ends == [])
    ensures rest == ends + Encode(t[if part == [] then k else k + 1..])
  {
    hide Encode, EncodeOne, AllContinuations;
    assert t == t[..k] + t[k..];
    EncodeOfConcat(t[..k], t[k..]);
    CutTwice(Encode(t[..k]), Encode(t[k..]), s, rest);
    assert s[|Encode(t[..k])|..] == part;
    assert part + rest == Encode(t[k..]);
    if part == [] {
      ends := [];
      NoEnds();
    } else {
      ends := EncodeOne(t[k])[|part|..];
      EndsOfCharacter(t[k], |part|);
      EncodeOfFirst(t[k..]);
      assert t[k..][1..] == t[k + 1..];
      CutTwice(part, rest, EncodeOne(t[k]), Encode(t[k + 1..]));
    }
  }

  lemma NoEnds()
    ensures AllContinuations([])
  {
  }

  lemma {:induction false} EndsOfCharacter(c: Scalar, n: nat)
    requires 0 < n < |EncodeOne(c)|
    ensures AllContinuations(EncodeOne(c)[n..])
  {
    EncodingShape(c);
    hide EncodeOne;
  }

  lemma EncodeOfFirst(t: seq<Scalar>)
    requires t != []
    ensures Encode(t) == EncodeOne(t[0]) + Encode(t[1..])
  {
  }

  /** Nothing is decoded to fewer characters, and a cut character to more. */
  lemma {:induction false} CutsAddCharacters(ends: Bytes, t: seq<Scalar>, chunks: seq<Bytes>)
    requires AllContinuations(ends) && Flatten(chunks) == ends + Encode(t)
    ensures |TextOf(chunks)| >= |ends| + |t|
    ensures ends == [] && |TextOf(chunks)| == |t| ==> Whole(chunks)
    decreases |chunks|
  {
    hide Decode, Encode, EncodeOne;
    if chunks == [] {
      assert |Encode(t)| == 0;
      NothingEncoded(t);
    } else {
      var (chunk, later) := (chunks[0], chunks[1..]);
      assert chunk + Flatten(later) == ends + Encode(t);
      if |chunk| <= |ends| {
        ChunkOfEnds(ends, t, chunk, later);
        CutsAddCharacters(ends[|chunk|..], t, later);
        NothingDecoded();
        assert chunks == [chunk] + later;
        WholeAfter(chunk, later, []);
      } else {
        var s := chunk[|ends|..];
        CutTwice(ends, Encode(t), chunk, Flatten(later));
        assert chunks == [chunk] + later;
        var k, part := Detail.PrefixEnds(s, t);
        FirstChunk(ends, t, chunk, k, part);
        var left := BytesLeft(t, s, k, part, Flatten(later));
        CutsAddCharacters(left, t[if part == [] then k else k + 1..], later);
        if part != [] { SomethingIsDecoded(part); } else { NothingDecoded(); WholeAfter(chunk, later, t[..k]); }
      }
    }
  }

  lemma NothingEncoded(t: seq<Scalar>)
    requires Encode(t) == []
    ensures t == []
  {
  }

  lemma NothingDecoded()
    ensures Decode([]) == [] && Encode([]) == []
  {
  }

  lemma {:induction false} ChunkOfEnds(ends: Bytes, t: seq<Scalar>, chunk: Bytes, later: seq<Bytes>)
    requires AllContinuations(ends) && |chunk| <= |ends| && chunk + Flatten(later) == ends + Encode(t)
    ensures |Decode(chunk)| == |chunk| && Flatten(later) == ends[|chunk|..] + Encode(t)
  {
    CutTwice(chunk, Flatten(later), ends, Encode(t));
    assert chunk == ends[..|chunk|] && chunk + [] == chunk;
    LooseBytesAreReplaced(chunk, []);
    NothingDecoded();
  }

  lemma {:induction false} WholeAfter(chunk: Bytes, later: seq<Bytes>, t: seq<Scalar>)
    ensures Whole(later) && chunk == Encode(t) ==> Whole([chunk] + later)
  {
  }

  /**
   * The output is read as what was written if and only if every chunk is whole characters, however many
   * chunks there are: a character cut in two becomes more than one.
   */
  lemma {:induction false} ChunksReadAsTextIff(t: seq<Scalar>, chunks: seq<Bytes>)
    requires Flatten(chunks) == Encode(t)
    ensures TextOf(chunks) == t <==> Whole(chunks)
  {
    assert [] + Encode(t) == Encode(t);
    CutsAddCharacters([], t, chunks);
    if Whole(chunks) {
      WholeChunksRead(chunks);
      DecodeUndoesEncode(t);
    }
  }

  lemma {:induction false} WholeChunksRead(chunks: seq<Bytes>)
    requires Whole(chunks)
    ensures TextOf(chunks) == Decode(Flatten(chunks))
  {
    if chunks != [] {
      var t :| chunks[0] == Encode(t);
      WholeChunksRead(chunks[1..]);
      DecodeOfEncoding(t, Flatten(chunks[1..]));
      DecodeUndoesEncode(t);
    }
  }

  /** It happens to one character of two bytes. */
  lemma {:induction false} CutCharacterIsLost()
    ensures var e := EncodeOne(0xE9);
            Flatten([[e[0]], [e[1]]]) == Encode([0xE9]) && TextOf([[e[0]], [e[1]]]) == [REPLACEMENT, REPLACEMENT]
  {
    var a: Bytes := [0xC3];
    var b: Bytes := [0xA9];
    assert [a, b][1..] == [b] && [b][1..] == [] && [0xE9][1..] == [];
    assert Flatten([b]) == b + Flatten([]) && Flatten([a, b]) == a + Flatten([b]);
    assert Decode(a) == [REPLACEMENT] + Decode(a[1..]) && Decode(b) == [REPLACEMENT] + Decode(b[1..]);
    assert TextOf([b]) == Decode(b) + TextOf([]);
    assert Encode([0xE9]) == EncodeOne(0xE9) + Encode([]);
  }
}
