/** `rome_utils::iter::into_chunks`: cut a vector into pieces of a fixed size. */
module Chunks {

  function Concat<T>(chunks: seq<seq<T>>): seq<T> {
    if chunks == [] then [] else chunks[0] + Concat(chunks[1..])
  }

  /** Full chunks of `size` elements, then one shorter non-empty rest, if any. */
  function Cut<T>(s: seq<T>, size: nat): seq<seq<T>>
    requires 0 < size
  {
    if s == [] then []
    else if |s| <= size then [s]
    else [s[..size]] + Cut(s[size..], size)
  }

  /** What makes `chunks` the chunking of `s`, without saying how it is computed. */
  ghost predicate IsCut<T>(chunks: seq<seq<T>>, s: seq<T>, size: nat) {
    && Concat(chunks) == s
    && (forall k :: 0 <= k < |chunks| ==> 0 < |chunks[k]| <= size)
    && (forall k :: 0 <= k < |chunks| - 1 ==> |chunks[k]| == size)
  }

  lemma {:induction false} ConcatAppend<T>(a: seq<seq<T>>, b: seq<seq<T>>)
    ensures Concat(a + b) == Concat(a) + Concat(b)
  {
    if a == [] {
      assert a + b == b;
    } else {
      var all := a + b;
      assert all[0] == a[0] && all[1..] == a[1..] + b;
      ConcatAppend(a[1..], b);
      assert (a[0] + Concat(a[1..])) + Concat(b) == a[0] + (Concat(a[1..]) + Concat(b));
    }
  }

  lemma ConcatSingle<T>(c: seq<T>)
    ensures Concat([c]) == c
  {
    assert [c][1..] == [];
  }

  lemma {:induction false} CutIsCut<T>(s: seq<T>, size: nat)
    requires 0 < size
    ensures IsCut(Cut(s, size), s, size)
  {
    if s == [] {
    } else if |s| <= size {
      ConcatSingle(s);
    } else {
      var rest := Cut(s[size..], size);
      CutIsCut(s[size..], size);
      assert Cut(s, size)[1..] == rest;
      assert s == s[..size] + s[size..];
    }
  }

  /** The three conditions leave no choice: the chunking is unique. */
  lemma {:induction false} CutUnique<T>(chunks: seq<seq<T>>, s: seq<T>, size: nat)
    requires 0 < size && IsCut(chunks, s, size)
    ensures chunks == Cut(s, size)
  {
    if chunks == [] {
    } else {
      var tail := chunks[1..];
      assert forall k :: 0 <= k < |tail| ==> tail[k] == chunks[k + 1];
      if tail == [] {
        assert Concat(tail) == [];
        assert s == chunks[0];
      } else {
        assert |chunks[0]| == size;
        assert s[size..] == Concat(tail);
        CutUnique(tail, s[size..], size);
        assert tail[0] == chunks[1] && |Concat(tail)| >= |tail[0]|;
        assert s[..size] == chunks[0];
      }
    }
  }

  /** A slice of what is left after the first chunk. */
  lemma SliceOfRest<T>(s: seq<T>, size: nat, low: nat, high: nat)
    requires size <= low <= high <= |s|
    ensures s[size..][low - size..high - size] == s[low..high]
  {
  }

  lemma Strides(size: nat, k: nat)
    requires 0 < k
    ensures size <= k * size && (k - 1) * size == k * size - size
  {
  }

  /** Where the chunk that starts at `low` ends. */
  function EndOfChunk(length: nat, size: nat, low: nat): nat {
    if low + size <= length then low + size else length
  }

  /** The chunk that starts at `low == k * size`. */
  lemma {:induction false} CutFrom<T>(s: seq<T>, size: nat, k: nat, low: nat)
    requires 0 < size && k < |Cut(s, size)| && low == k * size
    ensures low < |s|
    ensures k < |Cut(s, size)| - 1 ==> low + size < |s|
    ensures k == |Cut(s, size)| - 1 ==> |s| <= low + size
    ensures Cut(s, size)[k] == s[low..EndOfChunk(|s|, size, low)]
  {
    if |s| <= size {
      assert k == 0;
    } else if k == 0 {
      assert Cut(s[size..], size) != [];
    } else {
      Strides(size, k);
      CutFrom(s[size..], size, k - 1, low - size);
      SliceOfRest(s, size, low, EndOfChunk(|s|, size, low));
    }
  }

  /** Chunk number `k` is the slice that starts at `k * size`. */
  lemma CutAt<T>(s: seq<T>, size: nat, k: nat)
    requires 0 < size && k < |Cut(s, size)|
    ensures k * size < |s|
    ensures k < |Cut(s, size)| - 1 ==> (k + 1) * size < |s|
    ensures k == |Cut(s, size)| - 1 ==> |s| <= (k + 1) * size
    ensures Cut(s, size)[k] == s[k * size .. if (k + 1) * size <= |s| then (k + 1) * size else |s|]
  {
    hide Cut;
    Strides(size, k + 1);
    CutFrom(s, size, k, k * size);
  }

  /** The loop of `into_chunks`; the source panics on a chunk size of zero. */
  method IntoChunks<T>(items: seq<T>, chunkSize: nat) returns (chunks: seq<seq<T>>)
    requires 0 < chunkSize
    ensures IsCut(chunks, items, chunkSize)
    ensures chunks == Cut(items, chunkSize)
  {
    var vec := items;
    chunks := [];
    while vec != []
      invariant Concat(chunks) + vec == items
      invariant forall k :: 0 <= k < |chunks| ==> 0 < |chunks[k]| <= chunkSize
      invariant vec != [] ==> forall k :: 0 <= k < |chunks| ==> |chunks[k]| == chunkSize
      invariant forall k :: 0 <= k < |chunks| - 1 ==> |chunks[k]| == chunkSize
      decreases |vec|
    {
      var n := if chunkSize < |vec| then chunkSize else |vec|;
      var chunk := vec[..n];
      ConcatAppend(chunks, [chunk]);
      ConcatSingle(chunk);
      assert vec == chunk + vec[n..];
      chunks := chunks + [chunk];
      vec := vec[n..];
    }
    CutUnique(chunks, items, chunkSize);
  }
}
