/** How `TransmitTx` cuts a signed RLP into offset-tagged pieces and batches. */
module Transmit {
  import opened Types
  import C = Chunks

  const TRANSMIT_TX_SIZE: nat := 800

  // The Solana runtime's bound on how much an account may grow in one instruction.
  const MAX_PERMITTED_DATA_INCREASE: nat := 10_240

  const BATCH_LIMIT: nat := MAX_PERMITTED_DATA_INCREASE / TRANSMIT_TX_SIZE

  datatype Piece = Piece(offset: nat, data: seq<Byte>)

  /** Tags consecutive chunks with running offsets, as the closure in `ixs` does. */
  function Tag(chunks: seq<seq<Byte>>, offset: nat): seq<Piece> {
    if chunks == [] then []
    else [Piece(offset, chunks[0])] + Tag(chunks[1..], offset + |chunks[0]|)
  }

  function Pieces(rlp: seq<Byte>): seq<Piece> {
    Tag(C.Cut(rlp, TRANSMIT_TX_SIZE), 0)
  }

  function Batches(rlp: seq<Byte>): seq<seq<Piece>> {
    C.Cut(Pieces(rlp), BATCH_LIMIT)
  }

  function Minimum(a: nat, b: nat): nat {
    if a <= b then a else b
  }

  function BytesOf(pieces: seq<Piece>): seq<Byte> {
    if pieces == [] then [] else pieces[0].data + BytesOf(pieces[1..])
  }

  lemma {:induction false} TagAt(chunks: seq<seq<Byte>>, offset: nat, k: nat)
    requires k < |chunks|
    ensures |Tag(chunks, offset)| == |chunks|
    ensures Tag(chunks, offset)[k] == Piece(offset + |C.Concat(chunks[..k])|, chunks[k])
  {
    TagLength(chunks, offset);
    if k == 0 {
      assert chunks[..0] == [];
    } else {
      TagAt(chunks[1..], offset + |chunks[0]|, k - 1);
      assert chunks[..k][1..] == chunks[1..][..k - 1];
    }
  }

  lemma TagLength(chunks: seq<seq<Byte>>, offset: nat)
    ensures |Tag(chunks, offset)| == |chunks|
  {
  }

  lemma {:induction false} CutPrefixLength(rlp: seq<Byte>, size: nat, k: nat)
    requires 0 < size && k < |C.Cut(rlp, size)|
    ensures |C.Concat(C.Cut(rlp, size)[..k])| == k * size
  {
    var cut := C.Cut(rlp, size);
    if k == 0 {
      assert cut[..0] == [];
    } else {
      C.CutAt(rlp, size, k - 1);
      CutPrefixLength(rlp, size, k - 1);
      C.ConcatAppend(cut[..k - 1], [cut[k - 1]]);
      C.ConcatSingle(cut[k - 1]);
      assert cut[..k] == cut[..k - 1] + [cut[k - 1]];
      C.CutIsCut(rlp, size);
      assert (k - 1) * size + size == k * size;
    }
  }

  /** Piece `k` is the slice of the RLP that starts at byte `800 * k`. */
  lemma PieceAt(rlp: seq<Byte>, k: nat)
    requires k < |Pieces(rlp)|
    ensures TRANSMIT_TX_SIZE * k < |rlp|
    ensures Pieces(rlp)[k] == Piece(TRANSMIT_TX_SIZE * k,
                                    rlp[TRANSMIT_TX_SIZE * k .. Minimum(TRANSMIT_TX_SIZE * (k + 1), |rlp|)])
    ensures k < |Pieces(rlp)| - 1 ==> TRANSMIT_TX_SIZE * (k + 1) < |rlp|
    ensures k == |Pieces(rlp)| - 1 ==> |rlp| <= TRANSMIT_TX_SIZE * (k + 1)
  {
    var cut := C.Cut(rlp, TRANSMIT_TX_SIZE);
    TagLength(cut, 0);
    TagAt(cut, 0, k);
    C.CutAt(rlp, TRANSMIT_TX_SIZE, k);
    CutPrefixLength(rlp, TRANSMIT_TX_SIZE, k);
  }

  /** There are exactly as many pieces as 800-byte strides are needed. */
  lemma PieceCount(rlp: seq<Byte>)
    ensures |Pieces(rlp)| == (|rlp| + TRANSMIT_TX_SIZE - 1) / TRANSMIT_TX_SIZE
  {
    TagLength(C.Cut(rlp, TRANSMIT_TX_SIZE), 0);
    if rlp != [] {
      PieceAt(rlp, |Pieces(rlp)| - 1);
    }
  }

  /** A stretch of pieces carries a stretch of bytes. */
  lemma {:induction false} BytesOfRange(rlp: seq<Byte>, lo: nat, hi: nat)
    requires lo < hi <= |Pieces(rlp)|
    ensures TRANSMIT_TX_SIZE * lo <= Minimum(TRANSMIT_TX_SIZE * hi, |rlp|)
    ensures BytesOf(Pieces(rlp)[lo..hi]) == rlp[TRANSMIT_TX_SIZE * lo .. Minimum(TRANSMIT_TX_SIZE * hi, |rlp|)]
    decreases hi - lo
  {
    PieceAt(rlp, lo);
    PieceAt(rlp, hi - 1);
    var range := Pieces(rlp)[lo..hi];
    assert range[0] == Pieces(rlp)[lo];
    if lo + 1 == hi {
      assert range[1..] == [];
    } else {
      BytesOfRange(rlp, lo + 1, hi);
      assert range[1..] == Pieces(rlp)[lo + 1..hi];
      var first, mid, last := TRANSMIT_TX_SIZE * lo, TRANSMIT_TX_SIZE * (lo + 1), Minimum(TRANSMIT_TX_SIZE * hi, |rlp|);
      assert rlp[first..mid] + rlp[mid..last] == rlp[first..last];
    }
  }

  /** Bytes covered by one full batch: twelve pieces of 800 bytes. */
  const BATCH_BYTES: nat := 9_600

  /** Number of the first piece of batch `j`. */
  function FirstPiece(j: nat): nat {
    12 * j
  }

  lemma BatchShape()
    ensures BATCH_LIMIT == 12
    ensures BATCH_BYTES == BATCH_LIMIT * TRANSMIT_TX_SIZE <= MAX_PERMITTED_DATA_INCREASE
  {
  }

  /**
   Batch `j` carries the consecutive byte range that starts at `j * 9600`. The
   ranges follow each other, end at the end of the RLP, and none of them is
   longer than the growth one instruction may cause.
   */
  lemma BatchRange(rlp: seq<Byte>, j: nat)
    requires j < |Batches(rlp)|
    ensures BATCH_BYTES * j < |rlp|
    ensures BytesOf(Batches(rlp)[j]) == rlp[BATCH_BYTES * j .. Minimum(BATCH_BYTES * (j + 1), |rlp|)]
    ensures 0 < |BytesOf(Batches(rlp)[j])| <= BATCH_BYTES <= MAX_PERMITTED_DATA_INCREASE
    ensures FirstPiece(j) < |Pieces(rlp)|
    ensures Batches(rlp)[j] == Pieces(rlp)[FirstPiece(j)..Minimum(FirstPiece(j + 1), |Pieces(rlp)|)]
    ensures j == |Batches(rlp)| - 1 ==> |rlp| <= BATCH_BYTES * (j + 1)
  {
    var pieces := Pieces(rlp);
    BatchShape();
    C.CutAt(pieces, 12, j);
    var lo, hi := 12 * j, Minimum(12 * (j + 1), |pieces|);
    assert j * 12 == lo && lo < hi <= |pieces|;
    BytesOfRange(rlp, lo, hi);
    PieceAt(rlp, lo);
    PieceAt(rlp, |pieces| - 1);
    PieceAt(rlp, hi - 1);
  }
}
