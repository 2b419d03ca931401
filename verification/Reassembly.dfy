/** `EvmTx`: rebuilding a transaction from pieces that arrive in any order. */
module Reassembly {
  import opened Wrappers
  import opened Types
  import opened Ordered
  import opened Transmit

  datatype EvmTx =
    | SmallEvmTx(transaction: Transaction)
    | BigEvmTx(holderData: seq<Byte>, pieces: map<nat, nat>)

  datatype HolderError = NotAHolderTransaction

  const NEW_BIG_TX: EvmTx := BigEvmTx([], map[])

  /** `Vec::resize(len, 0)` when that makes the vector longer. */
  function GrownTo(data: seq<Byte>, len: nat): seq<Byte> {
    if |data| < len then data + seq(len - |data|, _ => 0) else data
  }

  /** Copies `data` over the bytes that start at `offset`. */
  function Overwritten(buffer: seq<Byte>, offset: nat, data: seq<Byte>): seq<Byte>
    requires offset + |data| <= |buffer|
  {
    buffer[..offset] + data + buffer[offset + |data|..]
  }

  function UpdateTxHolder(tx: EvmTx, offset: nat, data: seq<Byte>): Result<EvmTx, HolderError> {
    match tx
    case SmallEvmTx(_) => Err(NotAHolderTransaction)
    case BigEvmTx(holderData, pieces) =>
      if offset in pieces then Ok(tx)
      else
        var grown := GrownTo(holderData, offset + |data|);
        Ok(BigEvmTx(Overwritten(grown, offset, data), pieces[offset := |data|]))
  }

  /** The pieces, visited by ascending offset, continue each other from `position` on. */
  ghost predicate Chained(offsets: seq<nat>, pieces: map<nat, nat>, position: nat)
    requires forall o :: o in offsets ==> o in pieces
  {
    if offsets == [] then position != 0
    else offsets[0] == position && Chained(offsets[1..], pieces, position + pieces[offsets[0]])
  }

  ghost predicate DataComplete(tx: EvmTx) {
    tx.BigEvmTx? ==> Chained(Sorted(tx.pieces.Keys), tx.pieces, 0)
  }

  lemma ChainedFrom(offsets: seq<nat>, pieces: map<nat, nat>, i: nat, position: nat)
    requires i <= |offsets| && forall o :: o in offsets ==> o in pieces
    ensures i == |offsets| ==> (Chained(offsets[i..], pieces, position) <==> position != 0)
    ensures i < |offsets| ==>
              (Chained(offsets[i..], pieces, position) <==>
                 offsets[i] == position && Chained(offsets[i + 1..], pieces, position + pieces[offsets[i]]))
  {
    assert i < |offsets| ==> offsets[i..][1..] == offsets[i + 1..];
  }

  /** The loop of `is_data_complete`. */
  method IsDataComplete(tx: EvmTx) returns (complete: bool)
    ensures complete <==> DataComplete(tx)
  {
    hide Chained;
    if tx.SmallEvmTx? {
      return true;
    }
    var offsets := SortedKeys(tx.pieces.Keys);
    var position := 0;
    assert offsets[0..] == offsets;
    for i := 0 to |offsets|
      invariant Chained(offsets, tx.pieces, 0) <==> Chained(offsets[i..], tx.pieces, position)
    {
      ChainedFrom(offsets, tx.pieces, i, position);
      if offsets[i] != position {
        return false;
      }
      position := position + tx.pieces[offsets[i]];
    }
    ChainedFrom(offsets, tx.pieces, |offsets|, position);
    return position != 0;
  }

  // ---------------------------------------------------------------- meaning

  /**
   Pieces cut from one byte string: which offsets exist and how long the piece
   at each offset is.
   */
  datatype Layout = Layout(bytes: seq<Byte>, lengths: map<nat, nat>) {
    ghost predicate Valid() {
      forall o :: o in lengths ==> o + lengths[o] <= |bytes|
    }

    function Slice(o: nat): seq<Byte>
      requires Valid() && o in lengths
    {
      bytes[o..o + lengths[o]]
    }
  }

  /** `e` is where the furthest of the arrived pieces ends. */
  ghost predicate IsExtent(l: Layout, arrived: set<nat>, e: nat)
    requires l.Valid() && arrived <= l.lengths.Keys
  {
    && (forall o :: o in arrived ==> o + l.lengths[o] <= e)
    && (if arrived == {} then e == 0 else exists o :: o in arrived && o + l.lengths[o] == e)
  }

  lemma {:induction false} ExtentExists(l: Layout, arrived: set<nat>)
    requires l.Valid() && arrived <= l.lengths.Keys
    ensures exists e :: IsExtent(l, arrived, e)
  {
    if arrived == {} {
      assert IsExtent(l, arrived, 0);
    } else {
      var o :| o in arrived;
      ExtentExists(l, arrived - {o});
      var rest :| IsExtent(l, arrived - {o}, rest);
      var e := if rest < o + l.lengths[o] then o + l.lengths[o] else rest;
      forall p | p in arrived
        ensures p + l.lengths[p] <= e
      {
        assert p == o || p in arrived - {o};
      }
      assert IsExtent(l, arrived, e);
    }
  }

  ghost function Extent(l: Layout, arrived: set<nat>): (e: nat)
    requires l.Valid() && arrived <= l.lengths.Keys
    ensures IsExtent(l, arrived, e)
  {
    ExtentExists(l, arrived);
    var e :| IsExtent(l, arrived, e);
    e
  }

  /** The piece that reaches the extent. */
  lemma Furthest(l: Layout, arrived: set<nat>) returns (o: nat)
    requires l.Valid() && arrived <= l.lengths.Keys && arrived != {}
    ensures o in arrived && o + l.lengths[o] == Extent(l, arrived)
  {
    assert IsExtent(l, arrived, Extent(l, arrived));
    o :| o in arrived && o + l.lengths[o] == Extent(l, arrived);
  }

  lemma ExtentBounds(l: Layout, arrived: set<nat>, o: nat)
    requires l.Valid() && o in arrived && arrived <= l.lengths.Keys
    ensures o + l.lengths[o] <= Extent(l, arrived) <= |l.bytes|
  {
    assert IsExtent(l, arrived, Extent(l, arrived));
    var p := Furthest(l, arrived);
  }

  lemma ExtentAdd(l: Layout, arrived: set<nat>, o: nat)
    requires l.Valid() && arrived <= l.lengths.Keys && o in l.lengths
    ensures Extent(l, arrived + {o}) == if Extent(l, arrived) < o + l.lengths[o] then o + l.lengths[o] else Extent(l, arrived)
  {
    var all := arrived + {o};
    ExtentBounds(l, all, o);
    if arrived != {} {
      var p := Furthest(l, arrived);
      ExtentBounds(l, all, p);
      var q := Furthest(l, all);
      if q != o { ExtentBounds(l, arrived, q); }
    } else {
      assert all == {o};
      var q := Furthest(l, all);
    }
  }

  ghost predicate Covered(l: Layout, arrived: set<nat>, i: nat)
    requires l.Valid() && arrived <= l.lengths.Keys
  {
    exists o :: o in arrived && o <= i < o + l.lengths[o]
  }

  lemma CoveredAdd(l: Layout, arrived: set<nat>, o: nat, i: nat)
    requires l.Valid() && arrived <= l.lengths.Keys && o in l.lengths
    ensures Covered(l, arrived + {o}, i) <==> Covered(l, arrived, i) || o <= i < o + l.lengths[o]
  {
    if Covered(l, arrived, i) {
      var p :| p in arrived && p <= i < p + l.lengths[p];
      assert p in arrived + {o};
    }
    if o <= i < o + l.lengths[o] {
      assert o in arrived + {o};
    }
  }

  lemma CoveredBelowExtent(l: Layout, arrived: set<nat>, i: nat)
    requires l.Valid() && arrived <= l.lengths.Keys && Covered(l, arrived, i)
    ensures i < Extent(l, arrived) <= |l.bytes|
  {
    var o :| o in arrived && o <= i < o + l.lengths[o];
    ExtentBounds(l, arrived, o);
  }

  ghost function ByteAt(l: Layout, arrived: set<nat>, i: nat): Byte
    requires l.Valid() && arrived <= l.lengths.Keys
  {
    if Covered(l, arrived, i) && i < |l.bytes| then l.bytes[i] else 0
  }

  /** The arrived pieces at their places, zeros in the gaps. */
  ghost function Image(l: Layout, arrived: set<nat>): (image: seq<Byte>)
    requires l.Valid() && arrived <= l.lengths.Keys
    ensures |image| == Extent(l, arrived)
    ensures forall i :: 0 <= i < |image| ==> image[i] == ByteAt(l, arrived, i)
  {
    seq(Extent(l, arrived), i requires 0 <= i => ByteAt(l, arrived, i))
  }

  ghost function Denote(l: Layout, arrived: set<nat>): EvmTx
    requires l.Valid() && arrived <= l.lengths.Keys
  {
    BigEvmTx(Image(l, arrived), map o | o in arrived :: l.lengths[o])
  }

  lemma DenoteNothing(l: Layout)
    requires l.Valid()
    ensures Denote(l, {}) == NEW_BIG_TX
  {
  }

  /**
   Registering a piece adds its offset to the set of arrived ones and nothing
   else: the state depends on which pieces arrived, not on order or repetition.
   */
  lemma UpdateAdds(l: Layout, arrived: set<nat>, o: nat)
    requires l.Valid() && arrived <= l.lengths.Keys && o in l.lengths
    ensures UpdateTxHolder(Denote(l, arrived), o, l.Slice(o)) == Ok(Denote(l, arrived + {o}))
  {
    var before, after := Denote(l, arrived), Denote(l, arrived + {o});
    if o in arrived {
      assert arrived + {o} == arrived;
    } else {
      WriteAdds(l, arrived, o);
      assert before.pieces[o := l.lengths[o]] == after.pieces;
    }
  }

  lemma WriteAdds(l: Layout, arrived: set<nat>, o: nat)
    requires l.Valid() && arrived <= l.lengths.Keys && o in l.lengths
    ensures Overwritten(GrownTo(Image(l, arrived), o + l.lengths[o]), o, l.Slice(o)) == Image(l, arrived + {o})
  {
    var grown := GrownTo(Image(l, arrived), o + l.lengths[o]);
    var image := Overwritten(grown, o, l.Slice(o));
    ExtentAdd(l, arrived, o);
    forall i | 0 <= i < |image|
      ensures image[i] == ByteAt(l, arrived + {o}, i)
    {
      CoveredAdd(l, arrived, o, i);
      if o <= i < o + l.lengths[o] {
        assert image[i] == l.bytes[i];
      } else {
        assert image[i] == grown[i];
        if Covered(l, arrived, i) {
          CoveredBelowExtent(l, arrived, i);
        }
      }
    }
  }

  // ----------------------------------------------------------- completeness

  /** The pieces cover an initial run of bytes without gap or overlap. */
  ghost predicate Tiles(pieces: map<nat, nat>) {
    && 0 in pieces
    && (forall o, p :: o in pieces && p in pieces && o < p ==> o + pieces[o] <= p)
    && (forall p {:trigger Succeeded(pieces, p)} :: p in pieces && p != 0 ==> Succeeded(pieces, p))
    && (exists o :: o in pieces && o + pieces[o] > 0)
  }

  /** Some piece ends where `p` starts. */
  ghost predicate Succeeded(pieces: map<nat, nat>, p: nat) {
    exists o :: o in pieces && o < p && o + pieces[o] == p
  }

  ghost predicate Adjacent(offsets: seq<nat>, pieces: map<nat, nat>, i: nat)
    requires i + 1 < |offsets| && forall o :: o in offsets ==> o in pieces
  {
    offsets[i + 1] == offsets[i] + pieces[offsets[i]]
  }

  lemma {:induction false} ChainedByIndex(offsets: seq<nat>, pieces: map<nat, nat>, position: nat)
    requires offsets != [] && forall o :: o in offsets ==> o in pieces
    ensures Chained(offsets, pieces, position) <==>
            && offsets[0] == position
            && (forall i {:trigger Adjacent(offsets, pieces, i)} :: 0 <= i < |offsets| - 1 ==> Adjacent(offsets, pieces, i))
            && offsets[|offsets| - 1] + pieces[offsets[|offsets| - 1]] != 0
  {
    var rest := offsets[1..];
    if rest == [] {
    } else {
      ChainedByIndex(rest, pieces, position + pieces[offsets[0]]);
      assert forall i {:trigger Adjacent(rest, pieces, i)} :: 0 <= i < |rest| - 1 ==>
        Adjacent(rest, pieces, i) == Adjacent(offsets, pieces, i + 1);
      forall i | 0 < i < |offsets| - 1
        ensures Adjacent(offsets, pieces, i) == Adjacent(rest, pieces, i - 1)
      {
      }
      assert Adjacent(offsets, pieces, 0) == (rest[0] == offsets[0] + pieces[offsets[0]]);
    }
  }

  lemma ChainedTiles(offsets: seq<nat>, pieces: map<nat, nat>)
    requires Lists(offsets, pieces.Keys) && Chained(offsets, pieces, 0)
    ensures Tiles(pieces)
  {
    ChainedByIndex(offsets, pieces, 0);
    forall o, p | o in pieces && p in pieces && o < p
      ensures o + pieces[o] <= p
    {
      var i := Position(offsets, pieces.Keys, o);
      var j := Position(offsets, pieces.Keys, p);
      SameOrder(offsets, i, j);
      assert Adjacent(offsets, pieces, i);
      assert offsets[i + 1] <= offsets[j];
    }
    forall p | p in pieces && p != 0
      ensures Succeeded(pieces, p)
    {
      var j := Position(offsets, pieces.Keys, p);
      assert Adjacent(offsets, pieces, j - 1);
      assert offsets[j - 1] in pieces && offsets[j - 1] < p;
    }
    var last := offsets[|offsets| - 1];
    assert last in pieces && last + pieces[last] > 0;
  }

  lemma TilesAdjacent(offsets: seq<nat>, pieces: map<nat, nat>, i: nat)
    requires Lists(offsets, pieces.Keys) && Tiles(pieces) && i + 1 < |offsets|
    ensures Adjacent(offsets, pieces, i)
  {
    var p := offsets[i + 1];
    assert p in pieces && offsets[0] < p;
    assert Succeeded(pieces, p);
    var o :| o in pieces && o < p && o + pieces[o] == p;
    var k := Position(offsets, pieces.Keys, o);
    SameOrder(offsets, k, i + 1);
    SameOrder(offsets, k, i);
    assert offsets[i] in pieces;
  }

  lemma TilesChained(offsets: seq<nat>, pieces: map<nat, nat>)
    requires Lists(offsets, pieces.Keys) && Tiles(pieces)
    ensures Chained(offsets, pieces, 0)
  {
    hide Chained;
    var z := Position(offsets, pieces.Keys, 0);
    SameOrder(offsets, 0, z);
    forall i | 0 <= i < |offsets| - 1
      ensures Adjacent(offsets, pieces, i)
    {
      TilesAdjacent(offsets, pieces, i);
    }
    var o :| o in pieces && o + pieces[o] > 0;
    var k := Position(offsets, pieces.Keys, o);
    assert o <= offsets[|offsets| - 1] && offsets[|offsets| - 1] in pieces;
    ChainedByIndex(offsets, pieces, 0);
  }

  /** `is_data_complete` says precisely that the pieces tile an initial run. */
  lemma CompleteIffTiles(tx: EvmTx)
    requires tx.BigEvmTx?
    ensures DataComplete(tx) <==> Tiles(tx.pieces)
  {
    var offsets := Sorted(tx.pieces.Keys);
    if DataComplete(tx) {
      ChainedTiles(offsets, tx.pieces);
    }
    if Tiles(tx.pieces) {
      TilesChained(offsets, tx.pieces);
    }
  }

  lemma {:induction false} RunCovered(l: Layout, arrived: set<nat>, offsets: seq<nat>, k: nat, i: nat)
    requires l.Valid() && arrived <= l.lengths.Keys && Lists(offsets, arrived)
    requires k < |offsets| && offsets[0] == 0
    requires forall j {:trigger Adjacent(offsets, l.lengths, j)} :: 0 <= j < |offsets| - 1 ==> Adjacent(offsets, l.lengths, j)
    requires offsets[k] in l.lengths && i < offsets[k] + l.lengths[offsets[k]]
    ensures Covered(l, arrived, i)
  {
    if offsets[k] <= i {
      assert offsets[k] in arrived;
    } else if k > 0 {
      assert Adjacent(offsets, l.lengths, k - 1);
      RunCovered(l, arrived, offsets, k - 1, i);
    }
  }

  /** A complete holder has no filler: it is a non-empty prefix of the byte string. */
  lemma CompleteIsPrefix(l: Layout, arrived: set<nat>)
    requires l.Valid() && arrived <= l.lengths.Keys
    requires DataComplete(Denote(l, arrived))
    ensures 0 < Extent(l, arrived)
    ensures Image(l, arrived) == l.bytes[..Extent(l, arrived)]
  {
    var pieces := Denote(l, arrived).pieces;
    var offsets := Sorted(arrived);
    assert pieces.Keys == arrived;
    assert Chained(offsets, pieces, 0);
    assert offsets != [];
    ChainedByIndex(offsets, pieces, 0);
    forall j | 0 <= j < |offsets| - 1
      ensures Adjacent(offsets, l.lengths, j)
    {
      assert Adjacent(offsets, pieces, j);
    }
    assert offsets[|offsets| - 1] in arrived;
    forall i | 0 <= i < Extent(l, arrived)
      ensures Covered(l, arrived, i)
    {
      var o :| o in arrived && o + l.lengths[o] == Extent(l, arrived);
      var k := Position(offsets, arrived, o);
      RunCovered(l, arrived, offsets, k, i);
    }
  }

  // -------------------------------------------------------------- round trip

  function Receive(tx: EvmTx, pieces: seq<Piece>): Result<EvmTx, HolderError>
    decreases |pieces|
  {
    if pieces == [] then Ok(tx)
    else
      match UpdateTxHolder(tx, pieces[0].offset, pieces[0].data)
      case Err(e) => Err(e)
      case Ok(next) => Receive(next, pieces[1..])
  }

  ghost predicate IsSlice(l: Layout, piece: Piece)
    requires l.Valid()
  {
    piece.offset in l.lengths && piece.data == l.Slice(piece.offset)
  }

  function OffsetsOf(pieces: seq<Piece>): (r: set<nat>)
    ensures forall p :: p in pieces ==> p.offset in r
    ensures forall o :: o in r ==> exists p :: p in pieces && p.offset == o
  {
    if pieces == [] then {} else {pieces[0].offset} + OffsetsOf(pieces[1..])
  }

  /** Receiving slices of one layout in any order adds their offsets to the arrived set. */
  lemma {:induction false} ReceiveDenotes(l: Layout, before: set<nat>, pieces: seq<Piece>)
    requires l.Valid() && before <= l.lengths.Keys
    requires forall p :: p in pieces ==> IsSlice(l, p)
    ensures OffsetsOf(pieces) <= l.lengths.Keys
    ensures Receive(Denote(l, before), pieces) == Ok(Denote(l, before + OffsetsOf(pieces)))
    decreases |pieces|
  {
    if pieces == [] {
      assert before + {} == before;
    } else {
      var first, rest := pieces[0], pieces[1..];
      assert first in pieces;
      UpdateAdds(l, before, first.offset);
      ReceiveDenotes(l, before + {first.offset}, rest);
      assert before + {first.offset} + OffsetsOf(rest) == before + OffsetsOf(pieces);
    }
  }

  /** Where piece number `k` of a transmitted RLP starts. */
  function At(k: nat): nat {
    TRANSMIT_TX_SIZE * k
  }

  function Starts(numbers: set<nat>): set<nat> {
    set k | k in numbers :: At(k)
  }

  /** The pieces `TransmitTx` cuts an RLP into, as a layout. */
  function LayoutOf(rlp: seq<Byte>): (l: Layout)
    ensures l.bytes == rlp && l.lengths.Keys == Starts(Below(|Pieces(rlp)|))
  {
    var starts := Starts(Below(|Pieces(rlp)|));
    Layout(rlp, map o | o in starts :: if o <= |rlp| then Minimum(TRANSMIT_TX_SIZE, |rlp| - o) else 0)
  }

  lemma LayoutPiece(rlp: seq<Byte>, k: nat)
    requires k < |Pieces(rlp)|
    ensures At(k) in LayoutOf(rlp).lengths && At(k) + LayoutOf(rlp).lengths[At(k)] <= |rlp|
    ensures LayoutOf(rlp).lengths[At(k)] == Minimum(TRANSMIT_TX_SIZE, |rlp| - At(k))
    ensures Pieces(rlp)[k] == Piece(At(k), rlp[At(k)..At(k) + LayoutOf(rlp).lengths[At(k)]])
  {
    PieceAt(rlp, k);
    assert k in Below(|Pieces(rlp)|);
    assert At(k) in Starts(Below(|Pieces(rlp)|));
  }

  lemma LayoutSlices(rlp: seq<Byte>)
    ensures LayoutOf(rlp).Valid()
    ensures forall p :: p in Pieces(rlp) ==> IsSlice(LayoutOf(rlp), p)
    ensures forall k: nat :: k < |Pieces(rlp)| ==>
              && Pieces(rlp)[k].offset == At(k)
              && At(k) in LayoutOf(rlp).lengths
              && LayoutOf(rlp).lengths[At(k)] == Minimum(TRANSMIT_TX_SIZE, |rlp| - At(k))
  {
    hide At, Minimum, Pieces;
    var l := LayoutOf(rlp);
    forall o | o in l.lengths
      ensures o + l.lengths[o] <= |rlp|
    {
      var k :| k in Below(|Pieces(rlp)|) && At(k) == o;
      LayoutPiece(rlp, k);
    }
    forall k: nat | k < |Pieces(rlp)|
      ensures At(k) in l.lengths && IsSlice(l, Pieces(rlp)[k]) && Pieces(rlp)[k].offset == At(k)
      ensures l.lengths[At(k)] == Minimum(TRANSMIT_TX_SIZE, |rlp| - At(k))
    {
      LayoutPiece(rlp, k);
    }
  }

  lemma {:induction false} RunStarts(rlp: seq<Byte>, arrived: set<nat>, offsets: seq<nat>, i: nat)
    requires LayoutOf(rlp).Valid() && arrived <= LayoutOf(rlp).lengths.Keys && Lists(offsets, arrived)
    requires i < |offsets| && offsets[0] == 0
    requires forall j {:trigger Adjacent(offsets, LayoutOf(rlp).lengths, j)} ::
               0 <= j < |offsets| - 1 ==> Adjacent(offsets, LayoutOf(rlp).lengths, j)
    ensures offsets[i] == At(i)
  {
    if i > 0 {
      RunStarts(rlp, arrived, offsets, i - 1);
      LayoutSlices(rlp);
      assert Adjacent(offsets, LayoutOf(rlp).lengths, i - 1);
      assert offsets[i] in arrived && offsets[i - 1] in arrived;
      var k :| k in Below(|Pieces(rlp)|) && At(k) == offsets[i];
      PieceAt(rlp, k);
    }
  }

  lemma ChainIsInitial(rlp: seq<Byte>, arrived: set<nat>, offsets: seq<nat>)
    requires LayoutOf(rlp).Valid() && arrived <= LayoutOf(rlp).lengths.Keys && Lists(offsets, arrived)
    requires offsets != [] && Chained(offsets, LayoutOf(rlp).lengths, 0)
    ensures arrived == Starts(Below(|offsets|))
  {
    var l := LayoutOf(rlp);
    ChainedByIndex(offsets, l.lengths, 0);
    forall i: nat | i < |offsets|
      ensures offsets[i] == At(i)
    {
      RunStarts(rlp, arrived, offsets, i);
    }
    forall o | o in arrived
      ensures o in Starts(Below(|offsets|))
    {
      var i := Position(offsets, arrived, o);
      assert i in Below(|offsets|);
    }
    forall o | o in Starts(Below(|offsets|))
      ensures o in arrived
    {
      var k :| k in Below(|offsets|) && At(k) == o;
      assert offsets[k] in arrived;
    }
  }

  lemma {:induction false} ChainedSame(offsets: seq<nat>, pieces: map<nat, nat>, lengths: map<nat, nat>, position: nat)
    requires forall o :: o in offsets ==> o in pieces && o in lengths && pieces[o] == lengths[o]
    ensures Chained(offsets, pieces, position) == Chained(offsets, lengths, position)
  {
    if offsets != [] {
      assert offsets[0] in offsets;
      ChainedSame(offsets[1..], pieces, lengths, position + pieces[offsets[0]]);
    }
  }

  /** Completeness of a denoted holder, read off the layout. */
  lemma DenotedComplete(l: Layout, arrived: set<nat>, offsets: seq<nat>)
    requires l.Valid() && arrived <= l.lengths.Keys && Lists(offsets, arrived)
    ensures forall o :: o in offsets ==> o in l.lengths
    ensures DataComplete(Denote(l, arrived)) <==> Chained(offsets, l.lengths, 0)
  {
    var pieces := Denote(l, arrived).pieces;
    assert pieces.Keys == arrived;
    ListingUnique(offsets, Sorted(arrived), arrived);
    ChainedSame(offsets, pieces, l.lengths, 0);
  }

  /** If the arrived chunks are complete, they are the first ones, as many as arrived. */
  lemma CompleteIsInitial(rlp: seq<Byte>, arrived: set<nat>)
    requires LayoutOf(rlp).Valid() && arrived <= LayoutOf(rlp).lengths.Keys
    requires DataComplete(Denote(LayoutOf(rlp), arrived))
    ensures arrived != {} && arrived == Starts(Below(|arrived|))
  {
    var offsets := Sorted(arrived);
    DenotedComplete(LayoutOf(rlp), arrived, offsets);
    ChainIsInitial(rlp, arrived, offsets);
  }

  /** Every piece but the last ends where the next one starts. */
  lemma NextPiece(rlp: seq<Byte>, k: nat, next: nat)
    requires next == k + 1 && next < |Pieces(rlp)|
    ensures At(k) in LayoutOf(rlp).lengths && At(next) == At(k) + LayoutOf(rlp).lengths[At(k)]
  {
    hide Pieces;
    LayoutPiece(rlp, k);
    PieceAt(rlp, k);
  }

  lemma AtZero()
    ensures At(0) == 0
  {
  }

  lemma NotEmptyPiece(rlp: seq<Byte>, k: nat)
    requires k < |Pieces(rlp)| && At(k) in LayoutOf(rlp).lengths
    ensures 0 < At(k) + LayoutOf(rlp).lengths[At(k)]
  {
    hide Pieces;
    LayoutPiece(rlp, k);
    PieceAt(rlp, k);
  }

  lemma InitialChains(rlp: seq<Byte>, m: nat, offsets: seq<nat>)
    requires 0 < m <= |Pieces(rlp)|
    requires |offsets| == m && forall i :: 0 <= i < m ==> offsets[i] == At(i) && offsets[i] in LayoutOf(rlp).lengths
    ensures Chained(offsets, LayoutOf(rlp).lengths, 0)
  {
    hide LayoutOf, Pieces, At;
    var lengths := LayoutOf(rlp).lengths;
    forall i | 0 <= i < m - 1
      ensures Adjacent(offsets, lengths, i)
    {
      NextPiece(rlp, i, i + 1);
    }
    AtZero();
    LayoutPiece(rlp, m - 1);
    NotEmptyPiece(rlp, m - 1);
    ChainedByIndex(offsets, lengths, 0);
  }

  lemma InitialIsComplete(rlp: seq<Byte>, m: nat)
    requires 0 < m <= |Pieces(rlp)|
    ensures LayoutOf(rlp).Valid() && Starts(Below(m)) <= LayoutOf(rlp).lengths.Keys
    ensures DataComplete(Denote(LayoutOf(rlp), Starts(Below(m))))
  {
    LayoutSlices(rlp);
    var offsets := seq(m, i requires 0 <= i => At(i));
    StartsListing(m);
    InitialChains(rlp, m, offsets);
    DenotedComplete(LayoutOf(rlp), Starts(Below(m)), offsets);
  }

  lemma InitialExtent(rlp: seq<Byte>, m: nat)
    requires 0 < m <= |Pieces(rlp)|
    requires LayoutOf(rlp).Valid() && Starts(Below(m)) <= LayoutOf(rlp).lengths.Keys
    ensures Extent(LayoutOf(rlp), Starts(Below(m))) == Minimum(At(m), |rlp|)
  {
    LayoutSlices(rlp);
    var l, arrived := LayoutOf(rlp), Starts(Below(m));
    PieceAt(rlp, m - 1);
    assert m - 1 in Below(m) && At(m - 1) in arrived;
    ExtentBounds(l, arrived, At(m - 1));
    var o := Furthest(l, arrived);
    var k :| k in Below(m) && At(k) == o;
  }

  lemma StartsListing(m: nat)
    ensures Lists(seq(m, i requires 0 <= i => At(i)), Starts(Below(m)))
  {
    var offsets := seq(m, i requires 0 <= i => At(i));
    forall x | x in Starts(Below(m))
      ensures x in offsets
    {
      var k :| k in Below(m) && x == At(k);
      assert offsets[k] == x;
    }
    forall x | x in offsets
      ensures x in Starts(Below(m))
    {
      var i :| 0 <= i < m && offsets[i] == x;
      assert i in Below(m);
    }
  }

  /** Where piece number `k` ends. */
  function EndOf(rlp: seq<Byte>, k: nat): nat {
    Minimum(At(k + 1), |rlp|)
  }

  /** Byte `i` belongs to piece number `k`. */
  ghost predicate InPiece(k: nat, i: nat) {
    At(k) <= i < At(k + 1)
  }

  /** The chunks with the given numbers, in the given order. */
  function Arrivals(rlp: seq<Byte>, order: seq<nat>): seq<Piece>
    requires forall k :: k in order ==> k < |Pieces(rlp)|
  {
    seq(|order|, i requires 0 <= i < |order| => assert order[i] in order; Pieces(rlp)[order[i]])
  }

  lemma ArrivalsAreSlices(rlp: seq<Byte>, order: seq<nat>)
    requires forall k :: k in order ==> k < |Pieces(rlp)|
    ensures LayoutOf(rlp).Valid()
    ensures forall p :: p in Arrivals(rlp, order) ==> IsSlice(LayoutOf(rlp), p)
  {
    LayoutSlices(rlp);
    var arrivals := Arrivals(rlp, order);
    forall p | p in arrivals
      ensures IsSlice(LayoutOf(rlp), p)
    {
      var i :| 0 <= i < |order| && arrivals[i] == p;
      assert order[i] in order && p in Pieces(rlp);
    }
  }

  lemma ArrivalOffsets(rlp: seq<Byte>, order: seq<nat>, numbers: set<nat>)
    requires forall k :: k in order ==> k < |Pieces(rlp)|
    requires forall k :: k in numbers <==> k in order
    ensures OffsetsOf(Arrivals(rlp, order)) == Starts(numbers)
  {
    LayoutSlices(rlp);
    var arrivals := Arrivals(rlp, order);
    forall o | o in OffsetsOf(arrivals)
      ensures o in Starts(numbers)
    {
      var p :| p in arrivals && p.offset == o;
      var i :| 0 <= i < |order| && arrivals[i] == p;
      assert order[i] in order;
    }
    forall o | o in Starts(numbers)
      ensures o in OffsetsOf(arrivals)
    {
      var k :| k in numbers && At(k) == o;
      assert k in order;
      var i :| 0 <= i < |order| && order[i] == k;
      assert arrivals[i] in arrivals;
    }
  }

  lemma ArrivalsDenote(rlp: seq<Byte>, order: seq<nat>, numbers: set<nat>)
    requires forall k :: k in order ==> k < |Pieces(rlp)|
    requires forall k :: k in numbers <==> k in order
    ensures LayoutOf(rlp).Valid()
    ensures Starts(numbers) <= LayoutOf(rlp).lengths.Keys
    ensures Receive(NEW_BIG_TX, Arrivals(rlp, order)) == Ok(Denote(LayoutOf(rlp), Starts(numbers)))
  {
    ArrivalsAreSlices(rlp, order);
    ArrivalOffsets(rlp, order, numbers);
    DenoteNothing(LayoutOf(rlp));
    ReceiveDenotes(LayoutOf(rlp), {}, Arrivals(rlp, order));
    assert {} + Starts(numbers) == Starts(numbers);
  }

  lemma ImageAgrees(rlp: seq<Byte>, numbers: set<nat>, k: nat, i: nat)
    requires LayoutOf(rlp).Valid() && Starts(numbers) <= LayoutOf(rlp).lengths.Keys
    requires k in numbers && k < |Pieces(rlp)| && InPiece(k, i) && i < |rlp|
    ensures i < |Image(LayoutOf(rlp), Starts(numbers))|
    ensures Image(LayoutOf(rlp), Starts(numbers))[i] == rlp[i]
  {
    var l, arrived := LayoutOf(rlp), Starts(numbers);
    LayoutSlices(rlp);
    assert At(k) in arrived;
    PieceAt(rlp, k);
    assert Covered(l, arrived, i);
    CoveredBelowExtent(l, arrived, i);
  }

  lemma CoveredInPiece(rlp: seq<Byte>, numbers: set<nat>, i: nat) returns (k: nat)
    requires LayoutOf(rlp).Valid() && Starts(numbers) <= LayoutOf(rlp).lengths.Keys
    requires Covered(LayoutOf(rlp), Starts(numbers), i)
    ensures k in numbers && InPiece(k, i)
  {
    hide Pieces;
    var l := LayoutOf(rlp);
    var o :| o in Starts(numbers) && o <= i < o + l.lengths[o];
    k :| k in numbers && o == At(k);
  }

  lemma ImageFiller(rlp: seq<Byte>, numbers: set<nat>, i: nat)
    requires LayoutOf(rlp).Valid() && Starts(numbers) <= LayoutOf(rlp).lengths.Keys
    requires i < |Image(LayoutOf(rlp), Starts(numbers))|
    ensures (exists k :: k in numbers && InPiece(k, i)) || Image(LayoutOf(rlp), Starts(numbers))[i] == 0
  {
    if Covered(LayoutOf(rlp), Starts(numbers), i) {
      var k := CoveredInPiece(rlp, numbers, i);
    }
  }

  lemma ImageLength(rlp: seq<Byte>, numbers: set<nat>)
    requires LayoutOf(rlp).Valid() && Starts(numbers) <= LayoutOf(rlp).lengths.Keys
    requires forall k :: k in numbers ==> k < |Pieces(rlp)|
    ensures |Image(LayoutOf(rlp), Starts(numbers))| <= |rlp|
    ensures numbers == {} ==> Image(LayoutOf(rlp), Starts(numbers)) == []
    ensures numbers != {} ==> exists k :: k in numbers && |Image(LayoutOf(rlp), Starts(numbers))| == EndOf(rlp, k)
  {
    hide Pieces;
    var l, arrived := LayoutOf(rlp), Starts(numbers);
    assert IsExtent(l, arrived, Extent(l, arrived));
    if numbers == {} {
      assert arrived == {};
    } else {
      var n :| n in numbers;
      assert At(n) in arrived;
      LayoutSlices(rlp);
      var o := Furthest(l, arrived);
      ExtentBounds(l, arrived, o);
      var k :| k in numbers && At(k) == o;
      PieceAt(rlp, k);
      assert k in numbers && |Image(l, arrived)| == EndOf(rlp, k);
    }
  }

  /**
   Transmit and reassemble. Whatever chunks of an RLP arrive, in any order and
   with repeats, the holder agrees with the RLP on every arrived chunk, is zero
   elsewhere and reaches no further than the furthest arrived chunk.
   */
  lemma RoundTrip(rlp: seq<Byte>, order: seq<nat>) returns (tx: EvmTx)
    requires forall k :: k in order ==> k < |Pieces(rlp)|
    ensures Receive(NEW_BIG_TX, Arrivals(rlp, order)) == Ok(tx) && tx.BigEvmTx?
    ensures |tx.holderData| <= |rlp|
    ensures forall k, i: nat :: k in order && InPiece(k, i) && i < |rlp| ==>
              i < |tx.holderData| && tx.holderData[i] == rlp[i]
    ensures forall i :: 0 <= i < |tx.holderData| ==>
              (exists k :: k in order && InPiece(k, i)) || tx.holderData[i] == 0
    ensures order == [] ==> tx.holderData == []
    ensures order != [] ==> exists k :: k in order && |tx.holderData| == EndOf(rlp, k)
  {
    var numbers := set k | k in order;
    ArrivalsDenote(rlp, order, numbers);
    tx := Denote(LayoutOf(rlp), Starts(numbers));
    var holder := Image(LayoutOf(rlp), Starts(numbers));
    forall k, i: nat | k in order && InPiece(k, i) && i < |rlp|
      ensures i < |holder| && holder[i] == rlp[i]
    {
      ImageAgrees(rlp, numbers, k, i);
    }
    forall i | 0 <= i < |holder|
      ensures (exists k :: k in order && InPiece(k, i)) || holder[i] == 0
    {
      ImageFiller(rlp, numbers, i);
      assert forall k :: k in numbers ==> k in order;
    }
    ImageLength(rlp, numbers);
    assert order != [] ==> order[0] in numbers;
    assert forall k :: k in numbers ==> k in order;
  }

  lemma InitialRunPrefix(rlp: seq<Byte>, m: nat)
    requires 0 < m <= |Pieces(rlp)|
    ensures LayoutOf(rlp).Valid() && Starts(Below(m)) <= LayoutOf(rlp).lengths.Keys
    ensures DataComplete(Denote(LayoutOf(rlp), Starts(Below(m))))
    ensures Image(LayoutOf(rlp), Starts(Below(m))) == rlp[..Minimum(At(m), |rlp|)]
  {
    InitialIsComplete(rlp, m);
    InitialExtent(rlp, m);
    CompleteIsPrefix(LayoutOf(rlp), Starts(Below(m)));
  }

  lemma CompleteNumbers(rlp: seq<Byte>, numbers: set<nat>)
    requires forall k :: k in numbers ==> k < |Pieces(rlp)|
    requires LayoutOf(rlp).Valid() && Starts(numbers) <= LayoutOf(rlp).lengths.Keys
    ensures DataComplete(Denote(LayoutOf(rlp), Starts(numbers))) <==> numbers != {} && numbers == Below(|numbers|)
    ensures DataComplete(Denote(LayoutOf(rlp), Starts(numbers))) ==>
              |numbers| <= |Pieces(rlp)| &&
              Image(LayoutOf(rlp), Starts(numbers)) == rlp[..Minimum(At(|numbers|), |rlp|)]
  {
    SubsetSize(numbers, Below(|Pieces(rlp)|));
    if DataComplete(Denote(LayoutOf(rlp), Starts(numbers))) {
      var m := |Starts(numbers)|;
      CompleteIsInitial(rlp, Starts(numbers));
      StartsInjective(numbers, Below(m));
      InitialRunPrefix(rlp, |numbers|);
    }
    if numbers != {} && numbers == Below(|numbers|) {
      InitialRunPrefix(rlp, |numbers|);
    }
  }

  /**
   The data is complete exactly when the chunks that arrived are a non-empty
   initial run without a gap; the holder is then exactly that prefix of the
   RLP, and the whole RLP once all its chunks arrived.
   */
  lemma CompleteIffInitialRun(rlp: seq<Byte>, order: seq<nat>) returns (tx: EvmTx, arrived: set<nat>)
    requires forall k :: k in order ==> k < |Pieces(rlp)|
    ensures arrived == set k | k in order
    ensures Receive(NEW_BIG_TX, Arrivals(rlp, order)) == Ok(tx) && tx.BigEvmTx?
    ensures DataComplete(tx) <==> arrived != {} && arrived == Below(|arrived|)
    ensures DataComplete(tx) ==> tx.holderData == rlp[..Minimum(At(|arrived|), |rlp|)]
    ensures rlp != [] && |arrived| == |Pieces(rlp)| ==> DataComplete(tx) && tx.holderData == rlp
  {
    hide DataComplete, Image, LayoutOf, Receive, Arrivals, Starts, Pieces;
    arrived := set k | k in order;
    ArrivalsDenote(rlp, order, arrived);
    tx := Denote(LayoutOf(rlp), Starts(arrived));
    CompleteNumbers(rlp, arrived);
    if rlp != [] && |arrived| == |Pieces(rlp)| {
      AllArrived(rlp, arrived);
    }
  }

  lemma AllArrived(rlp: seq<Byte>, numbers: set<nat>)
    requires forall k :: k in numbers ==> k < |Pieces(rlp)|
    requires rlp != [] && |numbers| == |Pieces(rlp)|
    ensures numbers != {} && numbers == Below(|numbers|)
    ensures |rlp| <= At(|numbers|)
  {
    PieceCount(rlp);
    SubsetSize(numbers, Below(|Pieces(rlp)|));
    PieceAt(rlp, |numbers| - 1);
  }

  lemma StartsInjective(a: set<nat>, b: set<nat>)
    requires Starts(a) == Starts(b)
    ensures a == b
  {
    forall k | k in a
      ensures k in b
    {
      assert At(k) in Starts(a);
    }
    forall k | k in b
      ensures k in a
    {
      assert At(k) in Starts(b);
    }
  }

  /**
   When two registrations commute from every state: they target different
   offsets and agree where they overlap, or they are the same piece. Two
   different pieces at one offset do not commute: the first one wins.
   */
  ghost predicate Compatible(o1: nat, d1: seq<Byte>, o2: nat, d2: seq<Byte>) {
    && (o1 == o2 ==> d1 == d2)
    && (forall i :: AgreeAt(o1, d1, o2, d2, i))
  }

  ghost predicate AgreeAt(o1: nat, d1: seq<Byte>, o2: nat, d2: seq<Byte>, i: int) {
    o1 <= i < o1 + |d1| && o2 <= i < o2 + |d2| ==> d1[i - o1] == d2[i - o2]
  }

  function UpdateTwice(tx: EvmTx, o1: nat, d1: seq<Byte>, o2: nat, d2: seq<Byte>): Result<EvmTx, HolderError> {
    match UpdateTxHolder(tx, o1, d1)
    case Err(e) => Err(e)
    case Ok(next) => UpdateTxHolder(next, o2, d2)
  }

  lemma CommutesIffCompatible(o1: nat, d1: seq<Byte>, o2: nat, d2: seq<Byte>)
    ensures (forall tx :: UpdateTwice(tx, o1, d1, o2, d2) == UpdateTwice(tx, o2, d2, o1, d1)) <==>
            Compatible(o1, d1, o2, d2)
  {
    if Compatible(o1, d1, o2, d2) {
      forall tx
        ensures UpdateTwice(tx, o1, d1, o2, d2) == UpdateTwice(tx, o2, d2, o1, d1)
      {
        CompatibleCommute(tx, o1, d1, o2, d2);
      }
    } else {
      IncompatibleDiffer(o1, d1, o2, d2);
    }
  }

  /** Byte `i` of a holder after one registration. */
  lemma UpdatedByte(tx: EvmTx, o: nat, d: seq<Byte>, i: nat)
    requires tx.BigEvmTx? && o !in tx.pieces
    ensures
      var holder := UpdateTxHolder(tx, o, d).value.holderData;
      && |holder| == (if |tx.holderData| < o + |d| then o + |d| else |tx.holderData|)
      && (i < |holder| ==>
            holder[i] == if o <= i < o + |d| then d[i - o]
                         else if i < |tx.holderData| then tx.holderData[i] else 0)
  {
  }

  lemma CompatibleCommute(tx: EvmTx, o1: nat, d1: seq<Byte>, o2: nat, d2: seq<Byte>)
    requires Compatible(o1, d1, o2, d2)
    ensures UpdateTwice(tx, o1, d1, o2, d2) == UpdateTwice(tx, o2, d2, o1, d1)
  {
    if tx.BigEvmTx? && o1 != o2 && o1 !in tx.pieces && o2 !in tx.pieces {
      var t1, t2 := UpdateTxHolder(tx, o1, d1).value, UpdateTxHolder(tx, o2, d2).value;
      var a, b := UpdateTxHolder(t1, o2, d2).value, UpdateTxHolder(t2, o1, d1).value;
      forall i: nat
        ensures |a.holderData| == |b.holderData|
        ensures i < |a.holderData| ==> a.holderData[i] == b.holderData[i]
      {
        UpdatedByte(tx, o1, d1, i);
        UpdatedByte(tx, o2, d2, i);
        UpdatedByte(t1, o2, d2, i);
        UpdatedByte(t2, o1, d1, i);
        assert AgreeAt(o1, d1, o2, d2, i);
      }
      assert a.holderData == b.holderData;
      assert a.pieces == b.pieces;
    }
  }

  lemma IncompatibleDiffer(o1: nat, d1: seq<Byte>, o2: nat, d2: seq<Byte>)
    requires !Compatible(o1, d1, o2, d2)
    ensures UpdateTwice(NEW_BIG_TX, o1, d1, o2, d2) != UpdateTwice(NEW_BIG_TX, o2, d2, o1, d1)
  {
    var a := UpdateTwice(NEW_BIG_TX, o1, d1, o2, d2).value.holderData;
    var b := UpdateTwice(NEW_BIG_TX, o2, d2, o1, d1).value.holderData;
    if o1 == o2 {
      assert a[o1..] == d1 && b[o1..] == d2;
    } else {
      var i :| !AgreeAt(o1, d1, o2, d2, i);
      assert a[i] == d2[i - o2] && b[i] == d1[i - o1];
    }
  }

  /**
   However the transactions of batch `j` land after all earlier batches, the
   holder grows by no more than the runtime permits for one instruction.
   */
  lemma BatchGrowth(rlp: seq<Byte>, j: nat, landed: set<nat>)
    requires j < |Batches(rlp)|
    requires forall k :: k in landed ==> k < |Pieces(rlp)| && k < FirstPiece(j + 1)
    requires forall k: nat :: k < FirstPiece(j) ==> k in landed
    ensures LayoutOf(rlp).Valid() && Starts(landed) <= LayoutOf(rlp).lengths.Keys
    ensures BATCH_BYTES * j <= |Denote(LayoutOf(rlp), Starts(landed)).holderData|
    ensures |Denote(LayoutOf(rlp), Starts(landed)).holderData| <= BATCH_BYTES * j + MAX_PERMITTED_DATA_INCREASE
  {
    LayoutSlices(rlp);
    BatchRange(rlp, j);
    ImageLength(rlp, landed);
    if j > 0 {
      var k := FirstPiece(j) - 1;
      PieceAt(rlp, k);
      assert InPiece(k, BATCH_BYTES * j - 1);
      ImageAgrees(rlp, landed, k, BATCH_BYTES * j - 1);
    }
  }
}
