/** The payload codec for 256-bit scalars: big-endian bytes without leading zeros. */
module U256Rlp {
  import opened Wrappers
  import opened Types

  datatype DecoderError = RlpInvalidIndirection | RlpIsTooBig

  const U256_LIMIT: nat := 0x1_0000000000000000_0000000000000000_0000000000000000_0000000000000000

  type U256 = n: nat | n < U256_LIMIT

  function Power(k: nat): (p: nat)
    ensures 0 < p
  {
    if k == 0 then 1 else 256 * Power(k - 1)
  }

  lemma Power32()
    ensures Power(32) == U256_LIMIT
  {
    assert Power(4) == 0x1_00000000;
    assert Power(8) == 0x1_0000000000000000;
    assert Power(16) == 0x1_00000000000000000000000000000000 by {
      assert Power(12) == 0x1_000000000000000000000000;
    }
    assert Power(20) == 0x1_0000000000000000000000000000000000000000;
    assert Power(24) == 0x1_000000000000000000000000000000000000000000000000;
    assert Power(28) == 0x1_00000000000000000000000000000000000000000000000000000000;
  }

  /** The number a big-endian byte string stands for. */
  function FromBytes(bytes: seq<Byte>): nat {
    if bytes == [] then 0 else FromBytes(bytes[..|bytes| - 1]) * 256 + bytes[|bytes| - 1]
  }

  /** `n` as `count` big-endian bytes, `to_be_bytes`. */
  function ToBytes(n: nat, count: nat): (r: seq<Byte>)
    ensures |r| == count
  {
    if count == 0 then [] else ToBytes(n / 256, count - 1) + [n % 256]
  }

  lemma {:induction false} FromBytesBound(bytes: seq<Byte>)
    ensures FromBytes(bytes) < Power(|bytes|)
  {
    if bytes != [] {
      FromBytesBound(bytes[..|bytes| - 1]);
    }
  }

  lemma {:induction false} ToFrom(n: nat, count: nat)
    requires n < Power(count)
    ensures FromBytes(ToBytes(n, count)) == n
  {
    if count > 0 {
      ToFrom(n / 256, count - 1);
      var bytes := ToBytes(n, count);
      assert bytes[..count - 1] == ToBytes(n / 256, count - 1);
    }
  }

  lemma {:induction false} FromTo(bytes: seq<Byte>)
    ensures ToBytes(FromBytes(bytes), |bytes|) == bytes
  {
    if bytes != [] {
      var front, last := bytes[..|bytes| - 1], bytes[|bytes| - 1];
      FromTo(front);
      assert (FromBytes(front) * 256 + last) / 256 == FromBytes(front);
      assert bytes == front + [last];
    }
  }

  /** Number of bytes that are zero in front, as `leading_zeros() / 8` counts them. */
  function LeadingZeros(bytes: seq<Byte>): (n: nat)
    ensures n <= |bytes|
    ensures forall k :: 0 <= k < n ==> bytes[k] == 0
    ensures n < |bytes| ==> bytes[n] != 0
  {
    if bytes == [] || bytes[0] != 0 then 0 else 1 + LeadingZeros(bytes[1..])
  }

  function Zeros(count: nat): (r: seq<Byte>)
    ensures |r| == count && forall k :: 0 <= k < count ==> r[k] == 0
  {
    seq(count, k => 0)
  }

  lemma {:induction false} PaddingKeepsValue(count: nat, bytes: seq<Byte>)
    ensures FromBytes(Zeros(count) + bytes) == FromBytes(bytes)
    decreases |bytes|, count
  {
    var padded := Zeros(count) + bytes;
    if bytes == [] {
      if count > 0 {
        PaddingKeepsValue(count - 1, []);
        assert padded[..count - 1] == Zeros(count - 1) + [];
      }
    } else {
      PaddingKeepsValue(count, bytes[..|bytes| - 1]);
      assert padded[..|padded| - 1] == Zeros(count) + bytes[..|bytes| - 1];
    }
  }

  /** `u256_rlp_append`: the payload appended to the stream. */
  function Encode(n: U256): seq<Byte> {
    var bytes := ToBytes(n, 32);
    bytes[LeadingZeros(bytes)..]
  }

  /** `u256`: fills a 32-byte buffer from the right. */
  method Decode(bytes: seq<Byte>) returns (r: Result<U256, DecoderError>)
    ensures bytes != [] && bytes[0] == 0 ==> r == Err(RlpInvalidIndirection)
    ensures (bytes == [] || bytes[0] != 0) && 32 < |bytes| ==> r == Err(RlpIsTooBig)
    ensures Accepted(bytes) ==> r.Ok? && r.value == FromBytes(bytes)
  {
    if bytes != [] && bytes[0] == 0 {
      return Err(RlpInvalidIndirection);
    } else if |bytes| <= 32 {
      var buffer := new Byte[32](_ => 0);
      var start := 32 - |bytes|;
      for k := 0 to |bytes|
        invariant forall i :: 0 <= i < start ==> buffer[i] == 0
        invariant forall i :: 0 <= i < k ==> buffer[start + i] == bytes[i]
      {
        buffer[start + k] := bytes[k];
      }
      assert buffer[..] == Zeros(start) + bytes;
      PaddingKeepsValue(start, bytes);
      FromBytesBound(buffer[..]);
      Power32();
      return Ok(FromBytes(buffer[..]));
    } else {
      return Err(RlpIsTooBig);
    }
  }

  /** The byte strings `u256` accepts. */
  predicate Accepted(bytes: seq<Byte>) {
    |bytes| <= 32 && (bytes == [] || bytes[0] != 0)
  }

  /** Decoding what was encoded gives the number back. */
  lemma EncodeDecode(n: U256)
    ensures Accepted(Encode(n)) && FromBytes(Encode(n)) == n
  {
    var bytes := ToBytes(n, 32);
    var zeros := LeadingZeros(bytes);
    Power32();
    ToFrom(n, 32);
    assert bytes == Zeros(zeros) + bytes[zeros..];
    PaddingKeepsValue(zeros, bytes[zeros..]);
  }

  /** Encoding what was decoded gives the bytes back. */
  lemma DecodeEncode(bytes: seq<Byte>)
    requires Accepted(bytes)
    ensures FromBytes(bytes) < U256_LIMIT && Encode(FromBytes(bytes)) == bytes
  {
    var count := 32 - |bytes|;
    var padded := Zeros(count) + bytes;
    PaddingKeepsValue(count, bytes);
    FromBytesBound(padded);
    Power32();
    FromTo(padded);
    LeadingOfPadded(count, bytes);
  }

  lemma {:induction false} LeadingOfPadded(count: nat, bytes: seq<Byte>)
    requires bytes == [] || bytes[0] != 0
    ensures LeadingZeros(Zeros(count) + bytes) == count
  {
    if count > 0 {
      LeadingOfPadded(count - 1, bytes);
      assert (Zeros(count) + bytes)[1..] == Zeros(count - 1) + bytes;
    } else {
      assert Zeros(0) + bytes == bytes;
    }
  }
}
