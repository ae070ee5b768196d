/** Big-endian byte strings: the counter encoding of the store and the words of ABI calldata. */
module Bytes {
  import opened Int64

  type Byte = n: int | 0 <= n < 256

  function Pow256(k: nat): (p: nat)
    ensures p >= 1
  {
    if k == 0 then 1 else 256 * Pow256(k - 1)
  }

  /** The fold `big.Int.SetBytes` and `binary.BigEndian.Uint64` perform. */
  function Value(bytes: seq<Byte>): (n: nat)
    ensures n < Pow256(|bytes|)
  {
    if bytes == [] then 0 else Value(bytes[..|bytes| - 1]) * 256 + bytes[|bytes| - 1]
  }

  /** The `k` low-order bytes of `n`, most significant first. */
  function BigEndian(n: nat, k: nat): (bytes: seq<Byte>)
    ensures |bytes| == k
  {
    if k == 0 then [] else BigEndian(n / 256, k - 1) + [n % 256]
  }

  lemma {:induction false} ValueOfBigEndian(n: nat, k: nat)
    requires n < Pow256(k)
    ensures Value(BigEndian(n, k)) == n
  {
    if k > 0 {
      var bytes := BigEndian(n, k);
      assert bytes[..k - 1] == BigEndian(n / 256, k - 1);
      ValueOfBigEndian(n / 256, k - 1);
    }
  }

  lemma {:induction false} BigEndianOfValue(bytes: seq<Byte>)
    ensures BigEndian(Value(bytes), |bytes|) == bytes
  {
    if bytes != [] {
      var front := bytes[..|bytes| - 1];
      assert Value(bytes) / 256 == Value(front);
      BigEndianOfValue(front);
    }
  }

  /** `binary.BigEndian.PutUint64(buf, uint64(v))` on an eight-byte buffer. */
  function Encode(v: Int64): (bytes: seq<Byte>)
    ensures |bytes| == 8
  {
    BigEndian(Unsigned(v), 8)
  }

  /** A counter's value: any stored string that is not eight bytes long reads as zero. */
  function Decode(bytes: seq<Byte>): Int64 {
    if |bytes| == 8 then Wrap(Value(bytes)) else 0
  }

  lemma Pow256Of8()
    ensures Pow256(8) == TWO_64
  {
  }

  /** Eight bytes and one `int64` determine each other. */
  lemma CounterRoundTrip(v: Int64)
    ensures Decode(Encode(v)) == v
  {
    Pow256Of8();
    ValueOfBigEndian(Unsigned(v), 8);
    UnsignedRoundTrip(v, 0);
  }

  lemma CounterBytesRoundTrip(bytes: seq<Byte>)
    requires |bytes| == 8
    ensures Encode(Decode(bytes)) == bytes
  {
    Pow256Of8();
    UnsignedRoundTrip(0, Value(bytes));
    BigEndianOfValue(bytes);
  }
}
