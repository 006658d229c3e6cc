/** Byte buffers and the little-endian layout of unsigned fields. */
module Bytes {
  import opened Arith

  newtype byte = x: int | 0 <= x < 256

  type ByteBuffer = seq<byte>

  function Pow256(n: nat): (p: nat)
    ensures p > 0
  {
    if n == 0 then 1 else 256 * Pow256(n - 1)
  }

  /** The low `width` bytes of `x`, lowest first. */
  function LittleEndian(x: nat, width: nat): (b: ByteBuffer)
    ensures |b| == width
  {
    if width == 0 then [] else [(x % 256) as byte] + LittleEndian(x / 256, width - 1)
  }

  function FromLittleEndian(b: ByteBuffer): (x: nat)
    ensures x < Pow256(|b|)
  {
    if b == [] then 0 else b[0] as nat + 256 * FromLittleEndian(b[1..])
  }

  lemma {:induction false} FieldRoundTrip(x: nat, width: nat)
    requires x < Pow256(width)
    ensures FromLittleEndian(LittleEndian(x, width)) == x
  {
    if width > 0 {
      FieldRoundTrip(x / 256, width - 1);
      assert LittleEndian(x, width)[1..] == LittleEndian(x / 256, width - 1);
    }
  }

  /** Byte `i` is digit `i` of the value to the base 256, the lowest first. */
  lemma {:induction false} LittleEndianAt(x: nat, width: nat, i: nat)
    requires i < width
    ensures LittleEndian(x, width)[i] as nat == (x / Pow256(i)) % 256
  {
    if i > 0 {
      LittleEndianAt(x / 256, width - 1, i - 1);
      DivideTwice(x, 256, Pow256(i - 1));
    }
  }

  /** Two and four bytes, written out. */
  lemma ShortFields(x: nat)
    ensures LittleEndian(x, 2) == [(x % 256) as byte, (x / 256 % 256) as byte]
    ensures LittleEndian(x, 4) ==
      [(x % 256) as byte, (x / 256 % 256) as byte, (x / 65536 % 256) as byte, (x / 16777216 % 256) as byte]
  {
    assert Pow256(1) == 256 && Pow256(2) == 65536 && Pow256(3) == 16777216;
    LittleEndianAt(x, 2, 0);
    LittleEndianAt(x, 2, 1);
    forall i: nat | i < 4 ensures LittleEndian(x, 4)[i] as nat == (x / Pow256(i)) % 256 {
      LittleEndianAt(x, 4, i);
    }
  }

  lemma ShortValues(b: ByteBuffer)
    ensures |b| == 2 ==> FromLittleEndian(b) == b[0] as nat + 256 * b[1] as nat
    ensures |b| == 4 ==>
      FromLittleEndian(b) == b[0] as nat + 256 * b[1] as nat + 65536 * b[2] as nat + 16777216 * b[3] as nat
  {
    if |b| == 2 { assert b[1..] == [b[1]] && b[1..][1..] == []; }
    if |b| == 4 {
      assert b[1..] == [b[1], b[2], b[3]] && b[1..][1..] == [b[2], b[3]] && b[1..][1..][1..] == [b[3]];
    }
  }

  lemma LowByte(low: nat, high: nat)
    requires low < 256
    ensures (low + 256 * high) % 256 == low && (low + 256 * high) / 256 == high
  {
  }

  lemma {:induction false} BytesRoundTrip(b: ByteBuffer)
    ensures LittleEndian(FromLittleEndian(b), |b|) == b
  {
    if b != [] {
      BytesRoundTrip(b[1..]);
      LowByte(b[0] as nat, FromLittleEndian(b[1..]));
    }
  }

  lemma FieldSizes()
    ensures Pow256(1) == 0x100 && Pow256(2) == 0x1_0000 && Pow256(4) == 0x1_0000_0000
    ensures Pow256(8) == 0x1_0000_0000_0000_0000
  {
    assert Pow256(3) == 0x100_0000;
    assert Pow256(5) == 0x100_0000_0000;
    assert Pow256(6) == 0x1_0000_0000_0000;
    assert Pow256(7) == 0x100_0000_0000_0000;
  }
}
