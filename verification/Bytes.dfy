/**
 Bytes, and the numbers that runs of bytes stand for.
 */
module Bytes {
  import opened Bits

  type byte = x: nat | x < 256
  type bytes = seq<byte>

  /** Least significant byte first. */
  function Little(bs: bytes): (n: nat) {
    if bs == [] then 0 else bs[0] + 256 * Little(bs[1..])
  }

  /** Most significant byte first. */
  function Big(bs: bytes): (n: nat) {
    if bs == [] then 0 else 256 * Big(bs[..|bs| - 1]) + bs[|bs| - 1]
  }

  function Number(bs: bytes, big: bool): (n: nat) {
    if big then Big(bs) else Little(bs)
  }

  lemma EightBits(k: nat)
    ensures Pow2(8 * (k + 1)) == 256 * Pow2(8 * k)
  {
    Pow2Add(8, 8 * k);
    assert Pow2(4) == 16;
    assert Pow2(8) == 16 * Pow2(4);
  }

  lemma {:induction false} LittleAppend(bs: bytes, b: byte)
    ensures Little(bs + [b]) == Little(bs) + b * Pow2(8 * |bs|)
  {
    if bs == [] {
      assert [b][1..] == [];
    } else {
      assert (bs + [b])[1..] == bs[1..] + [b];
      LittleAppend(bs[1..], b);
      EightBits(|bs| - 1);
      Scale(Little(bs[1..]), b, Pow2(8 * (|bs| - 1)));
    }
  }

  lemma {:induction false} BigPrepend(b: byte, bs: bytes)
    ensures Big([b] + bs) == Big(bs) + b * Pow2(8 * |bs|)
  {
    if bs == [] {
      assert [b][..0] == [];
    } else {
      assert ([b] + bs)[..|bs|] == [b] + bs[..|bs| - 1];
      BigPrepend(b, bs[..|bs| - 1]);
      EightBits(|bs| - 1);
      Scale(Big(bs[..|bs| - 1]), b, Pow2(8 * (|bs| - 1)));
    }
  }

  lemma Scale(v: nat, b: nat, p: nat)
    ensures 256 * (v + b * p) == 256 * v + b * (256 * p)
  {
  }

  lemma {:induction false} NumberBound(bs: bytes, big: bool)
    ensures Number(bs, big) < Pow2(8 * |bs|)
  {
    if bs != [] {
      NumberBound(if big then bs[..|bs| - 1] else bs[1..], big);
      EightBits(|bs| - 1);
    }
  }
}
