/** Fixed-width big-endian numbers. */
module Bytes {
  type Byte = b: int | 0 <= b < 256

  function Pow256(width: nat): (p: nat)
    ensures p > 0
  {
    if width == 0 then 1 else 256 * Pow256(width - 1)
  }

  function Encode(n: nat, width: nat): (bs: seq<Byte>)
    ensures |bs| == width
  {
    if width == 0 then [] else Encode(n / 256, width - 1) + [n % 256]
  }

  function Decode(bs: seq<Byte>): (n: nat)
    ensures n < Pow256(|bs|)
  {
    if bs == [] then 0 else Decode(bs[..|bs|-1]) * 256 + bs[|bs|-1]
  }

  /** Every number that fits the width is read back as written. */
  lemma {:induction false} DecodeEncode(n: nat, width: nat)
    requires n < Pow256(width)
    ensures Decode(Encode(n, width)) == n
  {
    if width > 0 {
      DecodeEncode(n / 256, width - 1);
      var bs := Encode(n, width);
      assert bs[..width-1] == Encode(n / 256, width - 1);
    }
  }

  /** Every sequence of bytes is the encoding of the number it is read as. */
  lemma {:induction false} EncodeDecode(bs: seq<Byte>)
    ensures Encode(Decode(bs), |bs|) == bs
  {
    if bs != [] {
      EncodeDecode(bs[..|bs|-1]);
    }
  }

  lemma Distribute(b: nat, p: nat, n: nat)
    ensures (b * p + n) * 256 == b * (256 * p) + n * 256
  {
  }

  /** The first byte is the most significant one. */
  lemma {:induction false} FirstByteCounts(b: Byte, bs: seq<Byte>)
    ensures Decode([b] + bs) == b * Pow256(|bs|) + Decode(bs)
  {
    if bs == [] {
      assert [b][..0] == [];
    } else {
      var rest := bs[..|bs|-1];
      FirstByteCounts(b, rest);
      assert ([b] + bs)[..|bs|] == [b] + rest;
      Distribute(b, Pow256(|rest|), Decode(rest));
    }
  }

  lemma {:induction false} PowAdds(a: nat, b: nat)
    ensures Pow256(a + b) == Pow256(a) * Pow256(b)
  {
    if a > 0 {
      PowAdds(a - 1, b);
    }
  }
}
