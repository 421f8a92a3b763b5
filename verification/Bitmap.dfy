/** The free-block bitmap: one bit per disk block, eight to a byte, BPB to a bitmap block. */
module Bitmap {
  import opened Bytes

  const BPB := 4096 // BSIZE * 8

  function Pow2(n: nat): (p: nat)
    ensures p >= 1
  {
    if n == 0 then 1 else 2 * Pow2(n - 1)
  }

  /** (x & (1 << k)) != 0. */
  predicate BitOf(x: nat, k: nat) {
    if k == 0 then x % 2 == 1 else BitOf(x / 2, k - 1)
  }

  /** x | (1 << k), in `width` bits. */
  function WithBit(x: nat, k: nat, width: nat): (r: nat)
    requires k < width && x < Pow2(width)
    ensures r < Pow2(width)
  {
    if k == 0 then 2 * (x / 2) + 1 else 2 * WithBit(x / 2, k - 1, width - 1) + x % 2
  }

  /** x & ~(1 << k), in `width` bits. */
  function WithoutBit(x: nat, k: nat, width: nat): (r: nat)
    requires k < width && x < Pow2(width)
    ensures r < Pow2(width)
  {
    if k == 0 then 2 * (x / 2) else 2 * WithoutBit(x / 2, k - 1, width - 1) + x % 2
  }

  /** The bits of 2h + l, for a bit l. */
  lemma BitShift(h: nat, l: nat, r: nat, j: nat)
    requires r == 2 * h + l && l < 2
    ensures BitOf(r, j) <==> if j == 0 then l == 1 else BitOf(h, j - 1)
  {
    assert r / 2 == h && r % 2 == l;
  }

  /** Setting a bit leaves the other bits alone. */
  lemma {:induction false} BitSet(x: nat, k: nat, width: nat, j: nat)
    requires k < width && x < Pow2(width)
    ensures BitOf(WithBit(x, k, width), j) <==> BitOf(x, j) || j == k
    decreases k
  {
    var h, l := x / 2, x % 2;
    BitShift(h, l, x, j);
    if k == 0 {
      BitShift(h, 1, WithBit(x, k, width), j);
    } else {
      BitShift(WithBit(h, k - 1, width - 1), l, WithBit(x, k, width), j);
      if j > 0 {
        BitSet(h, k - 1, width - 1, j - 1);
      }
    }
  }

  /** Clearing a bit leaves the other bits alone. */
  lemma {:induction false} BitCleared(x: nat, k: nat, width: nat, j: nat)
    requires k < width && x < Pow2(width)
    ensures BitOf(WithoutBit(x, k, width), j) <==> BitOf(x, j) && j != k
    decreases k
  {
    var h, l := x / 2, x % 2;
    BitShift(h, l, x, j);
    if k == 0 {
      BitShift(h, 0, WithoutBit(x, k, width), j);
    } else {
      BitShift(WithoutBit(h, k - 1, width - 1), l, WithoutBit(x, k, width), j);
      if j > 0 {
        BitCleared(h, k - 1, width - 1, j - 1);
      }
    }
  }

  lemma ByteWidth()
    ensures Pow2(8) == 256
  {
    assert Pow2(4) == 16;
  }

  /** Bit i of a bitmap block. */
  predicate Bit(b: Block, i: nat)
    requires i < BPB
  {
    BitOf(b[i / 8], i % 8)
  }

  function SetBit(b: Block, i: nat): (r: Block)
    requires i < BPB
    ensures forall j: nat :: j < BPB ==> Bit(r, j) == (Bit(b, j) || j == i)
  {
    ByteWidth();
    assert forall j: nat :: j < BPB && j / 8 == i / 8 && j % 8 == i % 8 ==> j == i;
    assert forall j: nat :: BitOf(WithBit(b[i / 8], i % 8, 8), j) <==> BitOf(b[i / 8], j) || j == i % 8 by {
      forall j: nat ensures BitOf(WithBit(b[i / 8], i % 8, 8), j) <==> BitOf(b[i / 8], j) || j == i % 8 {
        BitSet(b[i / 8], i % 8, 8, j);
      }
    }
    b[i / 8 := WithBit(b[i / 8], i % 8, 8)]
  }

  function ClearBit(b: Block, i: nat): (r: Block)
    requires i < BPB
    ensures forall j: nat :: j < BPB ==> Bit(r, j) == (Bit(b, j) && j != i)
  {
    ByteWidth();
    assert forall j: nat :: j < BPB && j / 8 == i / 8 && j % 8 == i % 8 ==> j == i;
    assert forall j: nat :: BitOf(WithoutBit(b[i / 8], i % 8, 8), j) <==> BitOf(b[i / 8], j) && j != i % 8 by {
      forall j: nat ensures BitOf(WithoutBit(b[i / 8], i % 8, 8), j) <==> BitOf(b[i / 8], j) && j != i % 8 {
        BitCleared(b[i / 8], i % 8, 8, j);
      }
    }
    b[i / 8 := WithoutBit(b[i / 8], i % 8, 8)]
  }
}
