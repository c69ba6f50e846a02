/** The free map's bits: eight to a byte, least significant first. */
module Bitmap {
  import opened Blocks

  const BPB := 4096

  function Pow2(n: nat): nat {
    if n == 0 then 1 else 2 * Pow2(n - 1)
  }

  /** v & 1 << k, as a truth value. */
  predicate Bit(v: nat, k: nat) {
    if k == 0 then v % 2 == 1 else Bit(v / 2, k - 1)
  }

  /** v with bit k set to on. */
  function PutBit(v: nat, k: nat, on: bool): nat {
    if k == 0 then v / 2 * 2 + (if on then 1 else 0) else 2 * PutBit(v / 2, k - 1, on) + v % 2
  }

  lemma {:induction false} BitOfPutBit(v: nat, k: nat, on: bool, j: nat)
    ensures Bit(PutBit(v, k, on), j) == if j == k then on else Bit(v, j)
  {
    if k > 0 {
      assert PutBit(v, k, on) / 2 == PutBit(v / 2, k - 1, on);
      if j > 0 {
        BitOfPutBit(v / 2, k - 1, on, j - 1);
      }
    }
  }

  /** Setting a bit below bit n does not carry past it. */
  lemma {:induction false} PutBitBound(v: nat, k: nat, on: bool, n: nat)
    requires v < Pow2(n) && k < n
    ensures PutBit(v, k, on) < Pow2(n)
  {
    if k > 0 {
      PutBitBound(v / 2, k - 1, on, n - 1);
    }
  }

  /** bp->data[bi/8] with the mask of bi set or cleared. */
  function PutBlockBit(b: Block, bi: nat, on: bool): Block
    requires bi < BPB
  {
    var v: int := b[bi / 8];
    PutBitBound(v, bi % 8, on, 8);
    assert Pow2(8) == 256;
    b[bi / 8 := PutBit(v, bi % 8, on)]
  }

  predicate BlockBit(b: Block, bi: nat)
    requires bi < BPB
  {
    var v: int := b[bi / 8];
    Bit(v, bi % 8)
  }

  lemma BlockBitOfPut(b: Block, bi: nat, on: bool, j: nat)
    requires bi < BPB && j < BPB
    ensures BlockBit(PutBlockBit(b, bi, on), j) == if j == bi then on else BlockBit(b, j)
  {
    if j / 8 == bi / 8 {
      var v: int := b[bi / 8];
      BitOfPutBit(v, bi % 8, on, j % 8);
    }
  }
}
