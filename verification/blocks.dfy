/** Disk blocks as fixed-size byte strings, and the little-endian 32-bit words that
    the log header and the indirect blocks store in them. */
module Blocks {
  const BSIZE := 512
  const WORDS_PER_BLOCK := 128

  type Byte = x: int | 0 <= x < 256
  type Word = x: int | 0 <= x < 0x1_0000_0000
  type Block = b: seq<Byte> | |b| == 512 witness seq(512, _ => 0)

  /** The uint at index i when a block's data is read through a uint pointer. */
  function GetWord(b: Block, i: nat): Word
    requires i < WORDS_PER_BLOCK
  {
    var b0: int, b1: int, b2: int, b3: int := b[4 * i], b[4 * i + 1], b[4 * i + 2], b[4 * i + 3];
    b0 + 0x100 * b1 + 0x1_0000 * b2 + 0x100_0000 * b3
  }

  /** Byte k of w, least significant first. */
  function ByteOf(w: Word, k: nat): Byte
    requires k < 4
  {
    match k
    case 0 => w % 0x100
    case 1 => w / 0x100 % 0x100
    case 2 => w / 0x1_0000 % 0x100
    case 3 => w / 0x100_0000
  }

  /** The block after storing w at uint index i. */
  function PutWord(b: Block, i: nat, w: Word): Block
    requires i < WORDS_PER_BLOCK
  {
    b[4 * i := ByteOf(w, 0)][4 * i + 1 := ByteOf(w, 1)][4 * i + 2 := ByteOf(w, 2)][4 * i + 3 := ByteOf(w, 3)]
  }

  lemma BytesOfWord(w: Word)
    ensures var b0: int, b1: int, b2: int, b3: int := ByteOf(w, 0), ByteOf(w, 1), ByteOf(w, 2), ByteOf(w, 3);
            b0 + 0x100 * b1 + 0x1_0000 * b2 + 0x100_0000 * b3 == w
  {
    var q1, q2 := w / 0x100, w / 0x1_0000;
    assert q2 == q1 / 0x100 && w / 0x100_0000 == q2 / 0x100;
  }

  lemma PutWordAt(b: Block, i: nat, w: Word, k: nat)
    requires i < WORDS_PER_BLOCK && k < BSIZE
    ensures PutWord(b, i, w)[k] == if 4 * i <= k < 4 * i + 4 then ByteOf(w, k - 4 * i) else b[k]
  {
  }

  lemma GetPutWord(b: Block, i: nat, w: Word, j: nat)
    requires i < WORDS_PER_BLOCK && j < WORDS_PER_BLOCK
    ensures GetWord(PutWord(b, i, w), j) == if i == j then w else GetWord(b, j)
  {
    BytesOfWord(w);
    PutWordAt(b, i, w, 4 * j);
    PutWordAt(b, i, w, 4 * j + 1);
    PutWordAt(b, i, w, 4 * j + 2);
    PutWordAt(b, i, w, 4 * j + 3);
  }
}
