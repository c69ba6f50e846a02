/** struct dinode, 64 bytes, eight to a block. */
module Dinode {
  import opened Blocks

  const NDIRECT := 12
  const IPB := 8
  const DINODE_WORDS := 16

  /** A C short. */
  type Short = x: int | -0x8000 <= x < 0x8000

  /** The NDIRECT block numbers and that of the indirect block. */
  type Addrs = a: seq<Word> | |a| == 13 witness seq(13, _ => 0)

  datatype Inode = Inode(kind: Short, major: Short, minor: Short, nlink: Short, size: Word, addrs: Addrs)

  /** Two shorts side by side, lower address first. */
  function Pair(a: Short, b: Short): Word {
    a % 0x1_0000 + 0x1_0000 * (b % 0x1_0000)
  }

  function ToShort(x: int): Short {
    var u := x % 0x1_0000;
    if u < 0x8000 then u else u - 0x1_0000
  }

  function Words(n: Inode): (r: seq<Word>)
    ensures |r| == DINODE_WORDS
  {
    [Pair(n.kind, n.major), Pair(n.minor, n.nlink), n.size] + n.addrs
  }

  /** Words ws[..k] stored from uint index at on. */
  function PutWords(b: Block, at: nat, ws: seq<Word>, k: nat): Block
    requires at + |ws| <= WORDS_PER_BLOCK && k <= |ws|
  {
    if k == 0 then b else PutWord(PutWords(b, at, ws, k - 1), at + k - 1, ws[k - 1])
  }

  /** iupdate's copy of the in-memory inode into its slot. */
  function StoreInode(b: Block, slot: nat, n: Inode): Block
    requires slot < IPB
  {
    PutWords(b, DINODE_WORDS * slot, Words(n), DINODE_WORDS)
  }

  /** k words from uint index at on. */
  function GetWords(b: Block, at: nat, k: nat): (r: seq<Word>)
    requires at + k <= WORDS_PER_BLOCK
    ensures |r| == k && forall i: nat :: i < k ==> r[i] == GetWord(b, at + i)
  {
    if k == 0 then [] else GetWords(b, at, k - 1) + [GetWord(b, at + k - 1)]
  }

  /** ilock's copy of the slot into the in-memory inode. */
  function LoadInode(b: Block, slot: nat): Inode
    requires slot < IPB
  {
    var at := DINODE_WORDS * slot;
    var w0: int, w1: int := GetWord(b, at), GetWord(b, at + 1);
    Inode(ToShort(w0), ToShort(w0 / 0x1_0000), ToShort(w1), ToShort(w1 / 0x1_0000), GetWord(b, at + 2),
          GetWords(b, at + 3, 13))
  }

  lemma {:induction false} GetPutWords(b: Block, at: nat, ws: seq<Word>, k: nat, j: nat)
    requires at + |ws| <= WORDS_PER_BLOCK && k <= |ws| && j < WORDS_PER_BLOCK
    ensures GetWord(PutWords(b, at, ws, k), j) == if at <= j < at + k then ws[j - at] else GetWord(b, j)
  {
    if k > 0 {
      GetPutWords(b, at, ws, k - 1, j);
      GetPutWord(PutWords(b, at, ws, k - 1), at + k - 1, ws[k - 1], j);
    }
  }

  lemma PairToShorts(a: Short, b: Short)
    ensures var w: int := Pair(a, b); ToShort(w) == a && ToShort(w / 0x1_0000) == b
  {
    var w: int := Pair(a, b);
    assert w % 0x1_0000 == a % 0x1_0000 && w / 0x1_0000 == b % 0x1_0000;
  }

  lemma SlotWord(b: Block, slot: nat, n: Inode, other: nat, i: nat)
    requires slot < IPB && other < IPB && i < DINODE_WORDS
    ensures GetWord(StoreInode(b, slot, n), DINODE_WORDS * other + i) ==
            if slot == other then Words(n)[i] else GetWord(b, DINODE_WORDS * other + i)
  {
    GetPutWords(b, DINODE_WORDS * slot, Words(n), DINODE_WORDS, DINODE_WORDS * other + i);
  }

  lemma SlotHead(b: Block, slot: nat, n: Inode, other: nat)
    requires slot < IPB && other < IPB
    ensures var r, at := StoreInode(b, slot, n), DINODE_WORDS * other;
            if slot == other then
              GetWord(r, at) == Pair(n.kind, n.major) && GetWord(r, at + 1) == Pair(n.minor, n.nlink)
                && GetWord(r, at + 2) == n.size
            else
              GetWord(r, at) == GetWord(b, at) && GetWord(r, at + 1) == GetWord(b, at + 1)
                && GetWord(r, at + 2) == GetWord(b, at + 2)
  {
    SlotWord(b, slot, n, other, 0);
    SlotWord(b, slot, n, other, 1);
    SlotWord(b, slot, n, other, 2);
  }

  lemma SlotAddrs(b: Block, slot: nat, n: Inode, other: nat)
    requires slot < IPB && other < IPB
    ensures GetWords(StoreInode(b, slot, n), DINODE_WORDS * other + 3, 13) ==
            if slot == other then n.addrs else GetWords(b, DINODE_WORDS * other + 3, 13)
  {
    var at := DINODE_WORDS * other + 3;
    var r := GetWords(StoreInode(b, slot, n), at, 13);
    var want: seq<Word> := if slot == other then n.addrs else GetWords(b, at, 13);
    forall i: nat | i < 13 ensures r[i] == want[i] {
      SlotWord(b, slot, n, other, 3 + i);
      assert Words(n)[3 + i] == n.addrs[i];
      assert DINODE_WORDS * other + (3 + i) == at + i;
    }
    assert r == want;
  }

  /** An inode read back from its slot is the one stored, and its neighbours are untouched. */
  lemma StoreThenLoad(b: Block, slot: nat, n: Inode, other: nat)
    requires slot < IPB && other < IPB
    ensures LoadInode(StoreInode(b, slot, n), other) == if slot == other then n else LoadInode(b, other)
  {
    SlotHead(b, slot, n, other);
    SlotAddrs(b, slot, n, other);
    PairToShorts(n.kind, n.major);
    PairToShorts(n.minor, n.nlink);
  }
}
