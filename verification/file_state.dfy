/** fs.c's view of the disk: block numbers held by inodes and their indirect blocks, the free map,
    and what each operation may assume of them. */
module FileState {
  import opened Blocks
  import opened Bitmap
  import opened Dinode

  const NINDIRECT := 128
  const MAXFILE := 140
  const INDIRECT := 12
  /** Places an inode has for block numbers: 12 direct, the indirect block's, and the 128 in it. */
  const SLOTS := 141

  datatype Super = Super(size: nat, nblocks: nat, ninodes: nat, inodestart: nat, bmapstart: nat)

  /** The place that names a block. */
  datatype Name = Name(ino: nat, slot: nat)

  /** What bread shows (blocks), the in-memory inodes, and two records kept for the proofs: which
      place names each data block in use, and the blocks given to log_write. */
  datatype State = State(sb: Super, blocks: seq<Block>, inodes: seq<Inode>, owner: map<nat, Name>, logged: set<nat>)

  function DataStart(sb: Super): int {
    sb.size - sb.nblocks
  }

  /** mkfs's layout: inode blocks, then the free map, then data. */
  predicate Layout(sb: Super) {
    && 0 < sb.inodestart && sb.inodestart + sb.ninodes / IPB + 1 <= sb.bmapstart
    && sb.bmapstart + sb.size / BPB + 1 <= DataStart(sb) && sb.size < 0x1_0000_0000
  }

  predicate Shaped(s: State) {
    Layout(s.sb) && |s.blocks| == s.sb.size && |s.inodes| == s.sb.ninodes
  }

  function BBlock(sb: Super, x: nat): nat {
    x / BPB + sb.bmapstart
  }

  function IBlock(sb: Super, i: nat): nat {
    i / IPB + sb.inodestart
  }

  lemma BBlockIsMetadata(sb: Super, x: nat)
    requires Layout(sb) && x < sb.size
    ensures sb.inodestart + sb.ninodes / IPB < BBlock(sb, x) < DataStart(sb) <= sb.size
  {
  }

  /** The free map's bit for block x. */
  predicate Used(s: State, x: nat)
    requires Shaped(s) && x < s.sb.size
  {
    BBlockIsMetadata(s.sb, x);
    BlockBit(s.blocks[BBlock(s.sb, x)], x % BPB)
  }

  /** The block number in slot k of inode i; 0 when there is none. */
  function Slot(s: State, i: nat, k: nat): nat
    requires i < |s.inodes| && k < SLOTS
  {
    var a := s.inodes[i].addrs;
    if k <= INDIRECT then a[k]
    else if a[INDIRECT] == 0 || a[INDIRECT] >= |s.blocks| then 0
    else GetWord(s.blocks[a[INDIRECT]], k - INDIRECT - 1)
  }

  /** The slot for block bn of a file. */
  function FileSlot(bn: nat): nat {
    if bn < NDIRECT then bn else bn + 1
  }

  /** Every block number in a slot is that of a data block, which its owner entry names. */
  ghost predicate Placed(s: State)
    requires Shaped(s)
  {
    && (forall i: nat, k: nat :: i < |s.inodes| && k < SLOTS && Slot(s, i, k) != 0 ==>
         Slot(s, i, k) in s.owner && s.owner[Slot(s, i, k)] == Name(i, k))
    && (forall x :: x in s.owner ==>
         && DataStart(s.sb) <= x < s.sb.size && s.owner[x].ino < |s.inodes| && s.owner[x].slot < SLOTS
         && Slot(s, s.owner[x].ino, s.owner[x].slot) == x)
  }

  /** The free map's set bits are the metadata blocks and the blocks in slots. */
  ghost predicate Mapped(s: State)
    requires Shaped(s)
  {
    forall x: nat :: x < s.sb.size ==> (Used(s, x) <==> x < DataStart(s.sb) || x in s.owner)
  }

  /** The blocks that file i's first n bytes lie in are allocated. */
  ghost predicate HasBlocks(s: State, i: nat, n: nat)
    requires i < |s.inodes|
  {
    && n <= MAXFILE * BSIZE
    && forall bn: nat :: bn < MAXFILE && bn * BSIZE < n ==> Slot(s, i, FileSlot(bn)) != 0
  }

  /** A file's blocks up to its size are allocated. */
  ghost predicate Dense(s: State, i: nat)
    requires i < |s.inodes|
  {
    HasBlocks(s, i, s.inodes[i].size)
  }

  /** The inode on disk is the one in memory. */
  ghost predicate Saved(s: State, i: nat)
    requires Shaped(s) && i < |s.inodes|
  {
    LoadInode(s.blocks[IBlock(s.sb, i)], i % IPB) == s.inodes[i]
  }

  ghost predicate Core(s: State) {
    Shaped(s) && Placed(s) && Mapped(s)
  }

  /** What holds between operations. */
  ghost predicate Sound(s: State) {
    Core(s) && forall i: nat :: i < |s.inodes| ==> Dense(s, i) && Saved(s, i)
  }

  // ----- the free map states who uses what -----

  lemma SlotIsPlaced(s: State, i: nat, k: nat)
    requires Core(s) && i < |s.inodes| && k < SLOTS && Slot(s, i, k) != 0
    ensures var x := Slot(s, i, k);
            x in s.owner && s.owner[x] == Name(i, k) && DataStart(s.sb) <= x < s.sb.size && Used(s, x)
  {
  }

  /** The bitmap's set bits are exactly the metadata blocks and the blocks that some slot names. */
  lemma UsedIffReachable(s: State, x: nat)
    requires Core(s) && x < s.sb.size
    ensures Used(s, x) <==>
            x < DataStart(s.sb) || exists i: nat, k: nat :: i < |s.inodes| && k < SLOTS && Slot(s, i, k) == x
  {
    if x in s.owner {
      var n := s.owner[x];
      assert n.ino < |s.inodes| && n.slot < SLOTS && Slot(s, n.ino, n.slot) == x;
    } else if x >= DataStart(s.sb) {
      forall i: nat, k: nat | i < |s.inodes| && k < SLOTS ensures Slot(s, i, k) != x {
        if Slot(s, i, k) == x {
          SlotIsPlaced(s, i, k);
        }
      }
    }
  }

  /** No block is named twice. */
  lemma NamedOnce(s: State, i: nat, k: nat, j: nat, l: nat)
    requires Core(s) && i < |s.inodes| && k < SLOTS && j < |s.inodes| && l < SLOTS
    ensures Slot(s, i, k) == Slot(s, j, l) != 0 ==> i == j && k == l
  {
    if Slot(s, i, k) == Slot(s, j, l) != 0 {
      SlotIsPlaced(s, i, k);
      SlotIsPlaced(s, j, l);
    }
  }

  // ----- steps -----

  /** The free map's bit of x set or cleared. */
  function Marked(s: State, x: nat, on: bool): State
    requires Shaped(s) && x < s.sb.size
  {
    BBlockIsMetadata(s.sb, x);
    var bb := BBlock(s.sb, x);
    s.(blocks := s.blocks[bb := PutBlockBit(s.blocks[bb], x % BPB, on)], logged := s.logged + {bb})
  }

  function Zeros(): Block {
    var z: seq<Byte> := seq(BSIZE, i => 0);
    z
  }

  /** balloc: x marked in use and zeroed. */
  function Allocated(s: State, x: nat): State
    requires Shaped(s) && x < s.sb.size
  {
    var m := Marked(s, x, true);
    m.(blocks := m.blocks[x := Zeros()], logged := m.logged + {x})
  }

  /** Block number x stored in slot k of inode i. */
  function Named(s: State, i: nat, k: nat, x: Word): State
    requires Shaped(s) && i < |s.inodes| && k < SLOTS
    requires k > INDIRECT ==> s.inodes[i].addrs[INDIRECT] < s.sb.size
  {
    var n := s.inodes[i];
    var r := s.(owner := s.owner[x := Name(i, k)]);
    if k <= INDIRECT then
      r.(inodes := s.inodes[i := n.(addrs := n.addrs[k := x])])
    else
      var ind := n.addrs[INDIRECT];
      r.(blocks := s.blocks[ind := PutWord(s.blocks[ind], k - INDIRECT - 1, x)], logged := s.logged + {ind})
  }

  /** What bmap does when slot k is empty: block x allocated for it. */
  function Assigned(s: State, i: nat, k: nat, x: Word): State
    requires Shaped(s) && i < |s.inodes| && k < SLOTS && x < s.sb.size
    requires k > INDIRECT ==> s.inodes[i].addrs[INDIRECT] < s.sb.size
  {
    Named(Allocated(s, x), i, k, x)
  }

  /** From s to t only blocks that t has given to the log changed, none of them before the inodes. */
  ghost predicate Traced(s: State, t: State) {
    && |t.blocks| == |s.blocks| && s.logged <= t.logged
    && (forall b: nat :: b in t.logged ==> b in s.logged || s.sb.inodestart <= b < |s.blocks|)
    && forall b: nat {:trigger t.blocks[b]} :: b < |s.blocks| && b !in t.logged ==> t.blocks[b] == s.blocks[b]
  }

  lemma TracedTwice(s0: State, s: State, t: State)
    requires Traced(s0, s) && Traced(s, t) && s.sb == s0.sb
    ensures Traced(s0, t)
  {
    forall b: nat | b < |s0.blocks| && b !in t.logged ensures t.blocks[b] == s0.blocks[b] {
      assert s.blocks[b] == s0.blocks[b];
    }
  }

  /** Slot k of inode i can take block x. */
  ghost predicate CanAssign(s: State, i: nat, k: nat, x: nat) {
    && Core(s) && i < |s.inodes| && k < SLOTS && Slot(s, i, k) == 0
    && (k > INDIRECT ==> Slot(s, i, INDIRECT) != 0)
    && x < s.sb.size && !Used(s, x)
  }

  lemma CanAssignFacts(s: State, i: nat, k: nat, x: nat)
    requires CanAssign(s, i, k, x)
    ensures DataStart(s.sb) <= x && x !in s.owner && x != 0
    ensures k > INDIRECT ==>
              var ind := s.inodes[i].addrs[INDIRECT];
              DataStart(s.sb) <= ind < s.sb.size && ind != x && ind in s.owner
  {
    if k > INDIRECT {
      SlotIsPlaced(s, i, INDIRECT);
    }
  }

  lemma MarkedUsed(s: State, x: nat, on: bool, y: nat)
    requires Shaped(s) && x < s.sb.size && y < s.sb.size
    ensures Used(Marked(s, x, on), y) == if y == x then on else Used(s, y)
  {
    BBlockIsMetadata(s.sb, x);
    BBlockIsMetadata(s.sb, y);
    BlockBitOfPut(s.blocks[BBlock(s.sb, x)], x % BPB, on, y % BPB);
    assert x % BPB == y % BPB && x / BPB == y / BPB ==> x == y;
  }

  /** Used looks at the bitmap blocks only. */
  lemma SameUsed(s: State, t: State, y: nat)
    requires Shaped(s) && Shaped(t) && s.sb == t.sb && y < s.sb.size
    requires t.blocks[BBlock(s.sb, y)] == s.blocks[BBlock(s.sb, y)]
    ensures Used(t, y) == Used(s, y)
  {
  }

  /** The blocks that assigning x to slot k of inode i changes are x, its bitmap block and, for an
      entry of the indirect block, that block. */
  lemma AssignedBlocks(s: State, i: nat, k: nat, x: nat, b: nat)
    requires CanAssign(s, i, k, x) && b < s.sb.size
    ensures k > INDIRECT ==> s.inodes[i].addrs[INDIRECT] < s.sb.size
    ensures Shaped(Assigned(s, i, k, x))
    ensures b != x && b != BBlock(s.sb, x) && (k <= INDIRECT || b != Slot(s, i, INDIRECT)) ==>
              Assigned(s, i, k, x).blocks[b] == s.blocks[b]
    ensures b == x ==> Assigned(s, i, k, x).blocks[b] == Zeros()
  {
    CanAssignFacts(s, i, k, x);
  }

  lemma AssignedTraced(s: State, i: nat, k: nat, x: nat)
    requires CanAssign(s, i, k, x)
    ensures k > INDIRECT ==> s.inodes[i].addrs[INDIRECT] < s.sb.size
    ensures Traced(s, Assigned(s, i, k, x))
  {
    CanAssignFacts(s, i, k, x);
    BBlockIsMetadata(s.sb, x);
  }

  lemma AssignedUsed(s: State, i: nat, k: nat, x: nat, y: nat)
    requires CanAssign(s, i, k, x) && y < s.sb.size
    ensures k > INDIRECT ==> s.inodes[i].addrs[INDIRECT] < s.sb.size
    ensures Shaped(Assigned(s, i, k, x))
    ensures Used(Assigned(s, i, k, x), y) <==> y == x || Used(s, y)
  {
    CanAssignFacts(s, i, k, x);
    BBlockIsMetadata(s.sb, y);
    MarkedUsed(s, x, true, y);
    SameUsed(Marked(s, x, true), Assigned(s, i, k, x), y);
  }

  lemma ZeroWord(w: nat)
    requires w < WORDS_PER_BLOCK
    ensures GetWord(Zeros(), w) == 0
  {
  }

  lemma IndirectIsOther(s: State, i: nat, k: nat, x: nat, j: nat)
    requires CanAssign(s, i, k, x) && j < |s.inodes| && Slot(s, j, INDIRECT) != 0
    ensures var ind := Slot(s, j, INDIRECT);
            DataStart(s.sb) <= ind < s.sb.size && ind != x && (j != i && k > INDIRECT ==> ind != Slot(s, i, INDIRECT))
  {
    CanAssignFacts(s, i, k, x);
    SlotIsPlaced(s, j, INDIRECT);
    NamedOnce(s, i, INDIRECT, j, INDIRECT);
  }

  lemma AssignedAddrs(s: State, i: nat, k: nat, x: nat, j: nat, l: nat)
    requires CanAssign(s, i, k, x) && j < |s.inodes| && l <= INDIRECT
    ensures k > INDIRECT ==> s.inodes[i].addrs[INDIRECT] < s.sb.size
    ensures Assigned(s, i, k, x).inodes[j].addrs[l] == if j == i && l == k then x else s.inodes[j].addrs[l]
  {
    CanAssignFacts(s, i, k, x);
  }

  /** The indirect block of inode j that holds entry l, after the assignment. */
  lemma AssignedIndirect(s: State, i: nat, k: nat, x: nat, j: nat)
    requires CanAssign(s, i, k, x) && j < |s.inodes| && Slot(s, j, INDIRECT) != 0
    ensures k > INDIRECT ==> s.inodes[i].addrs[INDIRECT] < s.sb.size
    ensures var r, ind := Assigned(s, i, k, x), Slot(s, j, INDIRECT);
            && r.inodes[j].addrs[INDIRECT] == ind < |r.blocks| == |s.blocks|
            && r.blocks[ind] == if j == i && k > INDIRECT then PutWord(s.blocks[ind], k - INDIRECT - 1, x)
               else s.blocks[ind]
  {
    CanAssignFacts(s, i, k, x);
    BBlockIsMetadata(s.sb, x);
    AssignedAddrs(s, i, k, x, j, INDIRECT);
    IndirectIsOther(s, i, k, x, j);
    if j != i || k <= INDIRECT {
      AssignedBlocks(s, i, k, x, Slot(s, j, INDIRECT));
    }
  }

  lemma AssignedEntry(s: State, i: nat, k: nat, x: nat, j: nat, l: nat)
    requires CanAssign(s, i, k, x) && j < |s.inodes| && INDIRECT < l < SLOTS && Slot(s, j, INDIRECT) != 0
    ensures k > INDIRECT ==> s.inodes[i].addrs[INDIRECT] < s.sb.size
    ensures Slot(Assigned(s, i, k, x), j, l) == if j == i && l == k then x else Slot(s, j, l)
  {
    CanAssignFacts(s, i, k, x);
    AssignedIndirect(s, i, k, x, j);
    if j == i && k > INDIRECT {
      GetPutWord(s.blocks[Slot(s, i, INDIRECT)], k - INDIRECT - 1, x, l - INDIRECT - 1);
    }
  }

  /** Assigning a block to one slot leaves every other slot of every inode alone. */
  lemma AssignedSlot(s: State, i: nat, k: nat, x: nat, j: nat, l: nat)
    requires CanAssign(s, i, k, x) && j < |s.inodes| && l < SLOTS
    ensures k > INDIRECT ==> s.inodes[i].addrs[INDIRECT] < s.sb.size
    ensures Slot(Assigned(s, i, k, x), j, l) == if j == i && l == k then x else Slot(s, j, l)
  {
    CanAssignFacts(s, i, k, x);
    if l <= INDIRECT {
      AssignedAddrs(s, i, k, x, j, l);
    } else if Slot(s, j, INDIRECT) != 0 {
      AssignedEntry(s, i, k, x, j, l);
    } else {
      AssignedAddrs(s, i, k, x, j, INDIRECT);
      AssignedBlocks(s, i, k, x, x);
      ZeroWord(l - INDIRECT - 1);
    }
  }

  lemma AssignedPlaced(s: State, i: nat, k: nat, x: nat)
    requires CanAssign(s, i, k, x)
    ensures k > INDIRECT ==> s.inodes[i].addrs[INDIRECT] < s.sb.size
    ensures Shaped(Assigned(s, i, k, x)) && Placed(Assigned(s, i, k, x))
  {
    CanAssignFacts(s, i, k, x);
    var r := Assigned(s, i, k, x);
    forall j: nat, l: nat | j < |r.inodes| && l < SLOTS && Slot(r, j, l) != 0
      ensures Slot(r, j, l) in r.owner && r.owner[Slot(r, j, l)] == Name(j, l)
    {
      AssignedSlot(s, i, k, x, j, l);
    }
    forall y | y in r.owner
      ensures DataStart(r.sb) <= y < r.sb.size && r.owner[y].ino < |r.inodes| && r.owner[y].slot < SLOTS
      ensures Slot(r, r.owner[y].ino, r.owner[y].slot) == y
    {
      AssignedSlot(s, i, k, x, r.owner[y].ino, r.owner[y].slot);
    }
  }

  lemma AssignedCore(s: State, i: nat, k: nat, x: nat)
    requires CanAssign(s, i, k, x)
    ensures k > INDIRECT ==> s.inodes[i].addrs[INDIRECT] < s.sb.size
    ensures Core(Assigned(s, i, k, x))
  {
    CanAssignFacts(s, i, k, x);
    AssignedPlaced(s, i, k, x);
    var r := Assigned(s, i, k, x);
    forall y: nat | y < r.sb.size ensures Used(r, y) <==> y < DataStart(r.sb) || y in r.owner {
      AssignedUsed(s, i, k, x, y);
    }
  }
}
