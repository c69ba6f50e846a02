/** fs.c's block allocation and file reading and writing. */
module FileSystem {
  import opened Options
  import opened Blocks
  import opened Bitmap
  import opened Dinode
  import opened FileState
  import opened FileContents
  import opened TransactionSize

  const T_DEV := 3
  const NDEV := 10

  /** Blocks from b up to e are in use. */
  ghost predicate AllUsed(s: State, b: nat, e: nat)
    requires Shaped(s)
  {
    forall y: nat :: b <= y < e && y < s.sb.size ==> Used(s, y)
  }

  /** No block is free. */
  ghost predicate Full(s: State) {
    Shaped(s) && AllUsed(s, 0, s.sb.size)
  }

  /** writei's and readi's first test: the offset is beyond the file, or off + n wraps. */
  predicate BadRange(n: Inode, off: Word, len: Word) {
    off > n.size || (off + len) % 0x1_0000_0000 < off
  }

  lemma WrapTest(n: Inode, off: Word, len: Word)
    ensures BadRange(n, off, len) <==> off > n.size || off + len >= 0x1_0000_0000
  {
  }

  /** The slots that itrunc has freed: the direct ones below a, the entries from 13 up to b, and with
      ind also the indirect block. */
  predicate Passed(k: nat, a: nat, b: nat, ind: bool) {
    k < a || (INDIRECT < k < b) || (ind && k == INDIRECT)
  }

  /** blocks is what itrunc of inode i has made of s's blocks after freeing those slots. */
  ghost predicate Freeing(s: State, blocks: seq<Block>, i: nat, a: nat, b: nat, ind: bool) {
    && Core(s) && |blocks| == |s.blocks| && i < |s.inodes|
    && (forall y: nat :: y < s.sb.size ==>
         (Used(s.(blocks := blocks), y) <==> Used(s, y) && !(Owns(s, i, y) && Passed(s.owner[y].slot, a, b, ind))))
    && forall x: nat :: x < s.sb.size && (x < s.sb.bmapstart || x >= DataStart(s.sb)) ==> blocks[x] == s.blocks[x]
  }

  /** Slot k comes next, after those passed before. */
  ghost predicate NextSlot(k: nat, a: nat, b: nat, ind: bool, a': nat, b': nat, ind': bool) {
    && k < SLOTS && !Passed(k, a, b, ind)
    && forall l: nat {:trigger Passed(l, a', b', ind')} :: l < SLOTS ==>
       (Passed(l, a', b', ind') <==> Passed(l, a, b, ind) || l == k)
  }

  /** The block in the next slot is still in use. */
  lemma NextIsUsed(s: State, blocks: seq<Block>, i: nat, k: nat, a: nat, b: nat, ind: bool)
    requires Freeing(s, blocks, i, a, b, ind) && k < SLOTS && !Passed(k, a, b, ind) && Slot(s, i, k) != 0
    ensures DataStart(s.sb) <= Slot(s, i, k) < s.sb.size && Used(s.(blocks := blocks), Slot(s, i, k))
  {
    SlotIsPlaced(s, i, k);
  }

  lemma OnlyOwner(s: State, i: nat, k: nat, y: nat)
    requires Core(s) && i < |s.inodes| && k < SLOTS && Owns(s, i, y)
    ensures s.owner[y].slot < SLOTS && (s.owner[y].slot == k <==> y == Slot(s, i, k)) && y != 0
  {
    if Slot(s, i, k) != 0 {
      SlotIsPlaced(s, i, k);
    }
  }

  lemma FreeNothing(s: State, blocks: seq<Block>, i: nat, k: nat, a: nat, b: nat, ind: bool, a': nat, b': nat,
                    ind': bool)
    requires Freeing(s, blocks, i, a, b, ind) && NextSlot(k, a, b, ind, a', b', ind') && Slot(s, i, k) == 0
    ensures Freeing(s, blocks, i, a', b', ind')
  {
    forall y: nat | y < s.sb.size && Owns(s, i, y)
      ensures Passed(s.owner[y].slot, a, b, ind) == Passed(s.owner[y].slot, a', b', ind')
    {
      OnlyOwner(s, i, k, y);
    }
  }

  lemma FreedUsed(s: State, blocks: seq<Block>, i: nat, k: nat, y: nat)
    requires Core(s) && |blocks| == |s.blocks| && i < |s.inodes| && k < SLOTS && Slot(s, i, k) != 0 && y < s.sb.size
    ensures Slot(s, i, k) < s.sb.size
    ensures var m := s.(blocks := blocks);
            Used(s.(blocks := Marked(m, Slot(s, i, k), false).blocks), y) <==> y != Slot(s, i, k) && Used(m, y)
  {
    SlotIsPlaced(s, i, k);
    var m := s.(blocks := blocks);
    MarkedUsed(m, Slot(s, i, k), false, y);
    BBlockIsMetadata(s.sb, y);
    SameUsed(Marked(m, Slot(s, i, k), false), s.(blocks := Marked(m, Slot(s, i, k), false).blocks), y);
  }

  lemma FreeOne(s: State, blocks: seq<Block>, i: nat, k: nat, a: nat, b: nat, ind: bool, a': nat, b': nat, ind': bool)
    requires Freeing(s, blocks, i, a, b, ind) && NextSlot(k, a, b, ind, a', b', ind') && Slot(s, i, k) != 0
    ensures Slot(s, i, k) < s.sb.size
            && Freeing(s, Marked(s.(blocks := blocks), Slot(s, i, k), false).blocks, i, a', b', ind')
  {
    NextIsUsed(s, blocks, i, k, a, b, ind);
    var x, m := Slot(s, i, k), s.(blocks := blocks);
    var f := Marked(m, x, false).blocks;
    forall y: nat | y < s.sb.size
      ensures Used(s.(blocks := f), y) <==> Used(s, y) && !(Owns(s, i, y) && Passed(s.owner[y].slot, a', b', ind'))
    {
      FreedUsed(s, blocks, i, k, y);
      if Owns(s, i, y) {
        OnlyOwner(s, i, k, y);
      }
      SlotIsPlaced(s, i, k);
    }
    BBlockIsMetadata(s.sb, x);
  }

  // ----- itrunc's progress -----

  /** The in-memory inode i with its direct slots below k cleared. */
  ghost predicate Cleared(s0: State, s: State, i: nat, k: nat) {
    && i < |s0.inodes| && |s.inodes| == |s0.inodes| && s.sb == s0.sb && s.owner == s0.owner
    && (forall j: nat :: j < |s0.inodes| && j != i ==> s.inodes[j] == s0.inodes[j])
    && s.inodes[i].(addrs := s0.inodes[i].addrs) == s0.inodes[i]
    && forall l: nat :: l <= INDIRECT ==> s.inodes[i].addrs[l] == if l < k then 0 else s0.inodes[i].addrs[l]
  }

  ghost predicate TruncDirect(s0: State, s: State, i: nat, k: nat) {
    Freeing(s0, s.blocks, i, k, INDIRECT + 1, false) && Cleared(s0, s, i, k)
  }

  ghost predicate TruncEntries(s0: State, s: State, i: nat, b: nat) {
    Freeing(s0, s.blocks, i, NDIRECT, b, false) && Cleared(s0, s, i, NDIRECT)
  }

  ghost predicate TruncAll(s0: State, s: State, i: nat) {
    Freeing(s0, s.blocks, i, NDIRECT, SLOTS, true) && Cleared(s0, s, i, INDIRECT + 1)
  }

  lemma StartsUnfreed(s: State, i: nat)
    requires Core(s) && i < |s.inodes|
    ensures TruncDirect(s, s, i, 0)
  {
    assert s.(blocks := s.blocks) == s;
  }

  lemma SameShape(s0: State, s: State)
    requires Shaped(s0) && |s.blocks| == |s0.blocks| && s.sb == s0.sb && |s.inodes| == |s0.inodes|
    ensures Shaped(s) && forall y: nat :: y < s.sb.size ==> Used(s, y) == Used(s0.(blocks := s.blocks), y)
  {
  }

  lemma MarkedAlike(s0: State, s: State, b: seq<Block>, x: nat)
    requires Shaped(s0) && Shaped(s) && s.sb == s0.sb && s.blocks == b && |b| == |s0.blocks| && x < s.sb.size
    ensures Marked(s, x, false).blocks == Marked(s0.(blocks := b), x, false).blocks
  {
  }

  /** Without an indirect block there is no entry to free. */
  lemma NoEntries(s0: State, s: State, i: nat)
    requires TruncDirect(s0, s, i, NDIRECT) && s.inodes[i].addrs[INDIRECT] == 0
    ensures TruncAll(s0, s, i)
  {
    forall y: nat | y < s0.sb.size && Owns(s0, i, y) ensures s0.owner[y].slot < NDIRECT {
      OnlyOwner(s0, i, s0.owner[y].slot, y);
    }
  }

  lemma ClearedAll(s0: State, s: State, i: nat)
    requires Cleared(s0, s, i, INDIRECT + 1)
    ensures s.inodes[i := s.inodes[i].(size := 0)] == s0.inodes[i := s0.inodes[i].(size := 0, addrs := NoAddrs())]
  {
    assert s.inodes[i].addrs == NoAddrs();
  }

  /** With all its slots passed, inode i has lost exactly its blocks. */
  lemma AllFreed(s0: State, s: State, t: State, i: nat)
    requires Sound(s0) && i < |s0.inodes| && s.sb == s0.sb && Freeing(s0, s.blocks, i, NDIRECT, SLOTS, true)
    requires s.inodes == s0.inodes[i := s0.inodes[i].(size := 0, addrs := NoAddrs())] && t == Updated(s, i)
    requires s.owner == WithoutInode(s0.owner, i)
    ensures Emptied(s0, t, i)
  {
    SameShape(s0, s);
    forall y: nat | y < s0.sb.size ensures Used(t, y) <==> Used(s0, y) && !Owns(s0, i, y) {
      BBlockIsMetadata(s0.sb, y);
      SameUsed(s, t, y);
    }
  }

  // ----- files as their users see them -----

  /** A file as its users see it. */
  datatype FileView = FileView(kind: Short, major: Short, minor: Short, nlink: Short, data: seq<Byte>)

  ghost function View(s: State, i: nat): FileView
    requires i < |s.inodes| && s.inodes[i].size <= MAXSIZE
  {
    var n := s.inodes[i];
    FileView(n.kind, n.major, n.minor, n.nlink, Contents(s, i))
  }

  lemma SizesBounded(s: State)
    requires Sound(s)
    ensures forall i: nat :: i < |s.inodes| ==> s.inodes[i].size <= MAXSIZE
  {
    forall i: nat | i < |s.inodes| ensures s.inodes[i].size <= MAXSIZE {
      assert Dense(s, i);
    }
  }

  /** Every file, by inode number. */
  ghost function Files(s: State): (r: seq<FileView>)
    requires Sound(s)
    ensures |r| == |s.inodes| && forall i: nat :: i < |r| ==> s.inodes[i].size <= MAXSIZE && r[i] == View(s, i)
  {
    SizesBounded(s);
    seq(|s.inodes|, i requires 0 <= i < |s.inodes| => View(s, i))
  }

  /** The files after d is written to file i at off, which extends the file if d ends beyond it; nothing
      happens when off is beyond the file. */
  function Put(files: seq<FileView>, i: nat, off: nat, d: seq<Byte>): seq<FileView> {
    if i < |files| && off <= |files[i].data| then files[i := files[i].(data := Splice(files[i].data, off, d))]
      else files
  }

  lemma EmptiedFiles(s: State, t: State, i: nat)
    requires Sound(s) && Emptied(s, t, i)
    ensures Sound(t) && Files(t) == Files(s)[i := Files(s)[i].(data := [])]
  {
    EmptiedSound(s, t, i);
    forall j: nat | j < |s.inodes| && j != i ensures Files(t)[j] == Files(s)[j] {
      EmptiedKeepsOthers(s, t, i, j);
    }
    assert Files(t) == Files(s)[i := Files(s)[i].(data := [])];
  }

  lemma EndedView(s0: State, s: State, i: nat, off: nat, src: seq<Byte>, j: nat)
    requires Sound(s0) && Wrote(s0, s, i, off, |src|, src) && off <= s0.inodes[i].size
             && InodeKept(s0, s, i, off + |src|)
    requires Sound(Ended(s, i, off + |src|)) && j < |s0.inodes|
    ensures Files(Ended(s, i, off + |src|))[j] == Put(Files(s0), i, off, src)[j]
  {
    if j == i {
      WriteSplices(s0, s, i, off, src);
    } else {
      WriteKeepsOthers(s0, s, i, off, src, j);
    }
  }

  lemma EndedFiles(s0: State, s: State, i: nat, off: nat, src: seq<Byte>)
    requires Sound(s0) && Wrote(s0, s, i, off, |src|, src) && off <= s0.inodes[i].size
             && InodeKept(s0, s, i, off + |src|)
    ensures Sound(Ended(s, i, off + |src|)) && Files(Ended(s, i, off + |src|)) == Put(Files(s0), i, off, src)
  {
    WriteKeepsSound(s0, s, i, off, src);
    var l, r := Files(Ended(s, i, off + |src|)), Put(Files(s0), i, off, src);
    forall j: nat | j < |s0.inodes| ensures l[j] == r[j] {
      EndedView(s0, s, i, off, src, j);
    }
    assert l == r;
  }

  lemma EndedCharge(s: State, i: nat, off: nat, n: nat, base: nat)
    requires Shaped(s) && Within(s, i, base, Touched(off, n), Allocatable(off, n)) && off + n < 0x1_0000_0000
    ensures |Ended(s, i, off + n).logged| <= base + LogBound(off, n)
  {
    CardinalityMono(s.logged, Charged(s, i));
    CardinalityMono(Ended(s, i, off + n).logged, s.logged + {IBlock(s.sb, i)});
  }

  // ----- writei's progress -----

  /** writei's loop, tot bytes in. */
  ghost predicate WriteSoFar(s0: State, s: State, i: nat, off: nat, tot: nat, src: seq<Byte>, base: nat) {
    && (tot == 0 || tot == |src| || (off + tot) % BSIZE == 0)
    && Wrote(s0, s, i, off, tot, src) && InodeKept(s0, s, i, off + tot) && off <= s0.inodes[i].size
    && Within(s, i, base, Touched(off, tot), Allocatable(off, tot))
  }

  lemma WroteNothing(s: State, i: nat, off: nat, src: seq<Byte>)
    requires Core(s) && i < |s.inodes| && off + |src| <= MAXSIZE && off <= s.inodes[i].size
    ensures WriteSoFar(s, s, i, off, 0, src, |s.logged|)
  {
    StartsWithin(s, i);
  }

  lemma NextChunk(off: nat, n: nat, tot: nat, bn: nat, o: nat, tot': nat)
    requires tot < n && off + n <= MAXSIZE && (tot == 0 || (off + tot) % BSIZE == 0)
    requires bn == (off + tot) / BSIZE && o == (off + tot) % BSIZE && tot' == tot + Chunk(off, n, tot)
    ensures tot < tot' <= n && InBlock(off + tot, tot' - tot, bn, o) && (tot == 0 || o == 0)
    ensures tot' == n || (off + tot') % BSIZE == 0
  {
  }

  /** t is mapped after the memmove and log_write of one round. */
  ghost predicate RoundFilled(mapped: State, t: State, i: nat, bn: nat, o: nat, d: seq<Byte>) {
    && i < |mapped.inodes| && bn < MAXFILE && o + |d| <= BSIZE && Slot(mapped, i, FileSlot(bn)) < |mapped.blocks|
    && t == Filled(mapped, Slot(mapped, i, FileSlot(bn)), o, d)
  }

  /** s, mid, mapped and t are the states before, during and after the round that writes src[tot..tot']. */
  ghost predicate RoundDone(s0: State, s: State, mid: State, mapped: State, t: State, i: nat, off: nat, tot: nat,
                            src: seq<Byte>, bn: nat, o: nat, tot': nat, base: nat) {
    && Sound(s0) && WriteSoFar(s0, s, i, off, tot, src, base) && Bmapped(s, mid, mapped, i, bn)
    && tot < tot' <= |src| && InBlock(off + tot, tot' - tot, bn, o) && (tot == 0 || o == 0)
    && (tot' == |src| || (off + tot') % BSIZE == 0)
    && RoundFilled(mapped, t, i, bn, o, src[tot..tot'])
  }

  lemma RoundWrote(s0: State, s: State, mid: State, mapped: State, t: State, i: nat, off: nat, tot: nat,
                   src: seq<Byte>, bn: nat, o: nat, tot': nat, base: nat)
    requires RoundDone(s0, s, mid, mapped, t, i, off, tot, src, bn, o, tot', base)
    ensures Wrote(s0, t, i, off, tot', src)
  {
    BmapKeeps(s, mid, mapped, i, bn);
    WroteThenMapped(s0, s, mapped, i, off, tot, src);
    WroteMore(s0, mapped, i, off, tot, src, bn, o, tot');
  }

  /** A file block that begins below the file's size is allocated and stays so. */
  lemma AllocatedBelow(s0: State, s: State, i: nat, bn: nat)
    requires Sound(s0) && Kept(s0, s, i) && bn < MAXFILE && bn * BSIZE < s0.inodes[i].size
    ensures Slot(s, i, FileSlot(bn)) != 0
  {
    FileSlots(bn);
    assert Dense(s0, i);
    assert Slot(s0, i, FileSlot(bn)) != 0;
  }

  lemma RoundInode(s0: State, s: State, mid: State, mapped: State, t: State, i: nat, off: nat, tot: nat,
                   src: seq<Byte>, bn: nat, o: nat, tot': nat, base: nat)
    requires RoundDone(s0, s, mid, mapped, t, i, off, tot, src, bn, o, tot', base)
    ensures i < |s0.inodes| && i < |t.inodes| && off <= s0.inodes[i].size && InodeKept(s0, t, i, off + tot')
  {
    BmapKeeps(s, mid, mapped, i, bn);
    if off + tot' <= s0.inodes[i].size {
      AllocatedBelow(s0, s, i, bn);
    }
  }

  lemma BlockCharge(s: State, mid: State, mapped: State, t: State, i: nat, bn: nat, o: nat, d: seq<Byte>, base: nat,
                    done: nat, allocs: nat, allocs': nat)
    requires Bmapped(s, mid, mapped, i, bn) && Within(s, i, base, done, allocs) && RoundFilled(mapped, t, i, bn, o, d)
    requires allocs' == allocs + 1 || (allocs' == allocs && Slot(s, i, FileSlot(bn)) != 0)
    ensures Within(t, i, base, done + 1, allocs')
  {
    BmapKeeps(s, mid, mapped, i, bn);
    BmapCharge(s, mid, mapped, i, bn, base, done, allocs);
    if Slot(s, i, FileSlot(bn)) != 0 {
      FillCharge(mapped, i, bn, o, d, base, done, allocs);
    } else {
      FillCharge(mapped, i, bn, o, d, base, done + 1, allocs + 1);
    }
  }

  /** One round writes one more block; only an unaligned first block was surely there before. */
  lemma RoundCharge(s0: State, s: State, mid: State, mapped: State, t: State, i: nat, off: nat, tot: nat,
                    src: seq<Byte>, bn: nat, o: nat, tot': nat, base: nat)
    requires RoundDone(s0, s, mid, mapped, t, i, off, tot, src, bn, o, tot', base)
    ensures Within(t, i, base, Touched(off, tot'), Allocatable(off, tot'))
  {
    OneMoreBlock(off, tot, tot' - tot, bn, o);
    if tot == 0 && o != 0 {
      AllocatedBelow(s0, s, i, bn);
    }
    BlockCharge(s, mid, mapped, t, i, bn, o, src[tot..tot'], base, Touched(off, tot), Allocatable(off, tot),
                Allocatable(off, tot'));
  }

  /** One round of writei's loop. */
  lemma Round(s0: State, s: State, mid: State, mapped: State, t: State, i: nat, off: nat, tot: nat, src: seq<Byte>,
              bn: nat, o: nat, tot': nat, base: nat)
    requires RoundDone(s0, s, mid, mapped, t, i, off, tot, src, bn, o, tot', base)
    ensures WriteSoFar(s0, t, i, off, tot', src, base)
  {
    RoundWrote(s0, s, mid, mapped, t, i, off, tot, src, bn, o, tot', base);
    RoundInode(s0, s, mid, mapped, t, i, off, tot, src, bn, o, tot', base);
    RoundCharge(s0, s, mid, mapped, t, i, off, tot, src, bn, o, tot', base);
  }

  lemma InOneBlock(at: nat, to: nat)
    requires at < to <= MAXSIZE && to - at <= BSIZE - at % BSIZE
    ensures InBlock(at, to - at, at / BSIZE, at % BSIZE)
  {
  }

  lemma JoinSlices(c: seq<Byte>, p: nat, q: nat, r: nat)
    requires p <= q <= r <= |c|
    ensures c[p..q] + c[q..r] == c[p..r]
  {
  }

  lemma ReadChunk(s: State, i: nat, at: nat, to: nat, bn: nat, o: nat)
    requires Core(s) && i < |s.inodes| && at <= to <= s.inodes[i].size <= MAXSIZE && InBlock(at, to - at, bn, o)
    requires Slot(s, i, FileSlot(bn)) != 0
    ensures Slot(s, i, FileSlot(bn)) < |s.blocks|
    ensures Contents(s, i)[at..to] == s.blocks[Slot(s, i, FileSlot(bn))][o..o + (to - at)]
  {
    SlotIsPlaced(s, i, FileSlot(bn));
    var r, d := Contents(s, i)[at..to], s.blocks[Slot(s, i, FileSlot(bn))][o..o + (to - at)];
    forall k: nat | k < to - at ensures r[k] == d[k] {
      assert r[k] == ByteAt(s, i, at + k);
      assert (at + k) / BSIZE == bn && (at + k) % BSIZE == o + k;
    }
    assert r == d;
  }

  // ----- the routines -----

  class FileSys {
    const sb: Super
    /** The devices with a read and a write function. */
    const readable: set<int>
    const writable: set<int>
    /** What bread shows of each block. */
    var blocks: seq<Block>
    /** The in-memory inodes, by number. */
    var inodes: seq<Inode>
    ghost var owner: map<nat, Name>
    ghost var logged: set<nat>

    ghost function S(): State
      reads this
    {
      State(sb, blocks, inodes, owner, logged)
    }

    /** bzero. */
    method Bzero(bno: nat)
      requires bno < |blocks|
      modifies `blocks, `logged
      ensures blocks == old(blocks)[bno := Zeros()] && logged == old(logged) + {bno}
    {
      blocks := blocks[bno := Zeros()];
      logged := logged + {bno};
    }

    /** balloc's marking of a free block. */
    method Mark(x: nat)
      requires Shaped(S()) && x < sb.size
      modifies `blocks, `logged
      ensures S() == Marked(old(S()), x, true)
    {
      BBlockIsMetadata(sb, x);
      var bb := BBlock(sb, x);
      blocks := blocks[bb := PutBlockBit(blocks[bb], x % BPB, true)];
      logged := logged + {bb};
    }

    /** balloc's inner loop: the first clear bit of the free-map block for blocks b on. */
    method FirstClear(b: nat) returns (bi: nat)
      requires Shaped(S()) && b < sb.size && b % BPB == 0
      ensures bi <= BPB && AllUsed(S(), b, b + bi)
      ensures bi == BPB || b + bi >= sb.size || !Used(S(), b + bi)
    {
      BBlockIsMetadata(sb, b);
      var bb := BBlock(sb, b);
      bi := 0;
      while bi < BPB && b + bi < sb.size
        invariant bi <= BPB && AllUsed(S(), b, b + bi)
      {
        assert BBlock(sb, b + bi) == bb && (b + bi) % BPB == bi;
        if !BlockBit(blocks[bb], bi) {
          return;
        }
        bi := bi + 1;
      }
    }

    /** balloc's search: the lowest free block. */
    method FirstFree() returns (r: Option<Word>)
      requires Shaped(S())
      ensures r == None ==> Full(S())
      ensures r.Some? ==> r.value < sb.size && !Used(S(), r.value) && AllUsed(S(), 0, r.value)
    {
      var b := 0;
      while b < sb.size
        invariant b % BPB == 0 && AllUsed(S(), 0, b)
        decreases sb.size - b
      {
        var bi := FirstClear(b);
        if bi < BPB && b + bi < sb.size {
          return Some(b + bi);
        }
        b := b + BPB;
      }
      r := None;
    }

    /** balloc: the lowest free block, marked and zeroed; without one the kernel panics (None). */
    method Balloc() returns (r: Option<Word>)
      requires Shaped(S())
      modifies `blocks, `logged
      ensures r == None ==> S() == old(S()) && Full(S())
      ensures r.Some? ==> r.value < sb.size && !old(Used(S(), r.value)) && S() == Allocated(old(S()), r.value)
      ensures r.Some? ==> AllUsed(old(S()), 0, r.value)
    {
      r := FirstFree();
      if r.Some? {
        Mark(r.value);
        Bzero(r.value);
      }
    }

    /** bfree: the block's bit is cleared; freeing a free block would be a panic. */
    method Bfree(x: nat)
      requires Shaped(S()) && x < sb.size && Used(S(), x)
      modifies `blocks, `logged
      ensures S() == Marked(old(S()), x, false)
    {
      BBlockIsMetadata(sb, x);
      var bb := BBlock(sb, x);
      blocks := blocks[bb := PutBlockBit(blocks[bb], x % BPB, false)];
      logged := logged + {bb};
    }

    /** iupdate: the inode goes to its slot on disk. */
    method Iupdate(i: nat)
      requires Shaped(S()) && i < |inodes|
      modifies `blocks, `logged
      ensures S() == Updated(old(S()), i)
    {
      var ib := IBlock(sb, i);
      blocks := blocks[ib := StoreInode(blocks[ib], i % IPB, inodes[i])];
      logged := logged + {ib};
    }

    /** bmap's first half: an empty slot of the inode itself gets a block. */
    method FillAddr(i: nat, k: nat) returns (addr: Option<Word>)
      requires Core(S()) && i < |inodes| && k <= INDIRECT
      modifies `blocks, `inodes, `owner, `logged
      ensures addr == None ==> Full(S()) && old(Slot(S(), i, k)) == 0
      ensures addr.Some? ==> SlotFilled(old(S()), S(), i, k) && addr.value == Slot(S(), i, k)
    {
      addr := Some(inodes[i].addrs[k]);
      if addr == Some(0) {
        addr := Balloc();
        if addr.Some? {
          ghost var x := addr.value;
          assert CanAssign(old(S()), i, k, x);
          inodes := inodes[i := inodes[i].(addrs := inodes[i].addrs[k := addr.value])];
          owner := owner[addr.value := Name(i, k)];
          assert S() == Assigned(old(S()), i, k, x);
        }
      }
    }

    /** bmap's second half: an empty entry of the indirect block gets a block. */
    method FillEntry(i: nat, bn: nat) returns (addr: Option<Word>)
      requires Core(S()) && i < |inodes| && bn < NINDIRECT && Slot(S(), i, INDIRECT) != 0
      modifies `blocks, `owner, `logged
      ensures addr == None ==> Full(S()) && old(Slot(S(), i, INDIRECT + 1 + bn)) == 0
      ensures addr.Some? ==>
                SlotFilled(old(S()), S(), i, INDIRECT + 1 + bn) && addr.value == Slot(S(), i, INDIRECT + 1 + bn)
    {
      ghost var k := INDIRECT + 1 + bn;
      SlotIsPlaced(S(), i, INDIRECT);
      var ind := inodes[i].addrs[INDIRECT];
      addr := Some(GetWord(blocks[ind], bn));
      if addr == Some(0) {
        addr := Balloc();
        if addr.Some? {
          ghost var x := addr.value;
          assert CanAssign(old(S()), i, k, x);
          AssignedSlot(old(S()), i, k, x, i, k);
          blocks := blocks[ind := PutWord(blocks[ind], bn, addr.value)];
          logged := logged + {ind};
          owner := owner[addr.value := Name(i, k)];
          assert S() == Assigned(old(S()), i, k, x);
        }
      }
    }

    /** bmap for a block that the indirect block lists. */
    method BmapEntry(i: nat, bn: nat) returns (addr: Option<Word>, ghost mid: State)
      requires Core(S()) && i < |inodes| && NDIRECT <= bn < MAXFILE
      modifies `blocks, `inodes, `owner, `logged
      ensures addr == None ==> Full(S()) && old(Slot(S(), i, FileSlot(bn))) == 0
      ensures addr.Some? ==> SlotFilled(old(S()), mid, i, INDIRECT) && SlotFilled(mid, S(), i, FileSlot(bn))
      ensures addr.Some? ==> addr.value == Slot(S(), i, FileSlot(bn))
    {
      assert FileSlot(bn) == INDIRECT + 1 + (bn - NDIRECT);
      addr := FillAddr(i, INDIRECT);
      mid := S();
      if addr.Some? {
        FilledSlotCore(old(S()), S(), i, INDIRECT);
        addr := FillEntry(i, bn - NDIRECT);
      }
    }

    /** bmap: the block number of file block bn, allocated if there was none. `mid` is the state once
        the indirect block exists. */
    method Bmap(i: nat, bn: nat) returns (addr: Option<Word>, ghost mid: State)
      requires Core(S()) && i < |inodes| && bn < MAXFILE
      modifies `blocks, `inodes, `owner, `logged
      ensures addr == None ==> Full(S()) && old(Slot(S(), i, FileSlot(bn))) == 0
      ensures addr.Some? ==> Bmapped(old(S()), mid, S(), i, bn) && addr.value == Slot(S(), i, FileSlot(bn))
    {
      if bn < NDIRECT {
        assert FileSlot(bn) == bn;
        mid := S();
        addr := FillAddr(i, bn);
      } else {
        addr, mid := BmapEntry(i, bn);
      }
    }

    /** One round of readi: bmap and memmove; the block is there, so nothing changes. */
    method ReadRound(i: nat, at: nat, to: nat, bn: nat, o: nat, ghost c: seq<Byte>) returns (d: seq<Byte>)
      requires Core(S()) && i < |inodes| && Dense(S(), i) && at < to <= inodes[i].size && InBlock(at, to - at, bn, o)
      requires c == Contents(S(), i)
      modifies `blocks, `inodes, `owner, `logged
      ensures S() == old(S()) && d == c[at..to]
    {
      assert Slot(S(), i, FileSlot(bn)) != 0;
      ReadChunk(S(), i, at, to, bn, o);
      var addr;
      ghost var mid;
      addr, mid := Bmap(i, bn);
      BmapKeeps(old(S()), mid, S(), i, bn);
      d := blocks[addr.value][o..o + (to - at)];
    }

    /** One round of readi's loop, at offset `at`; c is the file. */
    method ReadNext(i: nat, at: nat, end: nat, ghost c: seq<Byte>) returns (to: nat, d: seq<Byte>)
      requires Core(S()) && i < |inodes| && Dense(S(), i) && at < end <= inodes[i].size && c == Contents(S(), i)
      modifies `blocks, `inodes, `owner, `logged
      ensures S() == old(S()) && at < to <= end && d == c[at..to]
    {
      var m := if end - at < BSIZE - at % BSIZE then end - at else BSIZE - at % BSIZE;
      to := at + m;
      InOneBlock(at, to);
      d := ReadRound(i, at, to, at / BSIZE, at % BSIZE, c);
    }

    /** readi's loop, to the offset `end`. */
    method ReadBlocks(i: nat, off: nat, end: nat) returns (dst: seq<Byte>)
      requires Core(S()) && i < |inodes| && Dense(S(), i) && off <= end <= inodes[i].size
      modifies `blocks, `inodes, `owner, `logged
      ensures S() == old(S()) && dst == Contents(S(), i)[off..end]
    {
      ghost var c := Contents(S(), i);
      dst := [];
      var at := off;
      while at < end
        invariant off <= at <= end && S() == old(S()) && dst == c[off..at]
        decreases end - at
      {
        ghost var from := at;
        var d;
        at, d := ReadNext(i, at, end, c);
        JoinSlices(c, off, from, at);
        dst := dst + d;
      }
    }

    /** readi on a file: the bytes from off up to off + n or the end of the file. */
    method Readi(i: nat, off: Word, n: Word) returns (r: int, dst: seq<Byte>)
      requires Sound(S()) && i < |inodes|
      modifies `blocks, `inodes, `owner, `logged
      ensures S() == old(S()) && r < 0x8000_0000
      ensures inodes[i].kind != T_DEV && BadRange(inodes[i], off, n) ==> r == -1
      ensures inodes[i].kind != T_DEV && !BadRange(inodes[i], off, n) ==>
                var size := inodes[i].size;
                r == (if off + n > size then size - off else n) && size <= MAXSIZE
                  && dst == Contents(S(), i)[off..off + r]
    {
      dst := [];
      if inodes[i].kind == T_DEV {
        if inodes[i].major < 0 || inodes[i].major >= NDEV || inodes[i].major !in readable {
          return -1, [];
        }
        r :| -0x8000_0000 <= r < 0x8000_0000;
        dst := *;
        return;
      }
      if BadRange(inodes[i], off, n) {
        return -1, [];
      }
      assert Dense(S(), i);
      r := if off + n > inodes[i].size then inodes[i].size - off else n;
      dst := ReadBlocks(i, off, off + r);
    }

    /** One round of writei: bmap, memmove, log_write. */
    method WriteRound(i: nat, bn: nat, o: nat, d: seq<Byte>) returns (ok: bool, ghost mid: State, ghost mapped: State)
      requires Core(S()) && i < |inodes| && bn < MAXFILE && o + |d| <= BSIZE
      modifies `blocks, `inodes, `owner, `logged
      ensures !ok ==> Full(S())
      ensures ok ==> Bmapped(old(S()), mid, mapped, i, bn)
      ensures ok ==> RoundFilled(mapped, S(), i, bn, o, d)
    {
      var addr;
      addr, mid := Bmap(i, bn);
      mapped := S();
      ok := addr.Some?;
      if ok {
        BmapKeeps(old(S()), mid, mapped, i, bn);
        SlotIsPlaced(S(), i, FileSlot(bn));
        blocks := blocks[addr.value := Patch(blocks[addr.value], o, d)];
        logged := logged + {addr.value};
      }
    }

    /** One round of writei, with what it keeps. */
    method WriteNext(i: nat, src: seq<Byte>, off: nat, tot: nat, ghost s0: State, ghost base: nat)
      returns (ok: bool, tot': nat)
      requires Sound(s0) && tot < |src| && WriteSoFar(s0, S(), i, off, tot, src, base)
      modifies `blocks, `inodes, `owner, `logged
      ensures !ok ==> Full(S())
      ensures ok ==> tot < tot' && WriteSoFar(s0, S(), i, off, tot', src, base)
    {
      var m := Chunk(off, |src|, tot);
      tot' := tot + m;
      var bn, o := (off + tot) / BSIZE, (off + tot) % BSIZE;
      NextChunk(off, |src|, tot, bn, o, tot');
      ghost var s, mid, mapped := S(), S(), S();
      ok, mid, mapped := WriteRound(i, bn, o, src[tot..tot']);
      if ok {
        Round(s0, s, mid, mapped, S(), i, off, tot, src, bn, o, tot', base);
      }
    }

    /** writei's last step, with what the whole call has done. */
    method Grow(i: nat, src: seq<Byte>, off: nat, ghost s0: State, ghost base: nat)
      requires Sound(s0) && WriteSoFar(s0, S(), i, off, |src|, src, base)
      modifies `blocks, `inodes, `logged
      ensures Sound(S()) && Files(S()) == Put(Files(s0), i, off, src)
      ensures |logged| <= base + LogBound(off, |src|) && Traced(s0, S())
    {
      ghost var s := S();
      EndedFiles(s0, s, i, off, src);
      EndedCharge(s, i, off, |src|, base);
      EndedTraced(s, i, off + |src|);
      TracedTwice(s0, s, Ended(s, i, off + |src|));
      if off + |src| > inodes[i].size {
        inodes := inodes[i := inodes[i].(size := off + |src|)];
        Iupdate(i);
      }
      assert S() == Ended(s, i, off + |src|);
    }

    /** writei on a file, the range being good: its loop, then the new size. */
    method WriteFile(i: nat, src: seq<Byte>, off: nat) returns (ok: bool)
      requires Sound(S()) && i < |inodes| && off <= inodes[i].size && off + |src| <= MAXSIZE
      modifies `blocks, `inodes, `owner, `logged
      ensures !ok ==> Full(S())
      ensures ok ==> Sound(S()) && Files(S()) == Put(old(Files(S())), i, off, src)
      ensures ok ==> |logged| <= old(|logged|) + LogBound(off, |src|) && Traced(old(S()), S())
    {
      ghost var s0, base := S(), |logged|;
      WroteNothing(s0, i, off, src);
      var tot := 0;
      while tot < |src|
        invariant WriteSoFar(s0, S(), i, off, tot, src, base)
        decreases |src| - tot
      {
        ok, tot := WriteNext(i, src, off, tot, s0, base);
        if !ok {
          return;
        }
      }
      Grow(i, src, off, s0, base);
      ok := true;
    }

    /** writei: -1 for a bad range; otherwise the bytes are spliced into the file, every other file is
        as it was, and no block changes but the logged ones, at most LogBound many. None is balloc's panic: no block
        is free. */
    method Writei(i: nat, src: seq<Byte>, off: Word, n: Word) returns (r: Option<int>)
      requires Sound(S()) && i < |inodes| && n <= |src|
      modifies `blocks, `inodes, `owner, `logged
      ensures r == None ==> Full(S()) && old(inodes[i].kind) != T_DEV
      ensures old(inodes[i].kind) == T_DEV ==> S() == old(S())
      ensures r.Some? ==> r.value < 0x8000_0000
      ensures old(inodes[i].kind) != T_DEV && (BadRange(old(inodes[i]), off, n) || off + n > MAXSIZE) ==>
                r == Some(-1) && S() == old(S())
      ensures old(inodes[i].kind) != T_DEV && !BadRange(old(inodes[i]), off, n) && off + n <= MAXSIZE && r.Some? ==>
                r.value == n && Sound(S()) && Files(S()) == Put(old(Files(S())), i, off, src[..n])
      ensures r.Some? ==> |logged| <= old(|logged|) + LogBound(off, n) && Traced(old(S()), S())
    {
      if inodes[i].kind == T_DEV {
        if inodes[i].major < 0 || inodes[i].major >= NDEV || inodes[i].major !in writable {
          return Some(-1);
        }
        var count: int :| -0x8000_0000 <= count < 0x8000_0000;
        return Some(count);
      }
      if BadRange(inodes[i], off, n) || off + n > MAXSIZE {
        return Some(-1);
      }
      var ok := WriteFile(i, src[..n], off);
      r := if ok then Some(n) else None;
    }

    /** itrunc's first loop, at direct slot k. */
    method FreeDirect(i: nat, k: nat, ghost s0: State)
      requires TruncDirect(s0, S(), i, k) && k < NDIRECT
      modifies `blocks, `inodes, `logged
      ensures TruncDirect(s0, S(), i, k + 1)
    {
      ghost var b := blocks;
      if inodes[i].addrs[k] != 0 {
        NextIsUsed(s0, blocks, i, k, k, INDIRECT + 1, false);
        SameShape(s0, S());
        FreeOne(s0, blocks, i, k, k, INDIRECT + 1, false, k + 1, INDIRECT + 1, false);
        Bfree(inodes[i].addrs[k]);
        inodes := inodes[i := inodes[i].(addrs := inodes[i].addrs[k := 0])];
        MarkedAlike(s0, old(S()), b, Slot(s0, i, k));
      } else {
        FreeNothing(s0, blocks, i, k, k, INDIRECT + 1, false, k + 1, INDIRECT + 1, false);
      }
    }

    /** itrunc's second loop, at entry j of the indirect block. */
    method FreeEntry(i: nat, j: nat, ghost s0: State)
      requires TruncEntries(s0, S(), i, INDIRECT + 1 + j) && j < NINDIRECT && Slot(s0, i, INDIRECT) != 0
      modifies `blocks, `logged
      ensures TruncEntries(s0, S(), i, INDIRECT + 1 + (j + 1))
    {
      ghost var b, k := blocks, INDIRECT + 1 + j;
      SlotIsPlaced(s0, i, INDIRECT);
      var a := GetWord(blocks[inodes[i].addrs[INDIRECT]], j);
      assert a == Slot(s0, i, k);
      if a != 0 {
        NextIsUsed(s0, blocks, i, k, NDIRECT, k, false);
        SameShape(s0, S());
        FreeOne(s0, blocks, i, k, NDIRECT, k, false, NDIRECT, k + 1, false);
        Bfree(a);
        MarkedAlike(s0, old(S()), b, a);
      } else {
        FreeNothing(s0, blocks, i, k, NDIRECT, k, false, NDIRECT, k + 1, false);
      }
    }

    /** itrunc's release of the indirect block itself, once its entries are free. */
    method FreeIndirect(i: nat, ghost s0: State)
      requires TruncEntries(s0, S(), i, SLOTS) && Slot(s0, i, INDIRECT) != 0
      modifies `blocks, `inodes, `logged
      ensures TruncAll(s0, S(), i)
    {
      ghost var b := blocks;
      NextIsUsed(s0, blocks, i, INDIRECT, NDIRECT, SLOTS, false);
      SameShape(s0, S());
      FreeOne(s0, blocks, i, INDIRECT, NDIRECT, SLOTS, false, NDIRECT, SLOTS, true);
      Bfree(inodes[i].addrs[INDIRECT]);
      inodes := inodes[i := inodes[i].(addrs := inodes[i].addrs[INDIRECT := 0])];
      MarkedAlike(s0, old(S()), b, Slot(s0, i, INDIRECT));
    }

    /** itrunc's first loop. */
    method FreeDirects(i: nat, ghost s0: State)
      requires TruncDirect(s0, S(), i, 0)
      modifies `blocks, `inodes, `logged
      ensures TruncDirect(s0, S(), i, NDIRECT)
    {
      var k := 0;
      while k < NDIRECT
        invariant k <= NDIRECT && TruncDirect(s0, S(), i, k)
      {
        FreeDirect(i, k, s0);
        k := k + 1;
      }
    }

    /** itrunc's second loop. */
    method FreeEntries(i: nat, ghost s0: State)
      requires TruncEntries(s0, S(), i, INDIRECT + 1) && Slot(s0, i, INDIRECT) != 0
      modifies `blocks, `logged
      ensures TruncEntries(s0, S(), i, SLOTS)
    {
      var j := 0;
      while j < NINDIRECT
        invariant j <= NINDIRECT && TruncEntries(s0, S(), i, INDIRECT + 1 + j)
      {
        FreeEntry(i, j, s0);
        j := j + 1;
      }
    }

    /** itrunc's release of all blocks. */
    method FreeAll(i: nat, ghost s0: State)
      requires TruncDirect(s0, S(), i, 0)
      modifies `blocks, `inodes, `logged
      ensures TruncAll(s0, S(), i)
    {
      FreeDirects(i, s0);
      if inodes[i].addrs[INDIRECT] != 0 {
        FreeEntries(i, s0);
        FreeIndirect(i, s0);
      } else {
        NoEntries(s0, S(), i);
      }
    }

    /** itrunc: the file becomes empty, exactly its data blocks and its indirect block become free, and
        every other file is as it was. bfree's panic is never met. */
    method Itrunc(i: nat)
      requires Sound(S()) && i < |inodes|
      modifies `blocks, `inodes, `owner, `logged
      ensures Sound(S()) && Emptied(old(S()), S(), i)
      ensures Files(S()) == old(Files(S()))[i := old(Files(S()))[i].(data := [])]
    {
      ghost var s0 := S();
      StartsUnfreed(s0, i);
      FreeAll(i, s0);
      ClearedAll(s0, S(), i);
      inodes := inodes[i := inodes[i].(size := 0)];
      owner := WithoutInode(owner, i);
      ghost var s := S();
      Iupdate(i);
      AllFreed(s0, s, S(), i);
      EmptiedFiles(s0, S(), i);
    }
  }
}
