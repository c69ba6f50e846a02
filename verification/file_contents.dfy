/** A file as a byte sequence, and what assigning blocks, filling them and saving inodes does to it. */
module FileContents {
  import opened Blocks
  import opened Bitmap
  import opened Dinode
  import opened FileState

  const MAXSIZE := MAXFILE * BSIZE

  /** Byte p of inode i's file, wherever on the disk it is. */
  function ByteAt(s: State, i: nat, p: nat): Byte
    requires i < |s.inodes| && p < MAXSIZE
  {
    var b := Slot(s, i, FileSlot(p / BSIZE));
    if b < |s.blocks| then s.blocks[b][p % BSIZE] else 0
  }

  /** Bytes p to q of inode i's file. */
  function Bytes(s: State, i: nat, p: nat, q: nat): (r: seq<Byte>)
    requires i < |s.inodes| && p <= q <= MAXSIZE
    ensures |r| == q - p && forall k: nat :: k < q - p ==> r[k] == ByteAt(s, i, p + k)
  {
    if p == q then [] else Bytes(s, i, p, q - 1) + [ByteAt(s, i, q - 1)]
  }

  /** The file: its size many bytes. */
  function Contents(s: State, i: nat): (r: seq<Byte>)
    requires i < |s.inodes| && s.inodes[i].size <= MAXSIZE
    ensures |r| == s.inodes[i].size && forall k: nat :: k < |r| ==> r[k] == ByteAt(s, i, k)
  {
    Bytes(s, i, 0, s.inodes[i].size)
  }

  /** d written over c from offset off on, extending c when d ends beyond it. */
  function Splice(c: seq<Byte>, off: nat, d: seq<Byte>): seq<Byte>
    requires off <= |c|
  {
    c[..off] + d + (if off + |d| < |c| then c[off + |d|..] else [])
  }

  lemma SpliceAt(c: seq<Byte>, off: nat, d: seq<Byte>, p: nat)
    requires off <= |c|
    ensures |Splice(c, off, d)| == if off + |d| < |c| then |c| else off + |d|
    ensures p < |Splice(c, off, d)| ==> Splice(c, off, d)[p] == if off <= p < off + |d| then d[p - off] else c[p]
  {
  }

  /** Writing a then b behind it is writing a + b. */
  lemma SpliceTwice(c: seq<Byte>, off: nat, a: seq<Byte>, b: seq<Byte>)
    requires off <= |c|
    ensures off + |a| <= |Splice(c, off, a)| && Splice(Splice(c, off, a), off + |a|, b) == Splice(c, off, a + b)
  {
    var m := Splice(c, off, a);
    var l, r := Splice(m, off + |a|, b), Splice(c, off, a + b);
    SpliceAt(c, off, a, 0);
    SpliceAt(m, off + |a|, b, 0);
    SpliceAt(c, off, a + b, 0);
    forall p: nat | p < |r| ensures l[p] == r[p] {
      SpliceAt(c, off, a, p);
      SpliceAt(m, off + |a|, b, p);
      SpliceAt(c, off, a + b, p);
    }
    assert l == r;
  }

  // ----- steps that lose nothing -----

  /** t has every block number that s has, and differs from s in no inode but i's block numbers and in
      logged blocks only. */
  ghost predicate Kept(s: State, t: State, i: nat) {
    && Core(t) && Shaped(s) && t.sb == s.sb && i < |s.inodes| && Traced(s, t)
    && (forall j: nat :: j < |s.inodes| && j != i ==> t.inodes[j] == s.inodes[j])
    && t.inodes[i].(addrs := s.inodes[i].addrs) == s.inodes[i]
    && (forall j: nat, l: nat {:trigger Slot(t, j, l)} {:trigger Slot(s, j, l)} ::
         j < |s.inodes| && l < SLOTS && Slot(s, j, l) != 0 ==> Slot(t, j, l) == Slot(s, j, l))
    && (forall b: nat :: b < s.sb.bmapstart ==> t.blocks[b] == s.blocks[b])
  }

  /** The bytes of allocated file blocks are the same, but for those of file i in [from, to). */
  ghost predicate SameBytes(s: State, t: State, i: nat, from: nat, to: nat)
    requires |s.inodes| == |t.inodes|
  {
    forall j: nat, p: nat {:trigger ByteAt(t, j, p)} {:trigger ByteAt(s, j, p)} ::
      j < |s.inodes| && p < MAXSIZE && Slot(s, j, FileSlot(p / BSIZE)) != 0 && !(j == i && from <= p < to) ==>
        ByteAt(t, j, p) == ByteAt(s, j, p)
  }

  lemma FileSlots(bn: nat)
    requires bn < MAXFILE
    ensures FileSlot(bn) < SLOTS && FileSlot(bn) != INDIRECT
  {
  }

  lemma AssignedByte(s: State, i: nat, k: nat, x: nat, j: nat, p: nat)
    requires CanAssign(s, i, k, x) && j < |s.inodes| && p < MAXSIZE && Slot(s, j, FileSlot(p / BSIZE)) != 0
    ensures k > INDIRECT ==> s.inodes[i].addrs[INDIRECT] < s.sb.size
    ensures ByteAt(Assigned(s, i, k, x), j, p) == ByteAt(s, j, p)
  {
    var l := FileSlot(p / BSIZE);
    CanAssignFacts(s, i, k, x);
    AssignedSlot(s, i, k, x, j, l);
    SlotIsPlaced(s, j, l);
    BBlockIsMetadata(s.sb, x);
    NamedOnce(s, i, INDIRECT, j, l);
    AssignedBlocks(s, i, k, x, Slot(s, j, l));
  }

  lemma AssignedKept(s: State, i: nat, k: nat, x: nat)
    requires CanAssign(s, i, k, x)
    ensures k > INDIRECT ==> s.inodes[i].addrs[INDIRECT] < s.sb.size
    ensures Kept(s, Assigned(s, i, k, x), i)
  {
    CanAssignFacts(s, i, k, x);
    AssignedCore(s, i, k, x);
    AssignedTraced(s, i, k, x);
    var t := Assigned(s, i, k, x);
    forall j: nat, l: nat | j < |s.inodes| && l < SLOTS && Slot(s, j, l) != 0 ensures Slot(t, j, l) == Slot(s, j, l) {
      AssignedSlot(s, i, k, x, j, l);
    }
    BBlockIsMetadata(s.sb, x);
    forall b: nat | b < s.sb.bmapstart ensures t.blocks[b] == s.blocks[b] {
      if k > INDIRECT {
        SlotIsPlaced(s, i, INDIRECT);
      }
      AssignedBlocks(s, i, k, x, b);
    }
  }

  lemma AssignedSameBytes(s: State, i: nat, k: nat, x: nat)
    requires CanAssign(s, i, k, x)
    ensures k > INDIRECT ==> s.inodes[i].addrs[INDIRECT] < s.sb.size
    ensures SameBytes(s, Assigned(s, i, k, x), i, 0, 0)
  {
    CanAssignFacts(s, i, k, x);
    var t := Assigned(s, i, k, x);
    forall j: nat, p: nat | j < |s.inodes| && p < MAXSIZE && Slot(s, j, FileSlot(p / BSIZE)) != 0
      ensures ByteAt(t, j, p) == ByteAt(s, j, p)
    {
      AssignedByte(s, i, k, x, j, p);
    }
  }

  // ----- filling part of a data block -----

  /** memmove into a block's data. */
  function Patch(b: Block, o: nat, d: seq<Byte>): Block
    requires o + |d| <= BSIZE
  {
    var r: seq<Byte> := b[..o] + d + b[o + |d|..];
    r
  }

  /** writei's memmove and log_write on block b. */
  function Filled(s: State, b: nat, o: nat, d: seq<Byte>): State
    requires b < |s.blocks| && o + |d| <= BSIZE
  {
    s.(blocks := s.blocks[b := Patch(s.blocks[b], o, d)], logged := s.logged + {b})
  }

  lemma FilledSlot(s: State, i: nat, bn: nat, o: nat, d: seq<Byte>, j: nat, l: nat)
    requires Core(s) && i < |s.inodes| && bn < MAXFILE && Slot(s, i, FileSlot(bn)) != 0 && o + |d| <= BSIZE
    requires j < |s.inodes| && l < SLOTS
    ensures Slot(s, i, FileSlot(bn)) < |s.blocks|
    ensures Slot(Filled(s, Slot(s, i, FileSlot(bn)), o, d), j, l) == Slot(s, j, l)
  {
    SlotIsPlaced(s, i, FileSlot(bn));
    NamedOnce(s, j, INDIRECT, i, FileSlot(bn));
  }

  lemma FilledTraced(s: State, b: nat, o: nat, d: seq<Byte>)
    requires s.sb.inodestart <= b < |s.blocks| && o + |d| <= BSIZE
    ensures Traced(s, Filled(s, b, o, d))
  {
  }

  lemma FilledCore(s: State, i: nat, bn: nat, o: nat, d: seq<Byte>, b: nat)
    requires Core(s) && i < |s.inodes| && bn < MAXFILE && Slot(s, i, FileSlot(bn)) == b != 0 && o + |d| <= BSIZE
    ensures DataStart(s.sb) <= b < |s.blocks| && Core(Filled(s, b, o, d))
    ensures forall j: nat, l: nat {:trigger Slot(s, j, l)} :: j < |s.inodes| && l < SLOTS ==>
            Slot(Filled(s, b, o, d), j, l) == Slot(s, j, l)
  {
    SlotIsPlaced(s, i, FileSlot(bn));
    var t := Filled(s, b, o, d);
    forall j: nat, l: nat | j < |s.inodes| && l < SLOTS ensures Slot(t, j, l) == Slot(s, j, l) {
      FilledSlot(s, i, bn, o, d, j, l);
    }
    forall y: nat | y < s.sb.size ensures Used(t, y) == Used(s, y) {
      BBlockIsMetadata(s.sb, y);
      SameUsed(s, t, y);
    }
  }

  lemma FilledKept(s: State, i: nat, bn: nat, o: nat, d: seq<Byte>)
    requires Core(s) && i < |s.inodes| && bn < MAXFILE && Slot(s, i, FileSlot(bn)) != 0 && o + |d| <= BSIZE
    ensures Slot(s, i, FileSlot(bn)) < |s.blocks|
    ensures Kept(s, Filled(s, Slot(s, i, FileSlot(bn)), o, d), i)
  {
    var b := Slot(s, i, FileSlot(bn));
    FilledCore(s, i, bn, o, d, b);
    FilledTraced(s, b, o, d);
  }

  lemma PatchAt(b: Block, o: nat, d: seq<Byte>, q: nat)
    requires o + |d| <= BSIZE && q < BSIZE
    ensures Patch(b, o, d)[q] == if o <= q < o + |d| then d[q - o] else b[q]
  {
  }

  lemma FilledByte(s: State, i: nat, bn: nat, o: nat, d: seq<Byte>, j: nat, bm: nat, q: nat)
    requires Core(s) && i < |s.inodes| && bn < MAXFILE && Slot(s, i, FileSlot(bn)) != 0 && o + |d| <= BSIZE
    requires j < |s.inodes| && bm < MAXFILE && q < BSIZE && Slot(s, j, FileSlot(bm)) != 0
    ensures Slot(s, i, FileSlot(bn)) < |s.blocks| && Slot(s, j, FileSlot(bm)) < |s.blocks|
    ensures Filled(s, Slot(s, i, FileSlot(bn)), o, d).blocks[Slot(s, j, FileSlot(bm))][q] ==
              if j == i && bm == bn && o <= q < o + |d| then d[q - o] else s.blocks[Slot(s, j, FileSlot(bm))][q]
  {
    SlotIsPlaced(s, i, FileSlot(bn));
    SlotIsPlaced(s, j, FileSlot(bm));
    PatchAt(s.blocks[Slot(s, i, FileSlot(bn))], o, d, q);
    NamedOnce(s, j, FileSlot(bm), i, FileSlot(bn));
  }

  /** Offsets [at, at + m) of a file lie in its block bn, at offset o. */
  predicate InBlock(at: nat, m: nat, bn: nat, o: nat) {
    at == bn * BSIZE + o && o + m <= BSIZE && bn < MAXFILE
  }

  lemma FilledByteAt(s: State, i: nat, bn: nat, o: nat, d: seq<Byte>, at: nat, j: nat, p: nat)
    requires Core(s) && i < |s.inodes| && InBlock(at, |d|, bn, o) && Slot(s, i, FileSlot(bn)) != 0
    requires j < |s.inodes| && p < MAXSIZE && Slot(s, j, FileSlot(p / BSIZE)) != 0
    ensures Slot(s, i, FileSlot(bn)) < |s.blocks|
    ensures ByteAt(Filled(s, Slot(s, i, FileSlot(bn)), o, d), j, p) ==
              if j == i && at <= p < at + |d| then d[p - at] else ByteAt(s, j, p)
  {
    FileSlots(p / BSIZE);
    FilledSlot(s, i, bn, o, d, j, FileSlot(p / BSIZE));
    FilledByte(s, i, bn, o, d, j, p / BSIZE, p % BSIZE);
    assert at <= p < at + |d| <==> p / BSIZE == bn && o <= p % BSIZE < o + |d|;
  }

  // ----- writei's progress -----

  /** s has come from s0 by writing src[..tot] at off into file i. */
  ghost predicate Wrote(s0: State, s: State, i: nat, off: nat, tot: nat, src: seq<Byte>) {
    && tot <= |src| && off + |src| <= MAXSIZE
    && Kept(s0, s, i) && SameBytes(s0, s, i, off, off + tot)
    && forall p: nat {:trigger ByteAt(s, i, p)} :: off <= p < off + tot ==>
         Slot(s, i, FileSlot(p / BSIZE)) != 0 && ByteAt(s, i, p) == src[p - off]
  }

  /** A write that ends within the file leaves the in-memory inode alone. */
  ghost predicate InodeKept(s0: State, s: State, i: nat, end: nat)
    requires i < |s0.inodes| && i < |s.inodes|
  {
    end <= s0.inodes[i].size ==> s.inodes[i] == s0.inodes[i]
  }

  lemma KeptTwice(s0: State, s: State, t: State, i: nat)
    requires Kept(s0, s, i) && Kept(s, t, i)
    ensures Kept(s0, t, i)
  {
    TracedTwice(s0, s, t);
    forall j: nat, l: nat | j < |s0.inodes| && l < SLOTS && Slot(s0, j, l) != 0
      ensures Slot(t, j, l) == Slot(s0, j, l)
    {
      assert Slot(s, j, l) == Slot(s0, j, l);
    }
    forall b: nat | b < s0.sb.bmapstart ensures t.blocks[b] == s0.blocks[b] {
      assert s.blocks[b] == s0.blocks[b];
    }
  }

  lemma SameBytesTwice(s0: State, s: State, t: State, i: nat, from: nat, mid: nat, to: nat)
    requires Kept(s0, s, i) && Kept(s, t, i) && from <= mid <= to
    requires SameBytes(s0, s, i, from, mid) && SameBytes(s, t, i, mid, to)
    ensures SameBytes(s0, t, i, from, to)
  {
    forall j: nat, p: nat | j < |s0.inodes| && p < MAXSIZE && Slot(s0, j, FileSlot(p / BSIZE)) != 0
      && !(j == i && from <= p < to)
      ensures ByteAt(t, j, p) == ByteAt(s0, j, p)
    {
      FileSlots(p / BSIZE);
      assert Slot(s, j, FileSlot(p / BSIZE)) == Slot(s0, j, FileSlot(p / BSIZE));
      assert ByteAt(s, j, p) == ByteAt(s0, j, p);
    }
  }

  /** bmap's part of a round keeps what has been written. */
  lemma WroteThenMapped(s0: State, s: State, t: State, i: nat, off: nat, tot: nat, src: seq<Byte>)
    requires Wrote(s0, s, i, off, tot, src) && Kept(s, t, i) && SameBytes(s, t, i, 0, 0)
    ensures Wrote(s0, t, i, off, tot, src)
  {
    KeptTwice(s0, s, t, i);
    assert SameBytes(s, t, i, off + tot, off + tot);
    SameBytesTwice(s0, s, t, i, off, off + tot, off + tot);
    forall p: nat | off <= p < off + tot
      ensures Slot(t, i, FileSlot(p / BSIZE)) != 0 && ByteAt(t, i, p) == src[p - off]
    {
      FileSlots(p / BSIZE);
      assert ByteAt(s, i, p) == src[p - off];
    }
  }

  /** The bytes that one round of writei moves. */
  function Chunk(off: nat, n: nat, tot: nat): nat
    requires tot <= n
  {
    if n - tot < BSIZE - (off + tot) % BSIZE then n - tot else BSIZE - (off + tot) % BSIZE
  }

  /** One block's fill, as a change of file i's bytes. */
  lemma FilledBytes(s: State, i: nat, bn: nat, o: nat, d: seq<Byte>, at: nat)
    requires Core(s) && i < |s.inodes| && InBlock(at, |d|, bn, o) && Slot(s, i, FileSlot(bn)) != 0
    ensures Slot(s, i, FileSlot(bn)) < |s.blocks|
    ensures var t := Filled(s, Slot(s, i, FileSlot(bn)), o, d);
            && SameBytes(s, t, i, at, at + |d|)
            && forall p: nat {:trigger ByteAt(t, i, p)} :: at <= p < at + |d| ==>
               p / BSIZE == bn && ByteAt(t, i, p) == d[p - at]
  {
    SlotIsPlaced(s, i, FileSlot(bn));
    var t := Filled(s, Slot(s, i, FileSlot(bn)), o, d);
    forall j: nat, p: nat | j < |s.inodes| && p < MAXSIZE && Slot(s, j, FileSlot(p / BSIZE)) != 0
      && !(j == i && at <= p < at + |d|)
      ensures ByteAt(t, j, p) == ByteAt(s, j, p)
    {
      FilledByteAt(s, i, bn, o, d, at, j, p);
    }
    forall p: nat | at <= p < at + |d| ensures p / BSIZE == bn && ByteAt(t, i, p) == d[p - at] {
      FilledByteAt(s, i, bn, o, d, at, i, p);
    }
  }

  /** Bytes at to end of file i are those of src, which begins at off. */
  ghost predicate Has(t: State, i: nat, off: nat, src: seq<Byte>, at: nat, end: nat)
    requires i < |t.inodes| && off <= at && end <= off + |src| && end <= MAXSIZE
  {
    forall p: nat {:trigger ByteAt(t, i, p)} :: at <= p < end ==>
      Slot(t, i, FileSlot(p / BSIZE)) != 0 && ByteAt(t, i, p) == src[p - off]
  }

  /** Joining two stretches of written bytes. */
  lemma WroteBoth(s0: State, s: State, t: State, i: nat, off: nat, tot: nat, src: seq<Byte>, tot': nat, at: nat,
                  end: nat)
    requires Wrote(s0, s, i, off, tot, src) && Kept(s, t, i) && tot < tot' <= |src|
    requires at == off + tot && end == off + tot' && SameBytes(s, t, i, at, end)
    requires Has(t, i, off, src, at, end)
    ensures Wrote(s0, t, i, off, tot', src)
  {
    KeptTwice(s0, s, t, i);
    SameBytesTwice(s0, s, t, i, off, at, end);
    forall p: nat | off <= p < end ensures Slot(t, i, FileSlot(p / BSIZE)) != 0 && ByteAt(t, i, p) == src[p - off] {
      FileSlots(p / BSIZE);
      if p < at {
        assert ByteAt(s, i, p) == src[p - off];
      } else {
        assert ByteAt(t, i, p) == src[p - off];
      }
    }
  }

  lemma FilledFile(s: State, i: nat, bn: nat, o: nat, d: seq<Byte>, at: nat, p: nat)
    requires Core(s) && i < |s.inodes| && InBlock(at, |d|, bn, o) && Slot(s, i, FileSlot(bn)) != 0 && at <= p < at + |d|
    ensures Slot(s, i, FileSlot(bn)) < |s.blocks|
    ensures var t := Filled(s, Slot(s, i, FileSlot(bn)), o, d);
            Slot(t, i, FileSlot(p / BSIZE)) != 0 && ByteAt(t, i, p) == d[p - at]
  {
    FilledBytes(s, i, bn, o, d, at);
    FilledSlot(s, i, bn, o, d, i, FileSlot(bn));
    var t := Filled(s, Slot(s, i, FileSlot(bn)), o, d);
    assert ByteAt(t, i, p) == d[p - at];
  }

  lemma RoundBytes(s: State, t: State, i: nat, off: nat, src: seq<Byte>, bn: nat, o: nat, at: nat, end: nat)
    requires Core(s) && i < |s.inodes| && off <= at < end <= off + |src| && InBlock(at, end - at, bn, o)
    requires Slot(s, i, FileSlot(bn)) != 0 && Slot(s, i, FileSlot(bn)) < |s.blocks|
    requires t == Filled(s, Slot(s, i, FileSlot(bn)), o, src[at - off..end - off])
    ensures SameBytes(s, t, i, at, end) && |t.inodes| == |s.inodes| && Has(t, i, off, src, at, end)
  {
    var d := src[at - off..end - off];
    FilledBytes(s, i, bn, o, d, at);
    forall p: nat | at <= p < end ensures Slot(t, i, FileSlot(p / BSIZE)) != 0 && ByteAt(t, i, p) == src[p - off] {
      FilledFile(s, i, bn, o, d, at, p);
      assert d[p - at] == src[p - off];
    }
  }

  /** One round of writei: the bytes of src from tot to tot' go into their block. */
  lemma WroteMore(s0: State, s: State, i: nat, off: nat, tot: nat, src: seq<Byte>, bn: nat, o: nat, tot': nat)
    requires Wrote(s0, s, i, off, tot, src) && tot < tot' <= |src|
    requires InBlock(off + tot, tot' - tot, bn, o) && Slot(s, i, FileSlot(bn)) != 0
    ensures Slot(s, i, FileSlot(bn)) < |s.blocks|
    ensures Wrote(s0, Filled(s, Slot(s, i, FileSlot(bn)), o, src[tot..tot']), i, off, tot', src)
  {
    var d, at, end := src[tot..tot'], off + tot, off + tot';
    FilledKept(s, i, bn, o, d);
    var t := Filled(s, Slot(s, i, FileSlot(bn)), o, d);
    assert at - off == tot && end - off == tot';
    RoundBytes(s, t, i, off, src, bn, o, at, end);
    WroteBoth(s0, s, t, i, off, tot, src, tot', at, end);
  }

  // ----- saving an inode -----

  /** s and t differ in inode sizes, in blocks below the free map and in what is logged only. */
  ghost predicate Agrees(s: State, t: State) {
    && Shaped(s) && Shaped(t) && t.sb == s.sb && t.owner == s.owner
    && (forall j: nat :: j < |s.inodes| ==> t.inodes[j].addrs == s.inodes[j].addrs)
    && forall b: nat :: s.sb.bmapstart <= b < s.sb.size ==> t.blocks[b] == s.blocks[b]
  }

  lemma AgreeingSlot(s: State, t: State, i: nat, k: nat)
    requires Core(s) && Agrees(s, t) && i < |s.inodes| && k < SLOTS
    ensures Slot(t, i, k) == Slot(s, i, k)
  {
    if Slot(s, i, INDIRECT) != 0 {
      SlotIsPlaced(s, i, INDIRECT);
      BBlockIsMetadata(s.sb, 0);
    }
  }

  lemma AgreeingCore(s: State, t: State)
    requires Core(s) && Agrees(s, t)
    ensures Core(t)
  {
    forall j: nat, l: nat | j < |s.inodes| && l < SLOTS ensures Slot(t, j, l) == Slot(s, j, l) {
      AgreeingSlot(s, t, j, l);
    }
    forall y: nat | y < s.sb.size ensures Used(t, y) == Used(s, y) {
      BBlockIsMetadata(s.sb, y);
      SameUsed(s, t, y);
    }
  }

  lemma AgreeingByte(s: State, t: State, i: nat, p: nat)
    requires Core(s) && Agrees(s, t) && i < |s.inodes| && p < MAXSIZE && Slot(s, i, FileSlot(p / BSIZE)) != 0
    ensures ByteAt(t, i, p) == ByteAt(s, i, p)
  {
    AgreeingSlot(s, t, i, FileSlot(p / BSIZE));
    SlotIsPlaced(s, i, FileSlot(p / BSIZE));
    BBlockIsMetadata(s.sb, 0);
  }

  /** iupdate. */
  function Updated(s: State, i: nat): State
    requires Shaped(s) && i < |s.inodes|
  {
    var ib := IBlock(s.sb, i);
    s.(blocks := s.blocks[ib := StoreInode(s.blocks[ib], i % IPB, s.inodes[i])], logged := s.logged + {ib})
  }

  lemma UpdatedSaves(s: State, i: nat, j: nat)
    requires Shaped(s) && i < |s.inodes| && j < |s.inodes| && (j != i ==> Saved(s, j))
    ensures Shaped(Updated(s, i)) && Saved(Updated(s, i), j)
  {
    StoreThenLoad(s.blocks[IBlock(s.sb, i)], i % IPB, s.inodes[i], j % IPB);
    assert i / IPB == j / IPB && i % IPB == j % IPB ==> i == j;
  }

  lemma UpdatedAgrees(s: State, i: nat)
    requires Shaped(s) && i < |s.inodes|
    ensures Agrees(s, Updated(s, i))
  {
  }

  function Resized(s: State, i: nat, size: Word): State
    requires i < |s.inodes|
  {
    s.(inodes := s.inodes[i := s.inodes[i].(size := size)])
  }

  /** writei's last step: a file that has grown gets its new size, in memory and on disk. */
  function Ended(s: State, i: nat, end: Word): State
    requires Shaped(s) && i < |s.inodes|
  {
    if end > s.inodes[i].size then Updated(Resized(s, i, end), i) else s
  }

  lemma EndedAgrees(s: State, i: nat, end: Word)
    requires Shaped(s) && i < |s.inodes|
    ensures Agrees(s, Ended(s, i, end))
  {
    var r := Resized(s, i, end);
    UpdatedAgrees(r, i);
  }

  lemma EndedTraced(s: State, i: nat, end: Word)
    requires Shaped(s) && i < |s.inodes|
    ensures Traced(s, Ended(s, i, end))
  {
  }

  /** A file's bytes up to its size survive in any state that has its blocks and their bytes. */
  lemma ContentsKept(s: State, t: State, j: nat)
    requires |s.inodes| == |t.inodes| && j < |s.inodes| && Dense(s, j) && t.inodes[j].size == s.inodes[j].size
    requires forall p: nat :: p < MAXSIZE && Slot(s, j, FileSlot(p / BSIZE)) != 0 ==> ByteAt(t, j, p) == ByteAt(s, j, p)
    ensures Contents(t, j) == Contents(s, j)
  {
    forall p: nat | p < s.inodes[j].size ensures ByteAt(t, j, p) == ByteAt(s, j, p) {
      assert p / BSIZE * BSIZE < s.inodes[j].size;
      assert Slot(s, j, FileSlot(p / BSIZE)) != 0;
    }
    assert Contents(t, j) == Contents(s, j);
  }

  lemma WrittenBlock(s0: State, s: State, i: nat, off: nat, src: seq<Byte>, bn: nat, p: nat)
    requires Wrote(s0, s, i, off, |src|, src) && off <= p < off + |src| && p / BSIZE == bn
    ensures Slot(s, i, FileSlot(bn)) != 0
  {
    assert ByteAt(s, i, p) == src[p - off];
  }

  /** After a write, every file block up to the new size is allocated. */
  lemma WroteBlock(s0: State, s: State, i: nat, off: nat, src: seq<Byte>, j: nat, bn: nat)
    requires Sound(s0) && Wrote(s0, s, i, off, |src|, src) && off <= s0.inodes[i].size && j < |s0.inodes|
             && bn < MAXFILE
    requires bn * BSIZE < s0.inodes[j].size || (j == i && bn * BSIZE < off + |src|)
    ensures Slot(s, j, FileSlot(bn)) != 0
  {
    FileSlots(bn);
    assert Dense(s0, j);
    if bn * BSIZE < s0.inodes[j].size {
      assert Slot(s0, j, FileSlot(bn)) != 0;
    } else {
      WrittenBlock(s0, s, i, off, src, bn, bn * BSIZE);
    }
  }

  function SizeAfter(s0: State, i: nat, end: nat, j: nat): nat
    requires j < |s0.inodes|
  {
    if j == i && end > s0.inodes[j].size then end else s0.inodes[j].size
  }

  lemma EndedSize(s0: State, s: State, i: nat, off: nat, src: seq<Byte>, j: nat)
    requires Sound(s0) && Wrote(s0, s, i, off, |src|, src) && j < |s0.inodes|
    ensures Ended(s, i, off + |src|).inodes[j].size == SizeAfter(s0, i, off + |src|, j)
    ensures Dense(s0, j) && SizeAfter(s0, i, off + |src|, j) <= MAXSIZE
  {
  }

  lemma WroteHas(s0: State, s: State, i: nat, off: nat, src: seq<Byte>, j: nat)
    requires Sound(s0) && Wrote(s0, s, i, off, |src|, src) && off <= s0.inodes[i].size && j < |s0.inodes|
    ensures HasBlocks(s, j, SizeAfter(s0, i, off + |src|, j))
  {
    EndedSize(s0, s, i, off, src, j);
    forall bn: nat | bn < MAXFILE && bn * BSIZE < SizeAfter(s0, i, off + |src|, j)
      ensures Slot(s, j, FileSlot(bn)) != 0
    {
      WroteBlock(s0, s, i, off, src, j, bn);
    }
  }

  lemma AgreeingHas(s: State, t: State, j: nat, n: nat)
    requires Core(s) && Agrees(s, t) && j < |s.inodes| && HasBlocks(s, j, n)
    ensures HasBlocks(t, j, n)
  {
    forall bn: nat | bn < MAXFILE && bn * BSIZE < n ensures Slot(t, j, FileSlot(bn)) != 0 {
      FileSlots(bn);
      AgreeingSlot(s, t, j, FileSlot(bn));
    }
  }

  lemma WroteDense(s0: State, s: State, i: nat, off: nat, src: seq<Byte>, j: nat)
    requires Sound(s0) && Wrote(s0, s, i, off, |src|, src) && off <= s0.inodes[i].size && j < |s0.inodes|
    ensures Dense(Ended(s, i, off + |src|), j)
  {
    EndedSize(s0, s, i, off, src, j);
    WroteHas(s0, s, i, off, src, j);
    EndedAgrees(s, i, off + |src|);
    AgreeingHas(s, Ended(s, i, off + |src|), j, SizeAfter(s0, i, off + |src|, j));
  }

  lemma WroteSaved(s0: State, s: State, i: nat, off: nat, src: seq<Byte>, j: nat)
    requires Sound(s0) && Wrote(s0, s, i, off, |src|, src) && off <= s0.inodes[i].size && j < |s0.inodes|
    requires InodeKept(s0, s, i, off + |src|)
    ensures Shaped(Ended(s, i, off + |src|)) && Saved(Ended(s, i, off + |src|), j)
  {
    var end := off + |src|;
    assert Saved(s0, j);
    assert s.blocks[IBlock(s.sb, j)] == s0.blocks[IBlock(s.sb, j)];
    if end > s.inodes[i].size {
      UpdatedSaves(Resized(s, i, end), i, j);
    }
  }

  lemma WroteByte(s0: State, s: State, i: nat, off: nat, src: seq<Byte>, j: nat, p: nat)
    requires Sound(s0) && Wrote(s0, s, i, off, |src|, src) && j < |s0.inodes| && p < MAXSIZE
    requires Slot(s0, j, FileSlot(p / BSIZE)) != 0 || (j == i && off <= p < off + |src|)
    ensures Slot(s, j, FileSlot(p / BSIZE)) != 0
    ensures ByteAt(s, j, p) == if j == i && off <= p < off + |src| then src[p - off] else ByteAt(s0, j, p)
  {
    FileSlots(p / BSIZE);
    if j == i && off <= p < off + |src| {
      assert ByteAt(s, i, p) == src[p - off];
    } else {
      assert Slot(s, j, FileSlot(p / BSIZE)) == Slot(s0, j, FileSlot(p / BSIZE));
      assert ByteAt(s, j, p) == ByteAt(s0, j, p);
    }
  }

  lemma EndedSameByte(s: State, i: nat, end: Word, j: nat, p: nat)
    requires Core(s) && i < |s.inodes| && j < |s.inodes| && p < MAXSIZE && Slot(s, j, FileSlot(p / BSIZE)) != 0
    ensures ByteAt(Ended(s, i, end), j, p) == ByteAt(s, j, p)
  {
    EndedAgrees(s, i, end);
    AgreeingByte(s, Ended(s, i, end), j, p);
  }

  lemma EndedByte(s0: State, s: State, t: State, i: nat, off: nat, end: nat, src: seq<Byte>, j: nat, p: nat)
    requires Sound(s0) && Wrote(s0, s, i, off, |src|, src) && end == off + |src| && t == Ended(s, i, end)
    requires j < |s0.inodes| && p < MAXSIZE
    requires Slot(s0, j, FileSlot(p / BSIZE)) != 0 || (j == i && off <= p < end)
    ensures ByteAt(t, j, p) == if j == i && off <= p < end then src[p - off] else ByteAt(s0, j, p)
  {
    WroteByte(s0, s, i, off, src, j, p);
    EndedSameByte(s, i, end, j, p);
  }

  lemma WriteKeepsSound(s0: State, s: State, i: nat, off: nat, src: seq<Byte>)
    requires Sound(s0) && Wrote(s0, s, i, off, |src|, src) && off <= s0.inodes[i].size
    requires InodeKept(s0, s, i, off + |src|)
    ensures Sound(Ended(s, i, off + |src|))
  {
    EndedAgrees(s, i, off + |src|);
    AgreeingCore(s, Ended(s, i, off + |src|));
    var t := Ended(s, i, off + |src|);
    forall j: nat | j < |t.inodes| ensures Dense(t, j) && Saved(t, j) {
      WroteDense(s0, s, i, off, src, j);
      WroteSaved(s0, s, i, off, src, j);
    }
  }

  lemma HasBlock(s: State, i: nat, p: nat)
    requires i < |s.inodes| && Dense(s, i) && p < s.inodes[i].size
    ensures p < MAXSIZE && Slot(s, i, FileSlot(p / BSIZE)) != 0
  {
    assert p / BSIZE * BSIZE < s.inodes[i].size;
  }

  lemma SplicedByte(s0: State, s: State, i: nat, off: nat, src: seq<Byte>, p: nat)
    requires Sound(s0) && Wrote(s0, s, i, off, |src|, src) && off <= s0.inodes[i].size <= MAXSIZE
    requires p < |Splice(Contents(s0, i), off, src)|
    ensures p < MAXSIZE && ByteAt(Ended(s, i, off + |src|), i, p) == Splice(Contents(s0, i), off, src)[p]
  {
    var c, end := Contents(s0, i), off + |src|;
    SpliceAt(c, off, src, p);
    if p < |c| {
      HasBlock(s0, i, p);
    }
    var t, r := Ended(s, i, end), Splice(c, off, src);
    EndedByte(s0, s, t, i, off, end, src, i, p);
    var x := if off <= p < end then src[p - off] else c[p];
    assert ByteAt(t, i, p) == x;
    assert r[p] == x;
  }

  lemma SameAsBytes(t: State, i: nat, r: seq<Byte>)
    requires i < |t.inodes| && t.inodes[i].size == |r| <= MAXSIZE
    requires forall p: nat :: p < |r| ==> ByteAt(t, i, p) == r[p]
    ensures Contents(t, i) == r
  {
  }

  /** writei's whole effect: src spliced into file i, and every other file as it was. */
  lemma WriteSplices(s0: State, s: State, i: nat, off: nat, src: seq<Byte>)
    requires Sound(s0) && Wrote(s0, s, i, off, |src|, src) && off <= s0.inodes[i].size
    requires InodeKept(s0, s, i, off + |src|)
    ensures s0.inodes[i].size <= MAXSIZE
    ensures var t := Ended(s, i, off + |src|);
            Sound(t) && t.inodes[i].size <= MAXSIZE && Contents(t, i) == Splice(Contents(s0, i), off, src)
  {
    WriteKeepsSound(s0, s, i, off, src);
    EndedSize(s0, s, i, off, src, i);
    SpliceAt(Contents(s0, i), off, src, 0);
    SameAsBytes(Ended(s, i, off + |src|), i, Splice(Contents(s0, i), off, src)) by {
      forall p: nat | p < |Splice(Contents(s0, i), off, src)|
        ensures p < MAXSIZE && ByteAt(Ended(s, i, off + |src|), i, p) == Splice(Contents(s0, i), off, src)[p]
      {
        SplicedByte(s0, s, i, off, src, p);
      }
    }
  }

  lemma OtherBytes(s0: State, s: State, t: State, i: nat, off: nat, end: nat, src: seq<Byte>, j: nat)
    requires Sound(s0) && Wrote(s0, s, i, off, |src|, src) && end == off + |src| && t == Ended(s, i, end)
    requires j < |s0.inodes| && j != i
    ensures forall p: nat :: p < MAXSIZE && Slot(s0, j, FileSlot(p / BSIZE)) != 0 ==>
            ByteAt(t, j, p) == ByteAt(s0, j, p)
  {
    forall p: nat | p < MAXSIZE && Slot(s0, j, FileSlot(p / BSIZE)) != 0 ensures ByteAt(t, j, p) == ByteAt(s0, j, p) {
      EndedByte(s0, s, t, i, off, end, src, j, p);
    }
  }

  lemma WriteKeepsOthers(s0: State, s: State, i: nat, off: nat, src: seq<Byte>, j: nat)
    requires Sound(s0) && Wrote(s0, s, i, off, |src|, src) && off <= s0.inodes[i].size && j < |s0.inodes| && j != i
    ensures s0.inodes[j].size <= MAXSIZE
    ensures var t := Ended(s, i, off + |src|);
            t.inodes[j] == s0.inodes[j] && Contents(t, j) == Contents(s0, j)
  {
    var t := Ended(s, i, off + |src|);
    EndedSize(s0, s, i, off, src, j);
    OtherBytes(s0, s, t, i, off, off + |src|, src, j);
    ContentsKept(s0, t, j);
  }

  // ----- discarding a file -----

  function NoAddrs(): Addrs {
    [0, 0, 0, 0, 0, 0, 0, 0, 0, 0, 0, 0, 0]
  }

  function WithoutInode(owner: map<nat, Name>, i: nat): map<nat, Name> {
    map y | y in owner && owner[y].ino != i :: owner[y]
  }

  /** Block y belongs to inode i. */
  predicate Owns(s: State, i: nat, y: nat) {
    y in s.owner && s.owner[y].ino == i
  }

  /** t is s after itrunc(i): the inode is empty, its blocks are free, and nothing else but the free
      map and the saved inode has changed. */
  ghost predicate Emptied(s: State, t: State, i: nat) {
    && Shaped(s) && Shaped(t) && t.sb == s.sb && i < |s.inodes|
    && t.inodes == s.inodes[i := s.inodes[i].(size := 0, addrs := NoAddrs())]
    && t.owner == WithoutInode(s.owner, i)
    && (forall y: nat :: y < s.sb.size ==> (Used(t, y) <==> Used(s, y) && !Owns(s, i, y)))
    && (forall b: nat ::
          b < s.sb.size && b != IBlock(s.sb, i) && (b < s.sb.bmapstart || b >= DataStart(s.sb)) ==>
            t.blocks[b] == s.blocks[b])
    && t.blocks[IBlock(s.sb, i)] == StoreInode(s.blocks[IBlock(s.sb, i)], i % IPB, t.inodes[i])
  }

  lemma EmptiedSlot(s: State, t: State, i: nat, j: nat, l: nat)
    requires Core(s) && Emptied(s, t, i) && j < |s.inodes| && l < SLOTS
    ensures Slot(t, j, l) == if j == i then 0 else Slot(s, j, l)
  {
    if j != i && Slot(s, j, INDIRECT) != 0 {
      SlotIsPlaced(s, j, INDIRECT);
      BBlockIsMetadata(s.sb, 0);
    }
  }

  /** Without inode i's entries the owners name what is left. */
  lemma OthersPlaced(s: State, t: State, i: nat)
    requires Shaped(s) && Placed(s) && Shaped(t) && t.sb == s.sb && |t.blocks| == |s.blocks| && |t.inodes| == |s.inodes|
    requires t.owner == WithoutInode(s.owner, i)
    requires forall j: nat, l: nat {:trigger Slot(t, j, l)} {:trigger Slot(s, j, l)} ::
               j < |s.inodes| && l < SLOTS ==> Slot(t, j, l) == if j == i then 0 else Slot(s, j, l)
    ensures Placed(t)
  {
  }

  lemma EmptiedPlaced(s: State, t: State, i: nat)
    requires Core(s) && Emptied(s, t, i)
    ensures Placed(t)
  {
    forall j: nat, l: nat | j < |s.inodes| && l < SLOTS ensures Slot(t, j, l) == if j == i then 0 else Slot(s, j, l) {
      EmptiedSlot(s, t, i, j, l);
    }
    OthersPlaced(s, t, i);
  }

  lemma EmptiedCore(s: State, t: State, i: nat)
    requires Core(s) && Emptied(s, t, i)
    ensures Core(t)
  {
    EmptiedPlaced(s, t, i);
    forall y: nat | y < t.sb.size ensures Used(t, y) <==> y < DataStart(t.sb) || y in t.owner {
      assert Used(s, y) <==> y < DataStart(s.sb) || y in s.owner;
    }
  }

  lemma EmptiedSaved(s: State, t: State, i: nat, j: nat)
    requires Sound(s) && Emptied(s, t, i) && j < |s.inodes|
    ensures Saved(t, j) && Dense(t, j)
  {
    assert Saved(s, j) && Dense(s, j);
    StoreThenLoad(s.blocks[IBlock(s.sb, i)], i % IPB, t.inodes[i], j % IPB);
    assert i / IPB == j / IPB && i % IPB == j % IPB ==> i == j;
    forall bn: nat | bn < MAXFILE && bn * BSIZE < t.inodes[j].size ensures Slot(t, j, FileSlot(bn)) != 0 {
      FileSlots(bn);
      EmptiedSlot(s, t, i, j, FileSlot(bn));
    }
  }

  /** itrunc keeps everything that holds between operations, and every other file. */
  lemma EmptiedSound(s: State, t: State, i: nat)
    requires Sound(s) && Emptied(s, t, i)
    ensures Sound(t) && Contents(t, i) == []
  {
    EmptiedCore(s, t, i);
    forall j: nat | j < |s.inodes| ensures Saved(t, j) && Dense(t, j) {
      EmptiedSaved(s, t, i, j);
    }
  }

  lemma EmptiedKeepsOthers(s: State, t: State, i: nat, j: nat)
    requires Sound(s) && Emptied(s, t, i) && j < |s.inodes| && j != i
    ensures s.inodes[j].size <= MAXSIZE && t.inodes[j] == s.inodes[j] && Contents(t, j) == Contents(s, j)
  {
    assert Dense(s, j);
    forall p: nat | p < MAXSIZE && Slot(s, j, FileSlot(p / BSIZE)) != 0 ensures ByteAt(t, j, p) == ByteAt(s, j, p) {
      FileSlots(p / BSIZE);
      EmptiedSlot(s, t, i, j, FileSlot(p / BSIZE));
      SlotIsPlaced(s, j, FileSlot(p / BSIZE));
    }
    ContentsKept(s, t, j);
  }
}
