/** How many blocks one writei gives to the log. */
module TransactionSize {
  import opened Blocks
  import opened Dinode
  import opened FileState
  import opened FileContents
  import opened Params

  /** t is s with slot k of inode i filled, if it was empty. */
  ghost predicate SlotFilled(s: State, t: State, i: nat, k: nat) {
    && Core(s) && i < |s.inodes| && |t.inodes| == |s.inodes| && k < SLOTS
    && if Slot(s, i, k) != 0 then t == s
       else exists x: nat ::
         && CanAssign(s, i, k, x) && (k > INDIRECT ==> s.inodes[i].addrs[INDIRECT] < s.sb.size)
         && t == Assigned(s, i, k, x)
  }

  /** bmap for block bn: first the indirect block when it is needed (s to m), then bn itself (m to t). */
  ghost predicate Bmapped(s: State, m: State, t: State, i: nat, bn: nat) {
    && bn < MAXFILE && (if bn < NDIRECT then m == s else SlotFilled(s, m, i, INDIRECT))
    && SlotFilled(m, t, i, FileSlot(bn))
  }

  lemma FilledSlotKept(s: State, t: State, i: nat, k: nat)
    requires SlotFilled(s, t, i, k)
    ensures Kept(s, t, i) && SameBytes(s, t, i, 0, 0) && Slot(t, i, k) != 0
  {
    if Slot(s, i, k) == 0 {
      var x: nat :| && CanAssign(s, i, k, x) && (k > INDIRECT ==> s.inodes[i].addrs[INDIRECT] < s.sb.size)
                    && t == Assigned(s, i, k, x);
      CanAssignFacts(s, i, k, x);
      AssignedKept(s, i, k, x);
      AssignedSameBytes(s, i, k, x);
      AssignedSlot(s, i, k, x, i, k);
    }
  }

  lemma FilledSlotCore(s: State, t: State, i: nat, k: nat)
    requires SlotFilled(s, t, i, k)
    ensures Core(t) && |t.inodes| == |s.inodes| && Slot(t, i, k) != 0
  {
    FilledSlotKept(s, t, i, k);
  }

  /** bmap returns a block, keeps every file's bytes, and changes nothing when there was one. */
  lemma BmapKeeps(s: State, m: State, t: State, i: nat, bn: nat)
    requires Bmapped(s, m, t, i, bn)
    ensures Kept(s, t, i) && SameBytes(s, t, i, 0, 0) && Slot(t, i, FileSlot(bn)) != 0
    ensures Slot(s, i, FileSlot(bn)) != 0 ==> t == s
  {
    FilledSlotKept(m, t, i, FileSlot(bn));
    if bn >= NDIRECT {
      FilledSlotKept(s, m, i, INDIRECT);
      KeptTwice(s, m, t, i);
      SameBytesTwice(s, m, t, i, 0, 0, 0);
    }
  }

  /** The blocks logged, and inode i's indirect block. */
  function Charged(s: State, i: nat): set<nat>
    requires i < |s.inodes|
  {
    s.logged + if Slot(s, i, INDIRECT) != 0 then {Slot(s, i, INDIRECT)} else {}
  }

  lemma {:induction false} CardinalityMono(a: set<nat>, b: set<nat>)
    requires a <= b
    ensures |a| <= |b|
  {
    if a != {} {
      var x :| x in a;
      CardinalityMono(a - {x}, b - {x});
    }
  }

  lemma AtMostTwoMore(a: set<nat>, b: set<nat>, x: nat, y: nat)
    requires b <= a + {x, y}
    ensures |b| <= |a| + 2
  {
    CardinalityMono(b, a + {x} + {y});
  }

  lemma ChargedAssigned(s: State, i: nat, k: nat, x: nat)
    requires CanAssign(s, i, k, x) && (k > INDIRECT ==> s.inodes[i].addrs[INDIRECT] < s.sb.size)
    ensures Charged(Assigned(s, i, k, x), i) <= Charged(s, i) + {BBlock(s.sb, x), x} && x in Assigned(s, i, k, x).logged
    ensures k != INDIRECT ==> Slot(Assigned(s, i, k, x), i, INDIRECT) == Slot(s, i, INDIRECT)
  {
    AssignedSlot(s, i, k, x, i, INDIRECT);
  }

  /** Filling an empty slot costs its free-map block and the new block. */
  lemma FillingCharge(s: State, t: State, i: nat, k: nat)
    requires SlotFilled(s, t, i, k) && Slot(s, i, k) == 0
    ensures |Charged(t, i)| <= |Charged(s, i)| + 2 && Slot(t, i, k) in t.logged
    ensures k != INDIRECT ==> Slot(t, i, INDIRECT) == Slot(s, i, INDIRECT)
  {
    var x: nat :| && CanAssign(s, i, k, x) && (k > INDIRECT ==> s.inodes[i].addrs[INDIRECT] < s.sb.size)
                  && t == Assigned(s, i, k, x);
    CanAssignFacts(s, i, k, x);
    AssignedSlot(s, i, k, x, i, k);
    ChargedAssigned(s, i, k, x);
    AtMostTwoMore(Charged(s, i), Charged(t, i), BBlock(s.sb, x), x);
  }

  /** An upper bound on the charge when `done` blocks are written, `allocs` of them newly allocated:
      the indirect block costs itself and its free-map block. */
  ghost predicate Within(s: State, i: nat, base: nat, done: nat, allocs: nat) {
    && i < |s.inodes| && allocs <= done
    && |Charged(s, i)| <= base + done + allocs + if Slot(s, i, INDIRECT) != 0 then 2 else 0
  }

  lemma StartsWithin(s: State, i: nat)
    requires i < |s.inodes|
    ensures Within(s, i, |s.logged|, 0, 0)
  {
    if Slot(s, i, INDIRECT) != 0 {
      CardinalityMono(Charged(s, i), s.logged + {Slot(s, i, INDIRECT)});
    } else {
      CardinalityMono(Charged(s, i), s.logged);
    }
  }

  /** bmap's charge: two blocks when bn is new, counted with the data block that is written next. */
  lemma BmapCharge(s: State, m: State, t: State, i: nat, bn: nat, base: nat, done: nat, allocs: nat)
    requires Bmapped(s, m, t, i, bn) && Within(s, i, base, done, allocs)
    ensures if Slot(s, i, FileSlot(bn)) != 0 then Within(t, i, base, done, allocs)
            else Within(t, i, base, done + 1, allocs + 1) && Slot(t, i, FileSlot(bn)) in t.logged
  {
    if Slot(s, i, FileSlot(bn)) != 0 {
      BmapKeeps(s, m, t, i, bn);
    } else {
      if bn >= NDIRECT && Slot(s, i, INDIRECT) == 0 {
        FillingCharge(s, m, i, INDIRECT);
        FilledSlotKept(s, m, i, INDIRECT);
      }
      if Slot(m, i, FileSlot(bn)) == 0 {
        FillingCharge(m, t, i, FileSlot(bn));
      }
    }
  }

  lemma FillCharge(s: State, i: nat, bn: nat, o: nat, d: seq<Byte>, base: nat, done: nat, allocs: nat)
    requires Core(s) && i < |s.inodes| && bn < MAXFILE && Slot(s, i, FileSlot(bn)) != 0 && o + |d| <= BSIZE
    requires Within(s, i, base, done, allocs)
    ensures Slot(s, i, FileSlot(bn)) < |s.blocks|
    ensures Within(Filled(s, Slot(s, i, FileSlot(bn)), o, d), i, base,
                   if Slot(s, i, FileSlot(bn)) in s.logged then done else done + 1, allocs)
  {
    var b := Slot(s, i, FileSlot(bn));
    FilledSlot(s, i, bn, o, d, i, INDIRECT);
    CardinalityMono(Charged(Filled(s, b, o, d), i), Charged(s, i) + {b});
    if b in s.logged {
      CardinalityMono(Charged(Filled(s, b, o, d), i), Charged(s, i));
    }
  }

  /** The number of blocks that n bytes at off lie in. */
  function Touched(off: nat, n: nat): nat {
    if n == 0 then 0 else (off + n - 1) / BSIZE - off / BSIZE + 1
  }

  /** Blocks of the n bytes at off that can need allocating: not an unaligned first one. */
  function Allocatable(off: nat, n: nat): nat {
    if n > 0 && off % BSIZE != 0 then Touched(off, n) - 1 else Touched(off, n)
  }

  /** What one writei may log: its blocks, a free-map block for each new one, the indirect block and
      its free-map block, and the inode. */
  function LogBound(off: nat, n: nat): nat {
    Touched(off, n) + Allocatable(off, n) + 3
  }

  /** A further m bytes, which lie in block bn from offset o on, touch one more block. */
  lemma OneMoreBlock(off: nat, tot: nat, m: nat, bn: nat, o: nat)
    requires off + tot == bn * BSIZE + o && 0 < m && o + m <= BSIZE && (tot == 0 || o == 0)
    ensures Touched(off, tot + m) == Touched(off, tot) + 1
    ensures Allocatable(off, tot + m) == Allocatable(off, tot) + if tot == 0 && o != 0 then 0 else 1
  {
    assert (off + tot + m - 1) / BSIZE == bn;
    assert tot == 0 ==> off / BSIZE == bn && off % BSIZE == o;
    assert tot > 0 ==> (off + tot - 1) / BSIZE == bn - 1;
  }

  const CHUNK := (LOGSIZE - 1 - 1 - 2) / 2 * 512

  /** filewrite's chunk: no writei of that many bytes outgrows the log. */
  lemma ChunkFitsLog(off: nat, n: nat)
    requires n <= CHUNK
    ensures LogBound(off, n) <= LOGSIZE
  {
    if n > 0 {
      assert (off + n - 1) / BSIZE <= off / BSIZE + (off % BSIZE + n - 1) / BSIZE;
    }
  }
}
