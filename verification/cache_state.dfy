/** bio.c's buffers as a state machine: every atomic section of bget, bread, bwrite, brelse and
    log_write is one action, and actions of different processes interleave freely. */
module CacheState {
  import opened Options
  import opened Blocks

  const ROOTDEV := 1

  /** holder is the reference whose process has the buffer's sleep lock. */
  datatype Buf = Buf(dev: nat, blockno: nat, valid: bool, dirty: bool, refcnt: nat, holder: Option<nat>, data: Block)

  /** A reference that some bget has handed out or is waiting with: to buffer buf, for that block. */
  datatype Ref = Ref(buf: nat, dev: nat, blockno: nat)

  /** Beside buffers, references and the memory disk: `latest` is what was last logged or written for
      each block, `touched` the buffers changed since then. */
  datatype Cache = Cache(bufs: seq<Buf>, refs: map<nat, Ref>, disk: seq<Block>, latest: seq<Block>, touched: set<nat>)

  function RefsTo(refs: map<nat, Ref>, b: nat): set<nat> {
    set h | h in refs && refs[h].buf == b
  }

  /** Each reference is to a buffer that still holds its block, and refcnt counts them. */
  ghost predicate Counted(c: Cache) {
    && (forall h :: h in c.refs ==>
         && c.refs[h].buf < |c.bufs|
         && c.bufs[c.refs[h].buf].dev == c.refs[h].dev && c.bufs[c.refs[h].buf].blockno == c.refs[h].blockno)
    && (forall b: nat :: b < |c.bufs| ==> c.bufs[b].refcnt == |RefsTo(c.refs, b)|)
    && (forall b: nat :: b < |c.bufs| && c.bufs[b].holder.Some? ==>
         c.bufs[b].holder.value in c.refs && c.refs[c.bufs[b].holder.value].buf == b)
  }

  /** No two buffers hold the same block; buffers never used all say block 0 of device 0. */
  ghost predicate OneEach(c: Cache) {
    forall a: nat, b: nat ::
      a < b < |c.bufs| && c.bufs[a].dev == c.bufs[b].dev && c.bufs[a].blockno == c.bufs[b].blockno ==>
        c.bufs[a].dev == 0 && c.bufs[a].blockno == 0
  }

  /** Some buffer has block n's contents waiting for the log to commit. */
  ghost predicate Pending(c: Cache, n: nat) {
    exists b: nat :: b < |c.bufs| && c.bufs[b].dirty && c.bufs[b].blockno == n
  }

  ghost predicate Current(c: Cache) {
    && |c.latest| == |c.disk|
    && (forall b: nat :: b < |c.bufs| && (c.bufs[b].valid || c.bufs[b].dirty) ==>
         c.bufs[b].valid && c.bufs[b].dev == ROOTDEV && c.bufs[b].blockno < |c.disk|)
    && (forall b: nat :: b < |c.bufs| && c.bufs[b].valid && b !in c.touched ==>
        c.bufs[b].data == c.latest[c.bufs[b].blockno])
    && (forall n: nat :: n < |c.disk| && !Pending(c, n) ==> c.disk[n] == c.latest[n])
    && (forall b :: b in c.touched ==> b < |c.bufs| && c.bufs[b].valid && c.bufs[b].holder.Some?)
  }

  ghost predicate Coherent(c: Cache) {
    Counted(c) && OneEach(c) && Current(c)
  }

  /** The atomic sections: bget's hit and its recycling, acquiresleep, bread's iderw, a holder's store
      into the data, log_write, bwrite, and brelse's two halves. h names the reference. */
  datatype Action =
    | Hit(h: nat, buf: nat)
    | Recycle(h: nat, buf: nat, dev: nat, blockno: nat)
    | Acquire(h: nat)
    | Fill(h: nat)
    | Store(h: nat, data: Block)
    | Log(h: nat)
    | Write(h: nat)
    | Unlock(h: nat)
    | Drop(h: nat)

  /** h's process has its buffer's sleep lock. */
  predicate Holds(c: Cache, h: nat) {
    h in c.refs && c.refs[h].buf < |c.bufs| && c.bufs[c.refs[h].buf].holder == Some(h)
  }

  /** What the code checks before the action, or panics without, or requires of its caller. */
  predicate Enabled(c: Cache, act: Action) {
    match act
    case Hit(h, b) => h !in c.refs && b < |c.bufs|
    case Recycle(h, b, dev, blockno) =>
      && h !in c.refs && b < |c.bufs| && c.bufs[b].refcnt == 0 && !c.bufs[b].dirty
      && forall a: nat :: a < |c.bufs| ==> !(c.bufs[a].dev == dev && c.bufs[a].blockno == blockno)
    case Acquire(h) => h in c.refs && c.refs[h].buf < |c.bufs| && c.bufs[c.refs[h].buf].holder == None
    case Fill(h) =>
      && Holds(c, h)
      && var b := c.bufs[c.refs[h].buf];
         !b.valid && b.dev == ROOTDEV && b.blockno < |c.disk|
    case Store(h, data) => Holds(c, h) && c.bufs[c.refs[h].buf].valid
    case Log(h) => Holds(c, h) && c.bufs[c.refs[h].buf].valid
    case Write(h) => Holds(c, h) && c.bufs[c.refs[h].buf].valid
    case Unlock(h) => Holds(c, h) && c.refs[h].buf !in c.touched
    case Drop(h) => h in c.refs && c.refs[h].buf < |c.bufs| && !Holds(c, h) && c.bufs[c.refs[h].buf].refcnt > 0
  }

  /** iderw: a dirty buffer goes to the disk, one that is not valid is read from it. */
  function Iderw(b: Buf, disk: seq<Block>): (Buf, seq<Block>)
    requires b.blockno < |disk|
  {
    if b.dirty then (b.(dirty := false, valid := true), disk[b.blockno := b.data])
    else (b.(data := disk[b.blockno], valid := true), disk)
  }

  function Next(c: Cache, act: Action): Cache
    requires Enabled(c, act) && |c.latest| == |c.disk|
    requires (act.Log? || act.Write?) ==> c.bufs[c.refs[act.h].buf].blockno < |c.disk|
  {
    match act
    case Hit(h, b) =>
      var buf := c.bufs[b];
      c.(bufs := c.bufs[b := buf.(refcnt := buf.refcnt + 1)], refs := c.refs[h := Ref(b, buf.dev, buf.blockno)])
    case Recycle(h, b, dev, blockno) =>
      c.(bufs := c.bufs[b := Buf(dev, blockno, false, false, 1, c.bufs[b].holder, c.bufs[b].data)],
         refs := c.refs[h := Ref(b, dev, blockno)])
    case Acquire(h) =>
      var b := c.refs[h].buf;
      c.(bufs := c.bufs[b := c.bufs[b].(holder := Some(h))])
    case Fill(h) =>
      var b := c.refs[h].buf;
      var (buf, disk) := Iderw(c.bufs[b], c.disk);
      c.(bufs := c.bufs[b := buf], disk := disk)
    case Store(h, data) =>
      var b := c.refs[h].buf;
      c.(bufs := c.bufs[b := c.bufs[b].(data := data)], touched := c.touched + {b})
    case Log(h) =>
      var b := c.refs[h].buf;
      c.(bufs := c.bufs[b := c.bufs[b].(dirty := true)], latest := c.latest[c.bufs[b].blockno := c.bufs[b].data],
         touched := c.touched - {b})
    case Write(h) =>
      var b := c.refs[h].buf;
      var (buf, disk) := Iderw(c.bufs[b].(dirty := true), c.disk);
      c.(bufs := c.bufs[b := buf], disk := disk, latest := c.latest[buf.blockno := buf.data],
         touched := c.touched - {b})
    case Unlock(h) =>
      var b := c.refs[h].buf;
      c.(bufs := c.bufs[b := c.bufs[b].(holder := None)])
    case Drop(h) =>
      var b := c.refs[h].buf;
      c.(bufs := c.bufs[b := c.bufs[b].(refcnt := c.bufs[b].refcnt - 1)], refs := c.refs - {h})
  }

  // ----- every action keeps the cache coherent -----

  lemma CountWith(refs: map<nat, Ref>, h: nat, r: Ref, b: nat)
    requires h !in refs
    ensures |RefsTo(refs[h := r], b)| == |RefsTo(refs, b)| + if r.buf == b then 1 else 0
  {
    assert RefsTo(refs[h := r], b) == RefsTo(refs, b) + if r.buf == b then {h} else {};
  }

  lemma CountWithout(refs: map<nat, Ref>, h: nat, b: nat)
    requires h in refs
    ensures |RefsTo(refs - {h}, b)| == |RefsTo(refs, b)| - if refs[h].buf == b then 1 else 0
  {
    assert RefsTo(refs - {h}, b) == RefsTo(refs, b) - if refs[h].buf == b then {h} else {};
  }

  lemma NoRefs(c: Cache, b: nat)
    requires Counted(c) && b < |c.bufs| && c.bufs[b].refcnt == 0
    ensures forall h :: h in c.refs ==> c.refs[h].buf != b
    ensures c.bufs[b].holder == None
  {
    assert RefsTo(c.refs, b) == {};
    forall h | h in c.refs ensures c.refs[h].buf != b {
      assert h !in RefsTo(c.refs, b);
    }
  }

  /** A new reference to b, counted in b's refcnt. */
  lemma NewRefCounts(c: Cache, t: Cache, h: nat, r: Ref)
    requires Counted(c) && h !in c.refs && r.buf < |c.bufs| && t.refs == c.refs[h := r]
    requires |t.bufs| == |c.bufs| && forall a: nat :: a < |c.bufs| && a != r.buf ==> t.bufs[a] == c.bufs[a]
    requires t.bufs[r.buf].refcnt == c.bufs[r.buf].refcnt + 1 && t.bufs[r.buf].holder == c.bufs[r.buf].holder
    requires t.bufs[r.buf].dev == r.dev && t.bufs[r.buf].blockno == r.blockno
    requires (r.dev == c.bufs[r.buf].dev && r.blockno == c.bufs[r.buf].blockno) || c.bufs[r.buf].refcnt == 0
    ensures Counted(t)
  {
    if c.bufs[r.buf].refcnt == 0 {
      NoRefs(c, r.buf);
    }
    forall a: nat | a < |c.bufs| ensures t.bufs[a].refcnt == |RefsTo(t.refs, a)| {
      CountWith(c.refs, h, r, a);
    }
  }

  lemma DropCounts(c: Cache, h: nat)
    requires Coherent(c) && Enabled(c, Drop(h))
    ensures Counted(Next(c, Drop(h)))
  {
    var t := Next(c, Drop(h));
    forall a: nat | a < |c.bufs| ensures t.bufs[a].refcnt == |RefsTo(t.refs, a)| {
      CountWithout(c.refs, h, a);
    }
  }

  lemma ActionCounts(c: Cache, act: Action)
    requires Coherent(c) && Enabled(c, act)
    ensures Counted(Next(c, act))
  {
    match act
    case Hit(h, b) => NewRefCounts(c, Next(c, act), h, Ref(b, c.bufs[b].dev, c.bufs[b].blockno));
    case Recycle(h, b, dev, blockno) => NewRefCounts(c, Next(c, act), h, Ref(b, dev, blockno));
    case Drop(h) => DropCounts(c, h);
    case _ =>
  }

  /** Which buffers are dirty and for what block decides what is pending. */
  lemma SamePending(c: Cache, t: Cache, n: nat)
    requires |t.bufs| == |c.bufs|
    requires forall b: nat :: b < |c.bufs| && c.bufs[b].dirty ==>
             t.bufs[b].dirty && t.bufs[b].blockno == c.bufs[b].blockno
    ensures Pending(c, n) ==> Pending(t, n)
  {
    if Pending(c, n) {
      var b: nat :| b < |c.bufs| && c.bufs[b].dirty && c.bufs[b].blockno == n;
      assert t.bufs[b].dirty;
    }
  }

  lemma OtherBlock(c: Cache, a: nat, b: nat)
    requires OneEach(c) && a < |c.bufs| && b < |c.bufs| && a != b && c.bufs[a].dev == c.bufs[b].dev == ROOTDEV
    ensures c.bufs[a].blockno != c.bufs[b].blockno
  {
  }

  /** The block of a buffer that is not dirty is pending nowhere. */
  lemma NotPending(c: Cache, b: nat)
    requires Coherent(c) && b < |c.bufs| && c.bufs[b].dev == ROOTDEV && !c.bufs[b].dirty
    ensures !Pending(c, c.bufs[b].blockno)
  {
    forall a: nat | a < |c.bufs| && c.bufs[a].dirty ensures c.bufs[a].blockno != c.bufs[b].blockno {
      OtherBlock(c, a, b);
    }
  }

  lemma FillIsCurrent(c: Cache, h: nat)
    requires Coherent(c) && Enabled(c, Fill(h))
    ensures Current(Next(c, Fill(h)))
  {
    var t, b := Next(c, Fill(h)), c.refs[h].buf;
    NotPending(c, b);
    forall n: nat | n < |t.disk| && !Pending(t, n) ensures t.disk[n] == t.latest[n] {
      SamePending(c, t, n);
    }
  }

  /** A buffer of another block does not change when this one's block gets new contents. */
  lemma OthersKeepBlock(c: Cache, b: nat)
    requires Coherent(c) && b < |c.bufs| && c.bufs[b].valid
    ensures forall a: nat :: a < |c.bufs| && a != b && c.bufs[a].valid ==> c.bufs[a].blockno != c.bufs[b].blockno
  {
    forall a: nat | a < |c.bufs| && a != b && c.bufs[a].valid ensures c.bufs[a].blockno != c.bufs[b].blockno {
      OtherBlock(c, a, b);
    }
  }

  lemma LogIsCurrent(c: Cache, h: nat)
    requires Coherent(c) && Enabled(c, Log(h))
    ensures Current(Next(c, Log(h)))
  {
    var t, b := Next(c, Log(h)), c.refs[h].buf;
    assert t.bufs[b].dirty;
    forall n: nat | n < |t.disk| && !Pending(t, n) ensures t.disk[n] == t.latest[n] {
      SamePending(c, t, n);
    }
    OthersKeepBlock(c, b);
  }

  /** Writing buffer b out leaves what is pending for other blocks. */
  lemma StillPending(c: Cache, t: Cache, b: nat, n: nat)
    requires b < |c.bufs| == |t.bufs| && n != c.bufs[b].blockno
    requires forall a: nat :: a < |c.bufs| && a != b ==> t.bufs[a] == c.bufs[a]
    ensures Pending(c, n) ==> Pending(t, n)
  {
    if Pending(c, n) {
      var a: nat :| a < |c.bufs| && c.bufs[a].dirty && c.bufs[a].blockno == n;
      assert t.bufs[a].dirty && t.bufs[a].blockno == n;
    }
  }

  lemma WriteIsCurrent(c: Cache, h: nat)
    requires Coherent(c) && Enabled(c, Write(h))
    ensures Current(Next(c, Write(h)))
  {
    var t, b := Next(c, Write(h)), c.refs[h].buf;
    OthersKeepBlock(c, b);
    forall n: nat | n < |t.disk| && !Pending(t, n) ensures t.disk[n] == t.latest[n] {
      if n != c.bufs[b].blockno {
        StillPending(c, t, b, n);
      }
    }
  }

  lemma RecycleIsCurrent(c: Cache, act: Action)
    requires Coherent(c) && Enabled(c, act) && act.Recycle?
    ensures Current(Next(c, act))
  {
    var t := Next(c, act);
    NoRefs(c, act.buf);
    assert act.buf !in c.touched;
    forall n: nat | n < |t.disk| && !Pending(t, n) ensures t.disk[n] == t.latest[n] {
      SamePending(c, t, n);
    }
  }

  lemma QuietIsCurrent(c: Cache, act: Action)
    requires Coherent(c) && Enabled(c, act) && (act.Hit? || act.Acquire? || act.Store? || act.Unlock? || act.Drop?)
    ensures Current(Next(c, act))
  {
    var t := Next(c, act);
    forall n: nat | n < |t.disk| && !Pending(t, n) ensures t.disk[n] == t.latest[n] {
      SamePending(c, t, n);
    }
  }

  /** Any action of any process keeps the cache coherent. */
  lemma ActionKeepsCoherent(c: Cache, act: Action)
    requires Coherent(c) && Enabled(c, act)
    ensures Coherent(Next(c, act))
  {
    ActionCounts(c, act);
    match act {
      case Fill(h) => FillIsCurrent(c, h);
      case Log(h) => LogIsCurrent(c, h);
      case Write(h) => WriteIsCurrent(c, h);
      case Recycle(_, _, _, _) => RecycleIsCurrent(c, act);
      case _ => QuietIsCurrent(c, act);
    }
  }

  // ----- whole runs -----

  predicate Unused(b: Buf) {
    b.dev == 0 && b.blockno == 0 && !b.valid && !b.dirty && b.refcnt == 0 && b.holder == None
  }

  /** binit's buffers: never used, all of block 0 of device 0. */
  ghost predicate Fresh(c: Cache) {
    && c.refs == map[] && c.latest == c.disk && c.touched == {}
    && forall b: nat :: b < |c.bufs| ==> Unused(c.bufs[b])
  }

  /** The actions can happen one after the other from c. */
  ghost predicate Possible(c: Cache, acts: seq<Action>)
    requires Coherent(c)
    decreases |acts|
  {
    acts == [] || (Enabled(c, acts[0]) && (ActionKeepsCoherent(c, acts[0]); Possible(Next(c, acts[0]), acts[1..])))
  }

  ghost function Run(c: Cache, acts: seq<Action>): (r: Cache)
    requires Coherent(c) && Possible(c, acts)
    ensures Coherent(r)
    decreases |acts|
  {
    if acts == [] then c
    else
      ActionKeepsCoherent(c, acts[0]);
      Run(Next(c, acts[0]), acts[1..])
  }

  lemma FreshIsCoherent(c: Cache)
    requires Fresh(c)
    ensures Coherent(c)
  {
    forall b: nat | b < |c.bufs| ensures c.bufs[b].refcnt == |RefsTo(c.refs, b)| {
      assert RefsTo(c.refs, b) == {};
    }
  }

  /** The contents that a log_write or bwrite action puts in block n, if it is of that block. */
  function Put(c: Cache, act: Action, n: nat): Option<Block>
    requires Enabled(c, act)
  {
    if !act.Log? && !act.Write? then None
    else
      var b := c.bufs[c.refs[act.h].buf];
      if b.blockno == n then Some(b.data) else None
  }

  /** What a run last logged or wrote for block n, which held `before` when it began. */
  ghost function LastPut(c: Cache, acts: seq<Action>, n: nat, before: Block): Block
    requires Coherent(c) && Possible(c, acts)
    decreases |acts|
  {
    if acts == [] then before
    else
      ActionKeepsCoherent(c, acts[0]);
      var p := Put(c, acts[0], n);
      LastPut(Next(c, acts[0]), acts[1..], n, if p.Some? then p.value else before)
  }

  lemma PutIsLatest(c: Cache, act: Action, n: nat)
    requires Coherent(c) && Enabled(c, act) && n < |c.disk|
    ensures var t, p := Next(c, act), Put(c, act, n);
            |t.latest| == |c.latest| == |t.disk| && t.latest[n] == if p.Some? then p.value else c.latest[n]
  {
  }

  lemma {:induction false} LatestIsLastPut(c: Cache, acts: seq<Action>, n: nat)
    requires Coherent(c) && Possible(c, acts) && n < |c.disk|
    ensures |Run(c, acts).latest| == |c.latest| && Run(c, acts).latest[n] == LastPut(c, acts, n, c.latest[n])
    decreases |acts|
  {
    if acts != [] {
      ActionKeepsCoherent(c, acts[0]);
      PutIsLatest(c, acts[0], n);
      LatestIsLastPut(Next(c, acts[0]), acts[1..], n);
    }
  }

  lemma {:induction false} DiskSize(c: Cache, acts: seq<Action>)
    requires Coherent(c) && Possible(c, acts)
    ensures |Run(c, acts).disk| == |c.disk|
    decreases |acts|
  {
    if acts != [] {
      ActionKeepsCoherent(c, acts[0]);
      DiskSize(Next(c, acts[0]), acts[1..]);
    }
  }

  /** Cache coherence: after any interleaving from boot, a process that holds a valid buffer it has not
      changed sees what was last logged or written for the block it asked for, and no other buffer
      holds that block. */
  lemma HeldBufferIsLatest(c: Cache, acts: seq<Action>, h: nat)
    requires Fresh(c) && Coherent(c) && Possible(c, acts)
    requires var r := Run(c, acts);
             Holds(r, h) && r.bufs[r.refs[h].buf].valid && r.refs[h].buf !in r.touched
    ensures var r, n := Run(c, acts), Run(c, acts).refs[h].blockno;
            && r.bufs[r.refs[h].buf].blockno == n < |c.disk|
            && r.bufs[r.refs[h].buf].data == LastPut(c, acts, n, c.disk[n])
            && forall a: nat :: a < |r.bufs| && a != r.refs[h].buf ==>
               !(r.bufs[a].dev == ROOTDEV && r.bufs[a].blockno == n)
  {
    var r := Run(c, acts);
    DiskSize(c, acts);
    assert r.bufs[r.refs[h].buf].blockno == r.refs[h].blockno;
    LatestIsLastPut(c, acts, r.refs[h].blockno);
    var b := r.refs[h].buf;
    forall a: nat | a < |r.bufs| && a != b
      ensures !(r.bufs[a].dev == ROOTDEV && r.bufs[a].blockno == r.refs[h].blockno)
    {
      assert if a < b then true else b < a;
    }
  }

  /** bread's own case: a buffer that was not valid gets the latest contents from the disk. */
  lemma FillReadsLatest(c: Cache, h: nat)
    requires Coherent(c) && Enabled(c, Fill(h))
    ensures var t, b := Next(c, Fill(h)), c.refs[h].buf;
            t.bufs[b].valid && t.bufs[b].data == c.latest[c.refs[h].blockno]
  {
    NotPending(c, c.refs[h].buf);
  }

  /** What was logged stays in the cache until it is installed: no recycling touches it. */
  lemma PendingStays(c: Cache, act: Action, b: nat)
    requires Coherent(c) && Enabled(c, act) && b < |c.bufs| && c.bufs[b].dirty
    ensures var t := Next(c, act);
            || (t.bufs[b].dirty && t.bufs[b].blockno == c.bufs[b].blockno)
            || (act.Write? && c.refs[act.h].buf == b && t.disk[c.bufs[b].blockno] == c.bufs[b].data)
  {
  }
}
