/** bio.c's routines over the linked list, and iderw over the memory disk. */
module BufferCache {
  import opened Options
  import opened Blocks
  import opened BufferList
  import opened CacheState

  /** order lists every buffer once. */
  ghost predicate Complete(order: seq<nat>, nbuf: nat) {
    && |order| == nbuf && (forall i :: 0 <= i < |order| ==> order[i] < nbuf)
    && forall b: nat :: b < nbuf ==> b in order
  }

  predicate Matches(b: Buf, dev: nat, blockno: nat) {
    b.dev == dev && b.blockno == blockno
  }

  predicate Free(b: Buf) {
    b.refcnt == 0 && !b.dirty
  }

  /** b is the last free buffer in the order. */
  ghost predicate LastFree(order: seq<nat>, bufs: seq<Buf>, b: nat) {
    exists k: nat :: k < |order| && order[k] == b < |bufs| && Free(bufs[b])
                     && forall i: nat :: k < i < |order| && order[i] < |bufs| ==> !Free(bufs[order[i]])
  }

  /** The order after buffer order[k] moves to the front. */
  function MovedToFront(order: seq<nat>, k: nat): seq<nat>
    requires k < |order|
  {
    [order[k]] + Without(order, k)
  }

  ghost function IndexOf(order: seq<nat>, b: nat): (i: nat)
    requires b in order
    ensures i < |order| && order[i] == b
  {
    var i :| 0 <= i < |order| && order[i] == b; i
  }

  lemma MoveKeepsComplete(order: seq<nat>, nbuf: nat, k: nat)
    requires Complete(order, nbuf) && k < nbuf
    ensures Complete(MovedToFront(order, k), nbuf)
  {
    var r := MovedToFront(order, k);
    forall b: nat | b < nbuf ensures b in r {
      var i := IndexOf(order, b);
      assert r[if i < k then i + 1 else if i == k then 0 else i] == b;
    }
  }

  // ----- the order is that of the last releases -----

  predicate NoTwice(order: seq<nat>) {
    forall i, j :: 0 <= i < j < |order| ==> order[i] != order[j]
  }

  /** The order after the buffers rs have been moved to the front, one after the other. */
  ghost function AfterReleases(order: seq<nat>, nbuf: nat, rs: seq<nat>): (r: seq<nat>)
    requires Complete(order, nbuf) && NoTwice(order) && (forall i :: 0 <= i < |rs| ==> rs[i] < nbuf)
    ensures Complete(r, nbuf) && NoTwice(r)
    decreases |rs|
  {
    if rs == [] then order
    else
      var n := |rs| - 1;
      var before := AfterReleases(order, nbuf, rs[..n]);
      MoveKeepsComplete(before, nbuf, IndexOf(before, rs[n]));
      MovedToFront(before, IndexOf(before, rs[n]))
  }

  /** When b was last released; -1 if never. */
  function LastRelease(rs: seq<nat>, b: nat): int
    decreases |rs|
  {
    if rs == [] then -1 else if rs[|rs| - 1] == b then |rs| - 1 else LastRelease(rs[..|rs| - 1], b)
  }

  lemma {:induction false} LastReleaseBound(rs: seq<nat>, b: nat)
    ensures -1 <= LastRelease(rs, b) < |rs|
    decreases |rs|
  {
    if rs != [] {
      LastReleaseBound(rs[..|rs| - 1], b);
    }
  }

  /** The buffer further back was released earlier, or neither was and it stood further back. */
  ghost predicate Earlier(order: seq<nat>, rs: seq<nat>, a: nat, b: nat) {
    || LastRelease(rs, a) > LastRelease(rs, b)
    || (&& LastRelease(rs, a) == LastRelease(rs, b) == -1
        && exists i, j :: 0 <= i < j < |order| && order[i] == a && order[j] == b)
  }

  /** bcache's list is in order of last release, most recent first: the last free buffer in it, which bget
      recycles, is the least recently used. */
  lemma {:induction false} ByRecency(order: seq<nat>, nbuf: nat, rs: seq<nat>, i: nat, j: nat)
    requires Complete(order, nbuf) && NoTwice(order) && (forall n :: 0 <= n < |rs| ==> rs[n] < nbuf) && i < j < nbuf
    ensures var r := AfterReleases(order, nbuf, rs); Earlier(order, rs, r[i], r[j])
    decreases |rs|
  {
    if rs != [] {
      var n := |rs| - 1;
      var before := AfterReleases(order, nbuf, rs[..n]);
      var k, r := IndexOf(before, rs[n]), AfterReleases(order, nbuf, rs);
      var i', j' := if i <= k then i - 1 else i, if j <= k then j - 1 else j;
      assert r[j] == before[j'] && r[j] != rs[n];
      LastReleaseBound(rs[..n], r[j]);
      if i > 0 {
        assert r[i] == before[i'] && r[i] != rs[n];
        ByRecency(order, nbuf, rs[..n], i', j');
      }
    }
  }

  lemma DropIsEnabled(c: Cache, h: nat)
    requires Coherent(c) && h in c.refs && !Holds(c, h)
    ensures Enabled(c, Drop(h))
  {
    assert h in RefsTo(c.refs, c.refs[h].buf);
  }

  class Bcache {
    const nbuf: nat
    /** next and prev of the buffers, and at index nbuf those of bcache.head. */
    var next: seq<nat>
    var prev: seq<nat>
    var bufs: seq<Buf>
    /** memdisk. */
    var disk: seq<Block>
    /** The buffers from bcache.head.next on. */
    ghost var order: seq<nat>
    ghost var refs: map<nat, Ref>
    ghost var latest: seq<Block>
    ghost var touched: set<nat>

    ghost function C(): Cache
      reads this
    {
      Cache(bufs, refs, disk, latest, touched)
    }

    ghost predicate Listed()
      reads this
    {
      |bufs| == nbuf && |next| == |prev| == nbuf + 1 && Linked(next, prev, nbuf, order) && Complete(order, nbuf)
    }

    ghost predicate Valid()
      reads this
    {
      Listed() && Coherent(C())
    }

    /** Putting b behind the head: binit's and brelse's four assignments. */
    method PutInFront(b: nat)
      requires Linked(next, prev, nbuf, order) && b < |next| && b != nbuf && b !in order
      modifies `next, `prev, `order
      ensures |next| == old(|next|) && order == [b] + old(order) && Linked(next, prev, nbuf, order)
    {
      FrontKeepsLinks(next, prev, nbuf, order, b);
      next := next[b := next[nbuf]];
      prev := prev[b := nbuf];
      prev := prev[next[nbuf] := b];
      next := next[nbuf := b];
      order := [b] + order;
    }

    /** binit on zeroed buffers; the last buffer comes first. */
    constructor (n: nat, image: seq<Block>)
      ensures Valid() && Fresh(C()) && nbuf == n && disk == image
      ensures forall i :: 0 <= i < n ==> order[i] == n - 1 - i
    {
      nbuf, disk, latest, refs, touched := n, image, image, map[], {};
      bufs := seq(n, _ => Buf(0, 0, false, false, 0, None, seq(BSIZE, _ => 0)));
      next, prev, order := seq(n + 1, _ => n), seq(n + 1, _ => n), [];
      new;
      assert LinkAt(next, prev, nbuf, order, 0);
      var b := 0;
      while b < n
        invariant b <= n && |next| == n + 1 && Linked(next, prev, nbuf, order) && |order| == b
        invariant forall i :: 0 <= i < b ==> order[i] == b - 1 - i
        invariant disk == image && latest == image && refs == map[] && touched == {} && |bufs| == n
        invariant forall i: nat :: i < n ==> Unused(bufs[i])
      {
        PutInFront(b);
        b := b + 1;
      }
      forall x: nat | x < n ensures x in order {
        assert order[n - 1 - x] == x;
      }
      FreshIsCoherent(C());
    }

    /** bget's first loop: from the most recently used buffer on. */
    method Find(dev: nat, blockno: nat) returns (r: Option<nat>)
      requires Listed()
      ensures r.Some? ==> r.value < nbuf && Matches(bufs[r.value], dev, blockno)
      ensures r == None ==> forall a: nat :: a < nbuf ==> !Matches(bufs[a], dev, blockno)
    {
      ghost var k: nat := 0;
      assert LinkAt(next, prev, nbuf, order, 0);
      var b := next[nbuf];
      while b != nbuf
        invariant k <= nbuf && b == Ring(nbuf, order, k + 1)
        invariant forall i :: 0 <= i < k ==> !Matches(bufs[order[i]], dev, blockno)
        decreases nbuf - k
      {
        if bufs[b].dev == dev && bufs[b].blockno == blockno {
          return Some(b);
        }
        assert LinkAt(next, prev, nbuf, order, k + 1);
        b := next[b];
        k := k + 1;
      }
      assert k == nbuf;
      forall a: nat | a < nbuf ensures !Matches(bufs[a], dev, blockno) {
        assert order[IndexOf(order, a)] == a;
      }
      r := None;
    }

    /** bget's second loop: the least recently used buffer with no references and nothing to install. */
    method FindFree() returns (r: Option<nat>)
      requires Listed()
      ensures r.Some? ==> r.value < nbuf && LastFree(order, bufs, r.value)
      ensures r == None ==> forall a: nat :: a < nbuf ==> !Free(bufs[a])
    {
      ghost var k: nat := nbuf;
      assert LinkAt(next, prev, nbuf, order, nbuf) && Ring(nbuf, order, nbuf + 1) == nbuf;
      var b := prev[nbuf];
      while b != nbuf
        invariant k <= nbuf && b == Ring(nbuf, order, k)
        invariant forall i: nat :: k <= i < nbuf ==> !Free(bufs[order[i]])
        decreases k
      {
        if bufs[b].refcnt == 0 && !bufs[b].dirty {
          assert order[k - 1] == b;
          return Some(b);
        }
        assert k > 0 && LinkAt(next, prev, nbuf, order, k - 1);
        b := prev[b];
        k := k - 1;
      }
      assert k == 0;
      forall a: nat | a < nbuf ensures !Free(bufs[a]) {
        assert order[IndexOf(order, a)] == a;
      }
      r := None;
    }

    /** bget's hit: one more reference. */
    method Reuse(b: nat, h: nat)
      requires Valid() && h !in refs && b < nbuf
      modifies `bufs, `refs
      ensures Valid() && Enabled(old(C()), Hit(h, b)) && C() == Next(old(C()), Hit(h, b))
    {
      ActionKeepsCoherent(C(), Hit(h, b));
      refs := refs[h := Ref(b, bufs[b].dev, bufs[b].blockno)];
      bufs := bufs[b := bufs[b].(refcnt := bufs[b].refcnt + 1)];
      assert C() == Next(old(C()), Hit(h, b));
    }

    /** bget's recycling of a free buffer for a block that no buffer holds. */
    method Take(b: nat, dev: nat, blockno: nat, h: nat)
      requires Valid() && Enabled(C(), Recycle(h, b, dev, blockno))
      modifies `bufs, `refs
      ensures Valid() && C() == Next(old(C()), Recycle(h, b, dev, blockno))
    {
      ActionKeepsCoherent(C(), Recycle(h, b, dev, blockno));
      bufs := bufs[b := bufs[b].(dev := dev, blockno := blockno, valid := false, dirty := false, refcnt := 1)];
      refs := refs[h := Ref(b, dev, blockno)];
      assert C() == Next(old(C()), Recycle(h, b, dev, blockno));
    }

    /** bget up to acquiresleep: the block's buffer, or a recycled one; the panic (None) is met exactly
        when the block is not cached and every buffer is referenced or dirty. */
    method Bget(dev: nat, blockno: nat, h: nat) returns (r: Option<nat>)
      requires Valid() && h !in refs
      modifies `bufs, `refs
      ensures Valid() && order == old(order)
      ensures r == None <==> old(forall a: nat :: a < nbuf ==> !Matches(bufs[a], dev, blockno) && !Free(bufs[a]))
      ensures r == None ==> C() == old(C())
      ensures r.Some? ==> r.value < nbuf && h in refs && refs[h] == Ref(r.value, dev, blockno)
      ensures r.Some? ==>
                var hit := old(Matches(bufs[r.value], dev, blockno));
                var act := if hit then Hit(h, r.value) else Recycle(h, r.value, dev, blockno);
                Enabled(old(C()), act) && C() == Next(old(C()), act)
      ensures r.Some? && !old(Matches(bufs[r.value], dev, blockno)) ==> old(LastFree(order, bufs, r.value))
    {
      r := Find(dev, blockno);
      if r.Some? {
        Reuse(r.value, h);
        return;
      }
      r := FindFree();
      if r.Some? {
        Take(r.value, dev, blockno, h);
      }
    }

    /** acquiresleep on the buffer, once it is free; whatever others did meanwhile, it holds the block
        that bget was called for. */
    method AcquireSleep(b: nat, h: nat)
      requires Valid() && h in refs && refs[h].buf == b && bufs[b].holder == None
      modifies `bufs
      ensures Valid() && order == old(order) && C() == Next(old(C()), Acquire(h))
      ensures Holds(C(), h) && Matches(bufs[b], refs[h].dev, refs[h].blockno)
    {
      ActionKeepsCoherent(C(), Acquire(h));
      bufs := bufs[b := bufs[b].(holder := Some(h))];
      assert C() == Next(old(C()), Acquire(h));
    }

    /** iderw: the panics are its preconditions. */
    method DiskReadWrite(b: nat)
      requires b < |bufs| && bufs[b].holder.Some? && !(bufs[b].valid && !bufs[b].dirty)
      requires bufs[b].dev == ROOTDEV && bufs[b].blockno < |disk|
      modifies `bufs, `disk
      ensures |bufs| == old(|bufs|) && (bufs[b], disk) == Iderw(old(bufs[b]), old(disk))
              && bufs == old(bufs)[b := bufs[b]]
    {
      var p := bufs[b].blockno;
      if bufs[b].dirty {
        bufs := bufs[b := bufs[b].(dirty := false)];
        disk := disk[p := bufs[b].data];
      } else {
        bufs := bufs[b := bufs[b].(data := disk[p])];
      }
      bufs := bufs[b := bufs[b].(valid := true)];
    }

    /** bread once bget has the buffer: it then shows what was last logged or written for the block. */
    method Bread(b: nat, h: nat)
      requires Valid() && Holds(C(), h) && refs[h].buf == b && b !in touched
      requires bufs[b].dev == ROOTDEV && bufs[b].blockno < |disk|
      modifies `bufs, `disk
      ensures Valid() && order == old(order) && Holds(C(), h) && latest == old(latest)
      ensures bufs[b].valid && bufs[b].blockno == old(bufs[b].blockno) < |latest|
              && bufs[b].data == latest[bufs[b].blockno]
      ensures C() == if old(bufs[b].valid) then old(C()) else Next(old(C()), Fill(h))
    {
      if !bufs[b].valid {
        ActionKeepsCoherent(C(), Fill(h));
        FillReadsLatest(C(), h);
        DiskReadWrite(b);
        assert C() == Next(old(C()), Fill(h));
      }
    }

    /** A holder's change of the buffer's data. */
    method SetData(b: nat, data: Block, h: nat)
      requires Valid() && Holds(C(), h) && refs[h].buf == b && bufs[b].valid
      modifies `bufs, `touched
      ensures Valid() && order == old(order) && C() == Next(old(C()), Store(h, data))
    {
      ActionKeepsCoherent(C(), Store(h, data));
      bufs := bufs[b := bufs[b].(data := data)];
      touched := touched + {b};
      assert C() == Next(old(C()), Store(h, data));
    }

    /** log_write's mark on the buffer. */
    method MarkLogged(b: nat, h: nat)
      requires Valid() && Holds(C(), h) && refs[h].buf == b && bufs[b].valid
      modifies `bufs, `latest, `touched
      ensures Valid() && order == old(order) && C() == Next(old(C()), Log(h))
    {
      ActionKeepsCoherent(C(), Log(h));
      latest := latest[bufs[b].blockno := bufs[b].data];
      bufs := bufs[b := bufs[b].(dirty := true)];
      touched := touched - {b};
      assert C() == Next(old(C()), Log(h));
    }

    /** bwrite. */
    method Bwrite(b: nat, h: nat)
      requires Valid() && Holds(C(), h) && refs[h].buf == b && bufs[b].valid
      modifies `bufs, `disk, `latest, `touched
      ensures Valid() && order == old(order) && C() == Next(old(C()), Write(h))
    {
      ActionKeepsCoherent(C(), Write(h));
      bufs := bufs[b := bufs[b].(dirty := true)];
      DiskReadWrite(b);
      latest := latest[bufs[b].blockno := bufs[b].data];
      touched := touched - {b};
      assert C() == Next(old(C()), Write(h));
    }

    /** brelse's releasesleep. */
    method ReleaseSleep(b: nat, h: nat)
      requires Valid() && Holds(C(), h) && refs[h].buf == b && b !in touched
      modifies `bufs
      ensures Valid() && order == old(order) && C() == Next(old(C()), Unlock(h))
    {
      ActionKeepsCoherent(C(), Unlock(h));
      bufs := bufs[b := bufs[b].(holder := None)];
      assert C() == Next(old(C()), Unlock(h));
    }

    /** brelse's relinking: the buffer becomes the most recently used. */
    method MoveToFront(b: nat)
      requires Listed() && b < nbuf
      modifies `next, `prev, `order
      ensures Listed() && order == MovedToFront(old(order), IndexOf(old(order), b))
    {
      ghost var k := IndexOf(order, b);
      UnlinkKeepsLinks(next, prev, nbuf, order, k);
      MoveKeepsComplete(order, nbuf, k);
      var next', prev' := WithoutNext(next, prev, b), WithoutPrev(next, prev, b);
      prev := prev[next[b] := prev[b]];
      next := next[prev'[b] := next[b]];
      order := Without(order, k);
      PutInFront(b);
    }

    /** brelse once the sleep lock is free: the last reference to go moves the buffer to the front. */
    method Brelse(b: nat, h: nat)
      requires Valid() && h in refs && refs[h].buf == b && !Holds(C(), h)
      modifies `bufs, `refs, `next, `prev, `order
      ensures Valid() && Enabled(old(C()), Drop(h)) && C() == Next(old(C()), Drop(h))
      ensures b in old(order)
      ensures order == if bufs[b].refcnt == 0 then MovedToFront(old(order), IndexOf(old(order), b)) else old(order)
      ensures bufs[b].refcnt == 0 ==>
                exists k: nat :: k < nbuf && old(order)[k] == b && order == [b] + old(order)[..k] + old(order)[k + 1..]
    {
      DropIsEnabled(C(), h);
      ActionKeepsCoherent(C(), Drop(h));
      bufs := bufs[b := bufs[b].(refcnt := bufs[b].refcnt - 1)];
      refs := refs - {h};
      assert C() == Next(old(C()), Drop(h));
      if bufs[b].refcnt == 0 {
        MoveToFront(b);
      }
    }
  }
}
