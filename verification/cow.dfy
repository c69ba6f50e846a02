/** kalloc.c and the user half of vm.c with copy-on-write fork, over the state of module Frames. */
module Cow {
  import opened Blocks
  import opened Options
  import opened Frames

  function PgRoundUp(sz: nat): nat {
    (sz + PGSIZE - 1) / PGSIZE * PGSIZE
  }

  /** The number of pages that a process of sz bytes has mapped. */
  function Pages(sz: nat): nat {
    (sz + PGSIZE - 1) / PGSIZE
  }

  // ----- what the routines do to address spaces -----

  /** User mappings are a contiguous prefix: the pages below n and no others. */
  ghost predicate Prefix(ptes: map<Key, Pte>, d: nat, n: nat) {
    forall v: nat :: (d, v) in ptes <==> v < n
  }

  /** t is s without the entries of d at pages lo, ..., hi-1; nothing that is kept changes. */
  ghost predicate Cut(s: State, t: State, d: nat, lo: nat, hi: nat) {
    && t.dirs == s.dirs && t.tables == s.tables
    && (forall k: Key :: k in t.ptes <==> k in s.ptes && !(k.0 == d && lo <= k.1 < hi))
    && (forall k :: k in t.ptes ==> t.ptes[k] == s.ptes[k] && SamePage(s, t, k))
  }

  function TablesWithout(tables: map<Key, nat>, d: nat): map<Key, nat> {
    map k | k in tables && k.0 != d :: tables[k]
  }

  /** t is s without directory d and all that it maps. */
  ghost predicate Gone(s: State, t: State, d: nat) {
    && t.dirs == s.dirs - {d} && t.tables == TablesWithout(s.tables, d)
    && (forall k: Key :: k in t.ptes <==> k in s.ptes && k.0 != d)
    && (forall k :: k in t.ptes ==> SamePage(s, t, k))
  }

  predicate ZeroPage(t: State, k: Key) {
    && k in t.ptes && t.ptes[k].w && t.ptes[k].u
    && t.ptes[k].frame < |t.mem| && t.mem[t.ptes[k].frame] == Filled(0)
  }

  /** t is s with writable zero pages of d added at lo, ..., hi-1; what was there has not changed. */
  ghost predicate Grown(s: State, t: State, d: nat, lo: nat, hi: nat) {
    && t.dirs == s.dirs
    && (forall k: Key :: k in t.ptes <==> k in s.ptes || (k.0 == d && lo <= k.1 < hi))
    && (forall k :: k in s.ptes ==> t.ptes[k] == s.ptes[k] && SamePage(s, t, k))
    && (forall v: nat :: lo <= v < hi ==> ZeroPage(t, (d, v)))
  }

  /** Entry l of t shows what entry k of s shows. */
  predicate SameAcross(s: State, k: Key, t: State, l: Key) {
    && k in s.ptes && l in t.ptes && s.ptes[k].frame < |s.mem| && t.ptes[l].frame < |t.mem|
    && t.mem[t.ptes[l].frame] == s.mem[s.ptes[k].frame] && t.ptes[l].u == s.ptes[k].u
  }

  /** t is s with a directory c that shows the first n pages of d; nothing else shows a difference. */
  ghost predicate Forked(s: State, t: State, d: nat, c: nat, n: nat) {
    && c !in s.dirs && t.dirs == s.dirs + {c} && (forall k :: k in s.ptes ==> k.0 != c)
    && (forall k: Key :: k in t.ptes <==> k in s.ptes || (k.0 == c && k.1 < n))
    && (forall k :: k in s.ptes ==> SamePage(s, t, k))
    && (forall v: nat :: v < n ==> SameAcross(s, (d, v), t, (c, v)))
  }

  /** The first n pages of d and c are the same frames, mapped read-only in both. */
  ghost predicate SharedPages(ptes: map<Key, Pte>, d: nat, c: nat, n: nat) {
    forall v: nat :: v < n ==> (d, v) in ptes && (c, v) in ptes && ptes[(c, v)] == ptes[(d, v)] && !ptes[(d, v)].w
  }

  // ----- when allocuvm runs out of frames -----

  /** Page v is the first of those from page lo on that its page table serves, and d has no such table. */
  predicate NeedsTable(tables: map<Key, nat>, d: nat, lo: nat, v: nat) {
    TableKey((d, v)) !in tables && (v == lo || v % NPTENTRIES == 0)
  }

  /** The frames that mapping pages lo, ..., v-1 of d takes: one a page, and one a missing table. */
  function FramesTaken(tables: map<Key, nat>, d: nat, lo: nat, v: nat): nat {
    if v <= lo then 0
    else FramesTaken(tables, d, lo, v - 1) + if NeedsTable(tables, d, lo, v - 1) then 2 else 1
  }

  /** t has the page table for entry k, and as many frames fewer as a page and that table take. */
  ghost predicate TookFor(s: State, t: State, k: Key) {
    && t.tables.Keys == s.tables.Keys + {TableKey(k)}
    && |t.free| == |s.free| - (if TableKey(k) in s.tables then 1 else 2)
  }

  predicate FreeFramesExist(s: State) {
    s.free != [] ==> s.free[0] < |s.mem|
  }

  /** s with the page table for entry k, if it can be had. */
  function Tabled(s: State, k: Key): State
    requires FreeFramesExist(s)
  {
    if TableKey(k) in s.tables || s.free == [] then s else WithTable(s, TableKey(k))
  }

  lemma MappingTakes(s: State, t: State, u: State, k: Key, p: Pte)
    requires s.free != [] && t.free == s.free[1..] && t.tables == s.tables && FreeFramesExist(t)
    requires TableKey(k) in t.tables || t.free != []
    requires u == WithPte(Tabled(t, k), k, p)
    ensures TookFor(s, u, k)
  {
    assert TableKey(k) in s.tables ==> s.tables.Keys + {TableKey(k)} == s.tables.Keys;
  }

  /** With n free frames, allocuvm takes the last one for a page whose table is still missing. */
  ghost predicate LosesFrame(tables: map<Key, nat>, n: nat, d: nat, lo: nat, hi: nat) {
    exists v: nat :: lo <= v < hi && NeedsTable(tables, d, lo, v) && n == FramesTaken(tables, d, lo, v) + 1
  }

  /** The page tables of d once pages lo, ..., p-1 are mapped. */
  ghost predicate TablesUpTo(old_tables: map<Key, nat>, tables: map<Key, nat>, d: nat, lo: nat, p: nat) {
    forall k: Key :: k in tables <==>
      k in old_tables || (k.0 == d && lo < p && lo / NPTENTRIES <= k.1 <= (p - 1) / NPTENTRIES)
  }

  /** The next page needs a table exactly when it is the first of its table and d had none. */
  lemma NextNeeds(old_tables: map<Key, nat>, tables: map<Key, nat>, d: nat, lo: nat, p: nat)
    requires TablesUpTo(old_tables, tables, d, lo, p) && lo <= p
    ensures TableKey((d, p)) !in tables <==> NeedsTable(old_tables, d, lo, p)
  {
    assert p > lo && p % NPTENTRIES != 0 ==> (p - 1) / NPTENTRIES == p / NPTENTRIES;
    assert p > lo && p % NPTENTRIES == 0 ==> (p - 1) / NPTENTRIES == p / NPTENTRIES - 1;
  }

  lemma NextTables(old_tables: map<Key, nat>, tables: map<Key, nat>, after: map<Key, nat>, d: nat, lo: nat, p: nat)
    requires TablesUpTo(old_tables, tables, d, lo, p) && lo <= p && after.Keys == tables.Keys + {TableKey((d, p))}
    ensures TablesUpTo(old_tables, after, d, lo, p + 1)
  {
    assert p > lo && p % NPTENTRIES != 0 ==> (p - 1) / NPTENTRIES == p / NPTENTRIES;
    assert p > lo && p % NPTENTRIES == 0 ==> (p - 1) / NPTENTRIES == p / NPTENTRIES - 1;
    assert lo / NPTENTRIES <= p / NPTENTRIES;
    forall k: Key
      ensures k in after <==>
              k in old_tables || (k.0 == d && lo < p + 1 && lo / NPTENTRIES <= k.1 <= p / NPTENTRIES)
    {
      assert k in after <==> k in tables || k == TableKey((d, p));
    }
  }

  /** allocuvm's loop, up to page p: what it has mapped and what that took. */
  ghost predicate AllocSoFar(s: State, t: State, d: nat, lo: nat, p: nat) {
    && lo <= p && d in t.dirs && Grown(s, t, d, lo, p)
    && |t.free| == |s.free| - FramesTaken(s.tables, d, lo, p) && TablesUpTo(s.tables, t.tables, d, lo, p)
  }

  lemma AllocNext(s: State, t: State, u: State, d: nat, lo: nat, p: nat)
    requires AllocSoFar(s, t, d, lo, p) && Grown(s, u, d, lo, p + 1) && TookFor(t, u, (d, p))
    ensures AllocSoFar(s, u, d, lo, p + 1)
  {
    NextNeeds(s.tables, t.tables, d, lo, p);
    NextTables(s.tables, t.tables, u.tables, d, lo, p);
  }

  ghost predicate OneMore(l: set<nat>, m: set<nat>) {
    exists f :: f !in l && m == l + {f}
  }

  /** What allocuvm's loop over pages lo, ..., hi-1 makes of s, and of the lost frames l: all pages if
      there are frames enough, otherwise none, and one frame more lost if the last one was taken for a
      page whose table is missing. */
  ghost predicate AllocDone(s: State, t: State, d: nat, lo: nat, hi: nat, l: set<nat>, m: set<nat>, ok: bool) {
    && (ok <==> |s.free| >= FramesTaken(s.tables, d, lo, hi))
    && Grown(s, t, d, lo, if ok then hi else lo)
    && (if LosesFrame(s.tables, |s.free|, d, lo, hi) then !ok && OneMore(l, m) else m == l)
  }

  lemma {:induction false} TakenGrows(tables: map<Key, nat>, d: nat, lo: nat, v: nat, w: nat)
    requires lo <= v <= w
    ensures FramesTaken(tables, d, lo, v) + (w - v) <= FramesTaken(tables, d, lo, w)
  {
    if v < w {
      TakenGrows(tables, d, lo, v, w - 1);
    }
  }

  lemma TakesTwo(tables: map<Key, nat>, d: nat, lo: nat, v: nat, w: nat)
    requires lo <= v < w && NeedsTable(tables, d, lo, v)
    ensures FramesTaken(tables, d, lo, v) + 2 <= FramesTaken(tables, d, lo, w)
  {
    TakenGrows(tables, d, lo, v + 1, w);
    assert FramesTaken(tables, d, lo, v + 1) == FramesTaken(tables, d, lo, v) + 2;
  }

  /** With frames enough for the whole loop none is lost. */
  lemma RunsThrough(tables: map<Key, nat>, n: nat, d: nat, lo: nat, hi: nat)
    requires n >= FramesTaken(tables, d, lo, hi)
    ensures !LosesFrame(tables, n, d, lo, hi)
  {
    forall v: nat | lo <= v < hi && NeedsTable(tables, d, lo, v) ensures n != FramesTaken(tables, d, lo, v) + 1 {
      TakesTwo(tables, d, lo, v, hi);
    }
  }

  lemma AllocEnds(s: State, t: State, d: nat, lo: nat, p: nat, hi: nat, l: set<nat>)
    requires AllocSoFar(s, t, d, lo, p) && p == hi
    ensures AllocDone(s, t, d, lo, hi, l, l, true)
  {
    RunsThrough(s.tables, |s.free|, d, lo, hi);
  }

  /** At no other page is just one frame left. */
  lemma OtherPage(tables: map<Key, nat>, n: nat, d: nat, lo: nat, p: nat, v: nat)
    requires lo <= p && lo <= v && v != p && NeedsTable(tables, d, lo, v)
    requires n == FramesTaken(tables, d, lo, p)
             || (NeedsTable(tables, d, lo, p) && n == FramesTaken(tables, d, lo, p) + 1)
    ensures n != FramesTaken(tables, d, lo, v) + 1
  {
    if v < p {
      TakesTwo(tables, d, lo, v, p);
    } else if n == FramesTaken(tables, d, lo, p) {
      TakenGrows(tables, d, lo, p, v);
    } else {
      TakesTwo(tables, d, lo, p, v);
    }
  }

  /** The loop stops at page p for want of a frame: it loses one there or nowhere. */
  lemma RunsOut(tables: map<Key, nat>, n: nat, d: nat, lo: nat, p: nat, hi: nat)
    requires lo <= p < hi && n >= FramesTaken(tables, d, lo, p)
    requires n == FramesTaken(tables, d, lo, p)
             || (NeedsTable(tables, d, lo, p) && n == FramesTaken(tables, d, lo, p) + 1)
    ensures n < FramesTaken(tables, d, lo, hi)
    ensures LosesFrame(tables, n, d, lo, hi) <==> n == FramesTaken(tables, d, lo, p) + 1
  {
    if n == FramesTaken(tables, d, lo, p) {
      TakenGrows(tables, d, lo, p, hi);
    } else {
      TakesTwo(tables, d, lo, p, hi);
    }
    forall v: nat | lo <= v < hi && v != p && NeedsTable(tables, d, lo, v)
      ensures n != FramesTaken(tables, d, lo, v) + 1
    {
      OtherPage(tables, n, d, lo, p, v);
    }
  }

  /** The page at which the loop stops for want of a frame. */
  lemma AllocStops(s: State, t: State, d: nat, lo: nat, p: nat, hi: nat)
    requires AllocSoFar(s, t, d, lo, p) && p < hi
    requires t.free == [] || (TableKey((d, p)) !in t.tables && |t.free| == 1)
    ensures |s.free| < FramesTaken(s.tables, d, lo, hi)
    ensures LosesFrame(s.tables, |s.free|, d, lo, hi) <==> t.free != []
  {
    NextNeeds(s.tables, t.tables, d, lo, p);
    RunsOut(s.tables, |s.free|, d, lo, p, hi);
  }

  /** The losing case at its smallest: one free frame, and the first page of a space without tables. */
  lemma LastFrameLost(tables: map<Key, nat>, d: nat)
    requires TableKey((d, 0)) !in tables
    ensures LosesFrame(tables, 1, d, 0, Pages(1))
  {
    assert NeedsTable(tables, d, 0, 0) && 1 == FramesTaken(tables, d, 0, 0) + 1;
  }

  datatype AllocResult = Mapped | NoFrame | NoTable(frame: nat)

  lemma TabledKeepsInv(s: State, leaked: set<nat>, k: Key)
    requires Inv(s, leaked) && k.0 in s.dirs
    ensures FreeFramesExist(s)
    ensures Inv(Tabled(s, k), leaked) && AllSame(s, Tabled(s, k))
    ensures Tabled(s, k).ptes == s.ptes && Tabled(s, k).dirs == s.dirs
    ensures TableKey(k) in s.tables || s.free != [] ==> TableKey(k) in Tabled(s, k).tables
  {
    if TableKey(k) !in s.tables && s.free != [] {
      WithTableKeepsInv(s, leaked, TableKey(k));
    }
  }

  // ----- faults -----

  predicate CanShare(s: State, d: nat, v: nat) {
    (d, v) in s.ptes && s.ptes[(d, v)].frame < |s.cnt| == |s.mem|
  }

  /** s after copyuvm_cow at entry k, when it succeeds. */
  function Faulted(s: State, k: Key): State
    requires CanShare(s, k.0, k.1) && FreeFramesExist(s)
  {
    if s.cnt[s.ptes[k].frame] == 1 then WithPte(s, k, s.ptes[k].(w := true))
    else if s.free == [] then s
    else Copied(Take(s), k, s.free[0])
  }

  lemma AllSameTrans(s: State, t: State, u: State)
    requires AllSame(s, t) && AllSame(t, u)
    ensures AllSame(s, u)
  {
    forall k | k in s.ptes ensures SamePage(s, u, k) {
      assert SamePage(s, t, k) && SamePage(t, u, k);
    }
  }

  lemma FaultedCopyKeepsInv(s: State, leaked: set<nat>, k: Key)
    requires Inv(s, leaked) && CanShare(s, k.0, k.1) && s.cnt[s.ptes[k].frame] != 1 && s.free != []
    ensures s.free[0] < |s.mem| && Inv(Copied(Take(s), k, s.free[0]), leaked)
            && AllSame(s, Copied(Take(s), k, s.free[0]))
  {
    TakeKeepsInv(s, leaked);
    CopyKeepsInv(Take(s), leaked, k, s.free[0]);
    CopyShowsSame(Take(s), leaked, k, s.free[0]);
    AllSameTrans(s, Take(s), Copied(Take(s), k, s.free[0]));
  }

  lemma FaultedKeepsInv(s: State, leaked: set<nat>, k: Key)
    requires Inv(s, leaked) && k in s.ptes
    ensures CanShare(s, k.0, k.1) && FreeFramesExist(s)
    ensures Inv(Faulted(s, k), leaked) && AllSame(s, Faulted(s, k))
  {
    MappedIsCounted(s, leaked, k);
    if s.cnt[s.ptes[k].frame] == 1 {
      FlagKeepsInv(s, leaked, k, true);
    } else if s.free != [] {
      FaultedCopyKeepsInv(s, leaked, k);
    }
  }

  /** Entries are nobody's frames. */
  lemma EntriesLost(s: State, t: State)
    requires |s.cnt| == |s.mem| && t == s.(ptes := t.ptes)
    ensures Lost(t) == Lost(s)
  {
    forall f ensures Loose(t, f) <==> Loose(s, f) {
    }
  }

  lemma FaultedIsWritable(s: State, t: State, leaked: set<nat>, k: Key)
    requires Inv(s, leaked) && k in s.ptes && CanShare(s, k.0, k.1) && FreeFramesExist(s)
    requires t == Faulted(s, k) && (s.free != [] || s.cnt[s.ptes[k].frame] == 1)
    ensures Inv(t, leaked) && AllSame(s, t) && t.dirs == s.dirs && k in t.ptes && t.ptes[k].w
    ensures t.tables == s.tables && Lost(t) == Lost(s)
  {
    FaultedKeepsInv(s, leaked, k);
    if s.cnt[s.ptes[k].frame] == 1 {
      EntriesLost(s, t);
    } else {
      CopiedLost(s, leaked, k);
    }
  }

  /** t is s with one byte stored at entry k; no other page, of this space or another, shows a change. */
  ghost predicate Stored(s: State, t: State, k: Key, offset: nat, b: Byte) {
    && t.dirs == s.dirs && t.ptes.Keys == s.ptes.Keys && k in s.ptes && offset < PGSIZE
    && (forall l :: l in s.ptes && l != k ==> SamePage(s, t, l))
    && s.ptes[k].frame < |s.mem| && t.ptes[k].frame < |t.mem|
    && t.mem[t.ptes[k].frame] == s.mem[s.ptes[k].frame][offset := b] && t.ptes[k].u == s.ptes[k].u
  }

  lemma StoredAfter(s: State, t: State, u: State, k: Key, offset: nat, b: Byte)
    requires AllSame(s, t) && t.dirs == s.dirs && Stored(t, u, k, offset, b)
    ensures Stored(s, u, k, offset, b)
  {
    assert SamePage(s, t, k);
    forall l | l in s.ptes && l != k ensures SamePage(s, u, l) {
      assert SamePage(s, t, l) && SamePage(t, u, l);
    }
  }

  /** copyout writes through the kernel's mapping, whatever PTE_W says: the write stays private to
      its address space exactly when the frame is counted once. */
  lemma KernelWriteIsPrivateIff(s: State, leaked: set<nat>, k: Key, p: Page)
    requires Inv(s, leaked) && k in s.ptes && s.ptes[k].frame < |s.mem| && p != s.mem[s.ptes[k].frame]
    ensures (forall l :: l in s.ptes && l != k ==> SamePage(s, WithPage(s, s.ptes[k].frame, p), l))
            <==> s.cnt[s.ptes[k].frame] == 1
  {
    var f := s.ptes[k].frame;
    MappedIsCounted(s, leaked, k);
    if s.cnt[f] == 1 {
      forall l | l in s.ptes && l != k ensures SamePage(s, WithPage(s, f, p), l) {
        assert EntryOk(s, l);
        if s.ptes[l].frame == f {
          SoleName(s, leaked, k, l);
        }
      }
    } else {
      var others := Refs(s.ptes, f) - {k};
      assert |Refs(s.ptes, f)| <= |others| + 1;
      var l :| l in others;
      assert !SamePage(s, WithPage(s, f, p), l);
    }
  }

  /** copyuvm_cow where the page table exists but the entry is zero: it takes frame 0 for the old
      page, and since the flags it keeps lack PTE_P the new entry is not present either. */
  function FaultedAbsent(s: State): State
    requires s.free != [] && s.free[0] < |s.mem| == |s.cnt|
  {
    Counted(WithPage(Counted(Take(s), s.free[0], 1), s.free[0], s.mem[0]), 0, -1)
  }

  /** A fault at entry k finds the memory it may need: copyuvm_cow does not return null. */
  predicate FaultSucceeds(s: State, k: Key) {
    s.free != [] || (k in s.ptes && s.ptes[k].frame < |s.cnt| && s.cnt[s.ptes[k].frame] == 1)
  }

  /** A store at entry k takes a fault that finds no memory for the copy it needs. */
  predicate StorePanics(s: State, k: Key) {
    k in s.ptes && !s.ptes[k].w && !FaultSucceeds(s, k)
  }

  /** copyuvm_cow at an entry whose page table exists, present or not, when it does not return null. */
  function FaultedAnywhere(s: State, k: Key): State
    requires FreeFramesExist(s) && FaultSucceeds(s, k) && |s.mem| == |s.cnt|
    requires k in s.ptes ==> CanShare(s, k.0, k.1)
  {
    if k in s.ptes then Faulted(s, k) else FaultedAbsent(s)
  }

  /** The page-fault branch of trap(), unless it panics: without a page table the process is only
      marked as killed. */
  function Trapped(s: State, k: Key): State
    requires FreeFramesExist(s) && |s.mem| == |s.cnt| && (TableKey(k) in s.tables ==> FaultSucceeds(s, k))
    requires k in s.ptes ==> CanShare(s, k.0, k.1)
  {
    if TableKey(k) in s.tables then FaultedAnywhere(s, k) else s
  }

  /** Frame 0 lies below the kernel's end: no entry names it, and allocuvm has not lost it. */
  lemma FrameZeroUncounted(s: State, leaked: set<nat>)
    requires Inv(s, leaked) && s.end > 0 && 0 !in leaked && 0 < |s.cnt|
    ensures s.cnt[0] == 0
  {
    forall k | k in s.ptes ensures s.ptes[k].frame != 0 {
      assert EntryOk(s, k);
    }
    assert Refs(s.ptes, 0) == {};
  }

  lemma NegativeCountBreaksInv(s: State, f: nat)
    requires f < |s.cnt| && s.cnt[f] < 0
    ensures forall l :: !Inv(s, l)
  {
  }

  lemma AbsentFaultBreaksInv(s: State, leaked: set<nat>)
    requires Inv(s, leaked) && s.end > 0 && 0 !in leaked && s.free != []
    ensures s.free[0] < |s.mem| == |s.cnt| && forall l :: !Inv(FaultedAbsent(s), l)
  {
    assert s.InRange(s.free[0]);
    FrameZeroUncounted(s, leaked);
    NegativeCountBreaksInv(FaultedAbsent(s), 0);
  }

  /** trap() tests the pointer to the entry, not PTE_P. A fault that does not panic leaves the frame
      accounting exact if and only if the page is present or has no page table. */
  lemma FaultKeepsAccountingIff(s: State, leaked: set<nat>, k: Key)
    requires Inv(s, leaked) && s.end > 0 && 0 !in leaked && (TableKey(k) in s.tables ==> FaultSucceeds(s, k))
    ensures FreeFramesExist(s) && (k in s.ptes ==> CanShare(s, k.0, k.1))
    ensures (exists l :: Inv(Trapped(s, k), l)) <==> k in s.ptes || TableKey(k) !in s.tables
  {
    if s.free != [] {
      TakeKeepsInv(s, leaked);
    }
    if k in s.ptes {
      FaultedKeepsInv(s, leaked, k);
      assert EntryOk(s, k);
      assert Inv(Trapped(s, k), leaked);
    } else if TableKey(k) !in s.tables {
      assert Inv(Trapped(s, k), leaked);
    } else {
      AbsentFaultBreaksInv(s, leaked);
    }
  }

  /** The failing case at its smallest: frame 1 is a page directory, frame 2 its one page table, frame 3
      is free, and a fault at page 0 takes frame 0's count below zero. */
  lemma AbsentFaultExample(p: Page)
    ensures var s := State(1, [p, p, p, p], [0, 0, 0, 0], [3], 1, {1}, map[(1, 0) := 2], map[]);
            && Inv(s, {}) && Trapped(s, (1, 0)).cnt == [-1, 0, 0, 1]
            && forall l :: !Inv(Trapped(s, (1, 0)), l)
  {
    var s := State(1, [p, p, p, p], [0, 0, 0, 0], [3], 1, {1}, map[(1, 0) := 2], map[]);
    forall f | 0 <= f < 4 ensures RefCount(s.ptes, f) == 0 {
      assert Refs(s.ptes, f) == {};
    }
    assert TablesOk(s) by {
      assert forall k: Key :: k in s.tables ==> k == (1, 0);
    }
    assert Inv(s, {});
    AbsentFaultBreaksInv(s, {});
  }

  /** What a fault at entry k relies on. */
  ghost predicate MayFault(s: State, k: Key) {
    FreeFramesExist(s) && |s.mem| == |s.cnt| && (k in s.ptes ==> CanShare(s, k.0, k.1))
  }

  lemma AnyEntryMayFault(s: State, leaked: set<nat>, k: Key)
    requires Inv(s, leaked)
    ensures MayFault(s, k)
  {
    if s.free != [] {
      TakeKeepsInv(s, leaked);
    }
    if k in s.ptes {
      MappedIsCounted(s, leaked, k);
    }
  }

  lemma NoTableOrEntry(s: State, leaked: set<nat>, k: Key)
    requires Inv(s, leaked)
    ensures TableKey(k) in s.tables || k !in s.ptes
  {
    assert k in s.ptes ==> EntryOk(s, k);
  }

  lemma UserAddress(ptes: map<Key, Pte>, d: nat, va: nat, n: nat)
    requires Prefix(ptes, d, n) && (d, va / PGSIZE) in ptes && n * PGSIZE <= KERNBASE
    ensures va < KERNBASE
  {
  }

  datatype FaultResult = Resumed | Killed | Panicked

  // ----- the frames of a new address space -----

  const PHYSTOP := 0xE00_0000
  const DEVSPACE := 0xFE00_0000

  /** The directory indices, 4 MB each, that kmap covers: PHYSTOP's worth from KERNBASE, and DEVSPACE up. */
  predicate KernelIndex(i: nat) {
    KERNBASE <= i * (NPTENTRIES * PGSIZE) < KERNBASE + PHYSTOP || DEVSPACE <= i * (NPTENTRIES * PGSIZE) < 0x1_0000_0000
  }

  /** How many of the directory indices below n kmap covers. */
  function KernelTables(n: nat): (r: nat)
    ensures n <= NPDENTRIES ==>
              r == if n <= 512 then 0 else if n <= 568 then n - 512 else if n <= 1016 then 56 else n - 960
  {
    if n == 0 then 0 else KernelTables(n - 1) + if KernelIndex(n - 1) then 1 else 0
  }

  /** A page directory, and a page table for each directory index in kmap: 65 frames. */
  const SETUP_FRAMES: nat := 1 + KernelTables(NPDENTRIES)

  /** The page tables that n user pages from page 0 on need. */
  function UserTables(n: nat): nat {
    (n + NPTENTRIES - 1) / NPTENTRIES
  }

  /** Page tables are listed at directory indices. */
  ghost predicate Indexed(tables: map<Key, nat>) {
    forall k :: k in tables ==> k.1 < NPDENTRIES
  }

  /** setupkvm's loop, up to directory index n of the new directory d. */
  ghost predicate KernelMapped(s: State, t: State, d: nat, n: nat) {
    && t.cnt == s.cnt && t.end == s.end && |t.mem| == |s.mem| && t.dirs == s.dirs && t.ptes == s.ptes
    && (forall k: Key :: k in t.tables <==> k in s.tables || (k.0 == d && k.1 < n && KernelIndex(k.1)))
    && (forall k :: k in s.tables ==> t.tables[k] == s.tables[k])
    && |t.free| == |s.free| - KernelTables(n)
  }

  lemma KernelNext(s: State, t: State, d: nat, i: nat)
    requires KernelMapped(s, t, d, i) && (KernelIndex(i) ==> t.free != [] && t.free[0] < |t.mem|) && (d, i) !in s.tables
    ensures KernelMapped(s, if KernelIndex(i) then WithTable(t, (d, i)) else t, d, i + 1)
  {
  }

  lemma MoreTablesNeeded(n: nat)
    requires n < NPDENTRIES && KernelIndex(n)
    ensures KernelTables(n) < KernelTables(NPDENTRIES)
  {
    assert KernelTables(n + 1) == KernelTables(n) + 1;
  }

  /** A setupkvm that runs out of frames has lost all there were. */
  lemma SetupLoses(s: State, t: State, leaked: set<nat>)
    requires Inv(s, leaked) && t.cnt == s.cnt && t.end == s.end && |t.mem| == |s.mem| && t.dirs == s.dirs
    requires t.tables == s.tables && t.free == []
    ensures Lost(t) == Lost(s) + Listed(s.free)
  {
    forall f ensures Loose(t, f) <==> Loose(s, f) || f in s.free {
      assert f in s.tables.Values ==> exists k :: k in s.tables && s.tables[k] == f;
    }
  }

  /** copyuvm's loop, up to page p of the new directory c: the frames taken since s. */
  ghost predicate CopySoFar(s: State, t: State, c: nat, p: nat) {
    && |t.free| == |s.free| - SETUP_FRAMES - UserTables(p)
    && forall i: nat :: i < 512 ==> ((c, i) in t.tables <==> i < UserTables(p))
  }

  lemma CopyStarts(s: State, t: State, u: State, c: nat)
    requires |t.free| == |s.free| - 1 && KernelMapped(t, u, c, NPDENTRIES) && forall i: nat :: (c, i) !in t.tables
    ensures CopySoFar(s, u, c, 0)
  {
  }

  /** The first free frame, zeroed, as an empty directory. */
  function NewDir(s: State): State
    requires s.free != [] && s.free[0] < |s.mem|
  {
    WithPage(Take(s), s.free[0], Filled(0)).(dirs := s.dirs + {s.free[0]})
  }

  function ForgetDir(s: State, d: nat): State {
    s.(dirs := s.dirs - {d}, tables := TablesWithout(s.tables, d))
  }

  /** A new directory that is dropped again leaves the tables that there were. */
  lemma NewTablesDropped(s: State, t: State, leaked: set<nat>, d: nat, n: nat)
    requires Inv(s, leaked) && s.free != [] && s.free[0] == d && d < |s.mem| && KernelMapped(NewDir(s), t, d, n)
    ensures ForgetDir(t, d).tables == s.tables && ForgetDir(t, d).dirs == s.dirs
  {
    TakeKeepsInv(s, leaked);
    assert forall k :: k in s.tables ==> k.0 in s.dirs;
  }

  /** copyuvm's loop, up to page p: what it has shared and what that took. */
  ghost predicate Copying(s: State, t: State, d: nat, c: nat, p: nat) {
    Forked(s, t, d, c, p) && SharedPages(t.ptes, d, c, p) && CopySoFar(s, t, c, p)
  }

  /** The copy of page p finds no frame for the page table that it needs. */
  predicate CopyFails(s: State, p: nat) {
    p % NPTENTRIES == 0 && |s.free| == SETUP_FRAMES + UserTables(p)
  }

  lemma NextUserTable(p: nat)
    ensures UserTables(p + 1) == if p % NPTENTRIES == 0 then UserTables(p) + 1 else UserTables(p)
    ensures p / NPTENTRIES < UserTables(p) <==> p % NPTENTRIES != 0
    ensures p % NPTENTRIES == 0 ==> p / NPTENTRIES == UserTables(p)
  {
  }

  /** s with PTE_W cleared at page v of d. */
  function Protected(s: State, d: nat, v: nat): State
    requires (d, v) in s.ptes
  {
    WithPte(s, (d, v), s.ptes[(d, v)].(w := false))
  }

  /** s after a whole pass of copyuvm's loop. */
  function PageShared(s: State, d: nat, c: nat, v: nat): State
    requires CanShare(s, d, v) && FreeFramesExist(s)
  {
    Shared(Tabled(Protected(s, d, v), (c, v)), (d, v), (c, v))
  }

  lemma CopyGoesOn(s: State, t: State, u: State, d: nat, c: nat, p: nat)
    requires CopySoFar(s, t, c, p) && p < 512 * NPTENTRIES && CanShare(t, d, p) && FreeFramesExist(t)
    requires u == PageShared(t, d, c, p) && (TableKey((c, p)) in t.tables || t.free != [])
    ensures CopySoFar(s, u, c, p + 1)
  {
    NextUserTable(p);
  }

  lemma CopyStops(s: State, t: State, c: nat, p: nat)
    requires CopySoFar(s, t, c, p) && p < 512 * NPTENTRIES && t.free == [] && TableKey((c, p)) !in t.tables
    ensures CopyFails(s, p)
  {
    NextUserTable(p);
  }

  lemma TooFewFrames(s: State, p: nat, n: nat)
    requires CopyFails(s, p) && p < n
    ensures |s.free| < SETUP_FRAMES + UserTables(n)
  {
    NextUserTable(p);
  }

  // ----- no frame goes missing -----

  lemma TabledLost(s: State, leaked: set<nat>, k: Key)
    requires Inv(s, leaked) && k.0 in s.dirs
    ensures FreeFramesExist(s) && |Tabled(s, k).cnt| == |Tabled(s, k).mem| && Lost(Tabled(s, k)) == Lost(s)
  {
    TabledKeepsInv(s, leaked, k);
    if TableKey(k) !in s.tables && s.free != [] {
      TableLost(s, leaked, TableKey(k));
    }
  }

  lemma UnmapDone(s: State, t: State, leaked: set<nat>, k: Key)
    requires Inv(s, leaked) && k in s.ptes && s.ptes[k].frame < |s.cnt| && t == Unmapped(s, k)
    ensures Inv(t, leaked) && Lost(t) == Lost(s) && forall l :: l in t.ptes ==> SamePage(s, t, l)
  {
    UnmapKeepsInv(s, leaked, k);
    UnmapLost(s, leaked, k);
  }

  lemma NewDirLost(s: State, leaked: set<nat>)
    requires Inv(s, leaked) && s.free != []
    ensures s.free[0] < |s.mem| && Lost(NewDir(s)) == Lost(s)
  {
    TakeKeepsInv(s, leaked);
    forall f ensures Loose(NewDir(s), f) <==> Loose(s, f) {
    }
  }

  /** The first free frame, zeroed and counted, before it is mapped. */
  function CountedZero(s: State): State
    requires s.free != [] && s.free[0] < |s.mem| == |s.cnt|
  {
    Counted(WithPage(Take(s), s.free[0], Filled(0)), s.free[0], 1)
  }

  lemma CountedZeroLost(s: State, leaked: set<nat>)
    requires Inv(s, leaked) && s.free != []
    ensures s.free[0] < |s.mem| == |s.cnt| && Lost(CountedZero(s)) == Lost(s)
  {
    TakeKeepsInv(s, leaked);
    forall f ensures Loose(CountedZero(s), f) <==> Loose(s, f) {
    }
  }

  lemma PageLost(s: State, f: nat, p: Page)
    requires |s.cnt| == |s.mem| && f < |s.mem|
    ensures Lost(WithPage(s, f, p)) == Lost(s)
  {
    forall g ensures Loose(WithPage(s, f, p), g) <==> Loose(s, g) {
    }
  }

  lemma SharedLost(s: State, leaked: set<nat>, from: Key, to: Key)
    requires Inv(s, leaked) && from in s.ptes && s.ptes[from].frame < |s.cnt|
    ensures Lost(Shared(s, from, to)) == Lost(s)
  {
    MappedIsCounted(s, leaked, from);
    forall f ensures Loose(Shared(s, from, to), f) <==> Loose(s, f) {
    }
  }

  lemma PageSharedKeepsInv(s: State, leaked: set<nat>, d: nat, c: nat, v: nat)
    requires Inv(s, leaked) && (d, v) in s.ptes && (c, v) !in s.ptes && c in s.dirs
    ensures CanShare(s, d, v) && FreeFramesExist(s)
    ensures Inv(Protected(s, d, v), leaked)
    ensures TableKey((c, v)) in s.tables || s.free != [] ==> Inv(PageShared(s, d, c, v), leaked)
  {
    MappedIsCounted(s, leaked, (d, v));
    FlagKeepsInv(s, leaked, (d, v), false);
    TabledKeepsInv(Protected(s, d, v), leaked, (c, v));
    if TableKey((c, v)) in s.tables || s.free != [] {
      ShareKeepsInv(Tabled(Protected(s, d, v), (c, v)), leaked, (d, v), (c, v));
    }
  }

  lemma PageSharedLost(s: State, leaked: set<nat>, d: nat, c: nat, v: nat)
    requires Inv(s, leaked) && (d, v) in s.ptes && (c, v) !in s.ptes && c in s.dirs
    ensures CanShare(s, d, v) && FreeFramesExist(s) && Lost(Protected(s, d, v)) == Lost(s)
    ensures var t := PageShared(s, d, c, v); |t.cnt| == |t.mem| && Lost(t) == Lost(s)
  {
    PageSharedKeepsInv(s, leaked, d, c, v);
    var t := Protected(s, d, v);
    EntriesLost(s, t);
    TabledLost(t, leaked, (c, v));
    TabledKeepsInv(t, leaked, (c, v));
    SharedLost(Tabled(t, (c, v)), leaked, (d, v), (c, v));
  }

  /** The frames of directory d. */
  ghost function FramesOf(tables: map<Key, nat>, d: nat, n: nat): set<nat> {
    set k | k in tables && k.0 == d && k.1 < n :: tables[k]
  }

  lemma NextFrameOf(tables: map<Key, nat>, d: nat, i: nat)
    ensures FramesOf(tables, d, 0) == {}
    ensures FramesOf(tables, d, i + 1) == FramesOf(tables, d, i) + if (d, i) in tables then {tables[(d, i)]} else {}
  {
    var k: Key := (d, i);
    assert k in tables ==> tables[k] in FramesOf(tables, d, i + 1);
    forall f | f in FramesOf(tables, d, i + 1)
      ensures f in FramesOf(tables, d, i) || (k in tables && f == tables[k])
    {
      var l :| l in tables && l.0 == d && l.1 < i + 1 && tables[l] == f;
      assert l.1 < i || l == k;
    }
  }

  lemma ForgetDirLost(s: State, leaked: set<nat>, d: nat)
    requires Inv(s, leaked) && d in s.dirs && Indexed(s.tables)
    ensures Lost(ForgetDir(s, d)) == Lost(s) + {d} + FramesOf(s.tables, d, NPDENTRIES)
    ensures d !in Lost(s) && d !in FramesOf(s.tables, d, NPDENTRIES) && Lost(s) !! FramesOf(s.tables, d, NPDENTRIES)
  {
    var t := ForgetDir(s, d);
    forall f ensures Loose(t, f) <==> Loose(s, f) || f == d || f in FramesOf(s.tables, d, NPDENTRIES) {
      if f in s.tables.Values {
        var k :| k in s.tables && s.tables[k] == f;
        assert f in t.tables.Values <==> k.0 != d by {
          if k.0 != d {
            assert k in t.tables && t.tables[k] == f;
          }
        }
      }
    }
  }

  // ----- making and removing address spaces -----

  lemma NewDirKeepsInv(s: State, leaked: set<nat>)
    requires Inv(s, leaked) && s.free != []
    ensures s.free[0] < |s.mem| && s.free[0] !in s.dirs
    ensures Inv(NewDir(s), leaked) && AllSame(s, NewDir(s)) && forall k :: k in s.ptes ==> k.0 != s.free[0]
  {
    TakeKeepsInv(s, leaked);
    var d := s.free[0];
    PageWriteKeepsInv(Take(s), leaked, d, Filled(0));
    AddDirKeepsInv(WithPage(Take(s), d, Filled(0)), leaked, d);
    forall k | k in s.ptes ensures k.0 != d && SamePage(s, NewDir(s), k) {
      assert EntryOk(s, k);
    }
  }

  /** A directory without user entries, and its tables, drop out of the state. */
  lemma ForgetDirKeepsInv(s: State, leaked: set<nat>, d: nat)
    requires Inv(s, leaked) && forall k :: k in s.ptes ==> k.0 != d
    ensures Inv(ForgetDir(s, d), leaked) && AllSame(s, ForgetDir(s, d))
  {
    forall k | k in s.ptes ensures EntryOk(ForgetDir(s, d), k) {
      assert EntryOk(s, k);
    }
  }

  /** A missing page table means that no page from here on is mapped. */
  lemma NoTableNoPages(s: State, t: State, leaked: set<nat>, d: nat, lo: nat, v: nat, n: nat)
    requires Inv(t, leaked) && Prefix(s.ptes, d, n) && Cut(s, t, d, lo, v) && lo <= v
    requires TableKey((d, v)) !in t.tables
    ensures n <= v && Cut(s, t, d, lo, v + NPTENTRIES)
  {
    assert (d, v) in t.ptes ==> EntryOk(t, (d, v));
  }

  lemma PagesFit(sz: nat, newsz: nat)
    requires sz <= newsz <= KERNBASE
    ensures Pages(sz) <= Pages(newsz) && Pages(newsz) * PGSIZE <= KERNBASE
  {
  }

  lemma AtPage(a: nat, p: nat, sz: nat)
    requires a == p * PGSIZE && a < sz <= KERNBASE
    ensures a / PGSIZE == p < Pages(sz) <= 512 * NPTENTRIES
  {
  }

  lemma PagesBelow(sz: nat, p: nat)
    requires sz <= p * PGSIZE
    ensures Pages(sz) <= p
  {
  }

  /** Cutting past the last page is cutting up to it. */
  lemma CutToEnd(s: State, t: State, d: nat, lo: nat, p: nat, n: nat)
    requires Prefix(s.ptes, d, n) && n <= p && Cut(s, t, d, lo, p)
    ensures Cut(s, t, d, lo, if n < lo then lo else n)
  {
  }

  lemma CutOne(s: State, t: State, u: State, d: nat, lo: nat, v: nat)
    requires Cut(s, t, d, lo, v) && lo <= v && (d, v) in t.ptes
    requires u.dirs == t.dirs && u.tables == t.tables && u.ptes == t.ptes - {(d, v)}
    requires forall k :: k in u.ptes ==> SamePage(t, u, k)
    ensures Cut(s, u, d, lo, v + 1)
  {
    forall k | k in u.ptes ensures SamePage(s, u, k) {
      assert SamePage(s, t, k) && SamePage(t, u, k);
    }
  }

  lemma CountedZeroKeepsInv(s: State, leaked: set<nat>)
    requires Inv(s, leaked) && s.free != []
    ensures s.free[0] < |s.mem| == |s.cnt| && s.free[0] !in leaked
    ensures Inv(CountedZero(s), leaked + {s.free[0]}) && AllSame(s, CountedZero(s))
    ensures CountedZero(s).mem[s.free[0]] == Filled(0)
  {
    var f := s.free[0];
    TakeKeepsInv(s, leaked);
    PageWriteKeepsInv(Take(s), leaked, f, Filled(0));
    CountLooseKeepsInv(WithPage(Take(s), f, Filled(0)), leaked, f);
    forall k | k in s.ptes ensures SamePage(s, CountedZero(s), k) {
      assert EntryOk(s, k);
    }
  }

  lemma GrownTrans(s: State, t: State, u: State, d: nat, lo: nat, v: nat)
    requires Grown(s, t, d, lo, v) && AllSame(t, u) && u.ptes == t.ptes && u.dirs == t.dirs
    ensures Grown(s, u, d, lo, v)
  {
    forall k | k in s.ptes ensures SamePage(s, u, k) {
      assert SamePage(s, t, k) && SamePage(t, u, k);
    }
    forall w: nat | lo <= w < v ensures ZeroPage(u, (d, w)) {
      assert ZeroPage(t, (d, w)) && SamePage(t, u, (d, w));
    }
  }

  lemma GrownOne(s: State, t: State, d: nat, lo: nat, v: nat, f: nat)
    requires Grown(s, t, d, lo, v) && lo <= v && f < |t.mem| && t.mem[f] == Filled(0)
    requires (d, v) !in t.ptes
    ensures Grown(s, WithPte(t, (d, v), Pte(f, true, true)), d, lo, v + 1)
  {
    var u := WithPte(t, (d, v), Pte(f, true, true));
    forall w: nat | lo <= w < v + 1 ensures ZeroPage(u, (d, w)) {
      assert w < v ==> ZeroPage(t, (d, w));
    }
    forall k | k in s.ptes ensures SamePage(s, u, k) {
      assert SamePage(s, t, k);
    }
  }

  /** allocuvm's new page, counted and not yet mapped. */
  lemma AllocPageCounts(s: State, t: State, leaked: set<nat>, d: nat, lo: nat, v: nat)
    requires Inv(t, leaked) && t.free != [] && Grown(s, t, d, lo, v)
    ensures t.free[0] < |t.mem| == |t.cnt| && t.end <= t.free[0] && t.free[0] !in leaked
    ensures var u := CountedZero(t); Inv(u, leaked + {t.free[0]}) && Grown(s, u, d, lo, v) && Lost(u) == Lost(t)
  {
    CountedZeroKeepsInv(t, leaked);
    CountedZeroLost(t, leaked);
    GrownTrans(s, t, CountedZero(t), d, lo, v);
  }

  /** allocuvm's new page, mapped. */
  lemma AllocPageMaps(s: State, t: State, u: State, leaked: set<nat>, d: nat, lo: nat, v: nat)
    requires Inv(t, leaked) && t.free != [] && d in t.dirs && Grown(s, t, d, lo, v) && Prefix(s.ptes, d, lo) && lo <= v
    requires t.free[0] < |t.mem| == |t.cnt| && FreeFramesExist(CountedZero(t))
    requires TableKey((d, v)) in t.tables || |t.free| > 1
    requires u == WithPte(Tabled(CountedZero(t), (d, v)), (d, v), Pte(t.free[0], true, true))
    ensures Inv(u, leaked) && Grown(s, u, d, lo, v + 1) && TookFor(t, u, (d, v)) && Lost(u) == Lost(t)
  {
    var f, c := t.free[0], CountedZero(t);
    CountedZeroKeepsInv(t, leaked);
    AllocPageCounts(s, t, leaked, d, lo, v);
    var tabled := Tabled(c, (d, v));
    TabledKeepsInv(c, leaked + {f}, (d, v));
    TabledLost(c, leaked + {f}, (d, v));
    GrownTrans(s, c, tabled, d, lo, v);
    MapCountedKeepsInv(tabled, leaked, (d, v), Pte(f, true, true));
    EntriesLost(tabled, u);
    MappingTakes(t, c, u, (d, v), Pte(f, true, true));
    assert c.mem[f] == Filled(0) && tabled.mem[f] == Filled(0);
    GrownOne(s, tabled, d, lo, v, f);
  }

  lemma GrownUndone(s: State, t: State, u: State, d: nat, lo: nat, p: nat)
    requires Grown(s, t, d, lo, p) && Prefix(s.ptes, d, lo) && lo <= p
    requires Cut(t, u, d, lo, p)
    ensures Grown(s, u, d, lo, lo)
  {
    forall k | k in s.ptes ensures SamePage(s, u, k) {
      assert SamePage(s, t, k) && SamePage(t, u, k);
    }
  }

  /** kfree does nothing to a frame that allocuvm has counted. */
  lemma LeakedStays(s: State, leaked: set<nat>, f: nat)
    requires Inv(s, leaked) && f in leaked
    ensures f < |s.cnt| && s.cnt[f] == 1
  {
  }

  lemma ForkedTrans(s: State, t: State, u: State, d: nat, c: nat, n: nat)
    requires Forked(s, t, d, c, n) && AllSame(t, u) && u.dirs == t.dirs
    ensures Forked(s, u, d, c, n)
  {
    forall k | k in s.ptes ensures SamePage(s, u, k) {
      assert SamePage(s, t, k) && SamePage(t, u, k);
    }
    forall v: nat | v < n ensures SameAcross(s, (d, v), u, (c, v)) {
      assert SameAcross(s, (d, v), t, (c, v)) && SamePage(t, u, (c, v));
    }
  }

  lemma ForkedStart(s: State, t: State, d: nat, c: nat)
    requires AllSame(s, t) && c !in s.dirs && t.dirs == s.dirs + {c} && Prefix(t.ptes, c, 0)
    ensures Forked(s, t, d, c, 0)
  {
  }

  lemma SharedOne(ptes: map<Key, Pte>, d: nat, c: nat, v: nat)
    requires SharedPages(ptes, d, c, v) && (d, v) in ptes && c != d
    ensures var p := ptes[(d, v)].(w := false);
            SharedPages(ptes[(d, v) := p], d, c, v) && SharedPages(ptes[(d, v) := p][(c, v) := p], d, c, v + 1)
  {
    var p := ptes[(d, v)].(w := false);
    var q := ptes[(d, v) := p];
    forall w: nat | w < v ensures q[(d, w)] == ptes[(d, w)] && (c, w) in q && q[(c, w)] == ptes[(c, w)] {
      assert (d, w) != (d, v) && (c, w) != (d, v);
    }
  }

  lemma ForkedOne(s: State, t: State, d: nat, c: nat, v: nat)
    requires Forked(s, t, d, c, v) && (d, v) in s.ptes && d in s.dirs && t.ptes[(d, v)].frame < |t.cnt| == |t.mem|
    ensures Forked(s, Shared(t, (d, v), (c, v)), d, c, v + 1)
  {
    var u := Shared(t, (d, v), (c, v));
    forall k | k in s.ptes ensures SamePage(s, u, k) {
      assert SamePage(s, t, k);
    }
    forall w: nat | w < v + 1 ensures SameAcross(s, (d, w), u, (c, w)) {
      if w < v {
        assert SameAcross(s, (d, w), t, (c, w));
      } else {
        assert SamePage(s, t, (d, v));
      }
    }
  }

  lemma PageSharedForks(s: State, t: State, leaked: set<nat>, d: nat, c: nat, v: nat)
    requires Inv(t, leaked) && Forked(s, t, d, c, v) && SharedPages(t.ptes, d, c, v) && (d, v) in s.ptes && d in s.dirs
    ensures CanShare(t, d, v) && FreeFramesExist(t)
    ensures Forked(s, Protected(t, d, v), d, c, v) && SharedPages(Protected(t, d, v).ptes, d, c, v)
    ensures Forked(s, PageShared(t, d, c, v), d, c, v + 1) && SharedPages(PageShared(t, d, c, v).ptes, d, c, v + 1)
  {
    PageSharedKeepsInv(t, leaked, d, c, v);
    FlagKeepsInv(t, leaked, (d, v), false);
    ForkedTrans(s, t, Protected(t, d, v), d, c, v);
    TabledKeepsInv(Protected(t, d, v), leaked, (c, v));
    ForkedTrans(s, Protected(t, d, v), Tabled(Protected(t, d, v), (c, v)), d, c, v);
    ForkedOne(s, Tabled(Protected(t, d, v), (c, v)), d, c, v);
    SharedOne(t.ptes, d, c, v);
  }

  lemma CopyPageForks(s: State, t: State, u: State, leaked: set<nat>, d: nat, c: nat, v: nat, ok: bool)
    requires Inv(t, leaked) && Forked(s, t, d, c, v) && SharedPages(t.ptes, d, c, v) && (d, v) in s.ptes && d in s.dirs
    requires CanShare(t, d, v) && FreeFramesExist(t) && (ok ==> TableKey((c, v)) in t.tables || t.free != [])
    requires u == if ok then PageShared(t, d, c, v) else Protected(t, d, v)
    ensures Inv(u, leaked) && Forked(s, u, d, c, if ok then v + 1 else v)
    ensures SharedPages(u.ptes, d, c, if ok then v + 1 else v)
  {
    PageSharedKeepsInv(t, leaked, d, c, v);
    PageSharedForks(s, t, leaked, d, c, v);
  }

  lemma ForkUndone(s: State, t: State, u: State, d: nat, c: nat, n: nat)
    requires Forked(s, t, d, c, n) && Gone(t, u, c)
    ensures u.dirs == s.dirs && AllSame(s, u)
  {
    forall k | k in s.ptes ensures SamePage(s, u, k) {
      assert SamePage(s, t, k) && SamePage(t, u, k);
    }
  }

  lemma KfreeLooseKeepsInv(s: State, leaked: set<nat>, f: nat)
    requires Inv(s, leaked) && Loose(s, f)
    ensures Inv(Kfreed(s, f), leaked) && AllSame(s, Kfreed(s, f))
    ensures forall g :: g != f && Loose(s, g) ==> Loose(Kfreed(s, f), g)
  {
    UncountedIsUnmapped(s, leaked, f);
    var t := Kfreed(s, f);
    assert TablesOk(t) by {
      assert forall l :: l in s.tables ==> s.tables[l] in s.tables.Values;
    }
    forall k | k in t.ptes ensures EntryOk(t, k) && SamePage(s, t, k) {
      assert EntryOk(s, k);
    }
  }

  /** The frames of a forgotten directory belong to nothing any more, and are all different. */
  lemma ForgottenIsLoose(s: State, leaked: set<nat>, d: nat)
    requires Inv(s, leaked) && d in s.dirs
    ensures Loose(ForgetDir(s, d), d)
    ensures forall k: Key :: k in s.tables && k.0 == d ==> Loose(ForgetDir(s, d), s.tables[k]) && s.tables[k] != d
  {
  }

  lemma GoneAfter(s: State, t: State, u: State, d: nat, n: nat)
    requires Prefix(s.ptes, d, n) && Cut(s, t, d, 0, n) && AllSame(t, u)
    requires u.dirs == t.dirs - {d} && u.tables == TablesWithout(t.tables, d)
    ensures Gone(s, u, d)
  {
    forall k | k in u.ptes ensures SamePage(s, u, k) {
      assert SamePage(s, t, k) && SamePage(t, u, k);
    }
  }

  // ----- the kernel -----

  class Kernel {
    const end: nat
    var mem: seq<Page>
    var cnt: seq<int>
    var free: seq<nat>
    var freepgCnt: int
    var dirs: set<nat>
    var tables: map<Key, nat>
    var ptes: map<Key, Pte>
    /** Frames that allocuvm counted and then failed to map: nothing will free them. */
    ghost var leaked: set<nat>

    ghost function S(): State
      reads this
    {
      State(end, mem, cnt, free, freepgCnt, dirs, tables, ptes)
    }

    ghost predicate Valid()
      reads this
    {
      Inv(S(), leaked) && end > 0 && 0 !in leaked && Indexed(tables)
    }

    // ----- kalloc.c -----

    method Kalloc() returns (r: Option<nat>)
      modifies `free, `freepgCnt
      ensures old(free) == [] ==> r == None && S() == old(S())
      ensures old(free) != [] ==> r == Some(old(free)[0]) && S() == Take(old(S()))
    {
      if |free| == 0 {
        return None;
      }
      r := Some(free[0]);
      free := free[1..];
      freepgCnt := freepgCnt - 1;
    }

    method Kfree(f: nat)
      requires end <= f < |mem| == |cnt|
      modifies `mem, `free, `freepgCnt
      ensures S() == Kfreed(old(S()), f)
    {
      if cnt[f] == 0 {
        mem := mem[f := Filled(1)];
        free := [f] + free;
        freepgCnt := freepgCnt + 1;
      }
    }

    method IncrRtable(f: nat)
      requires f < |cnt|
      modifies `cnt
      ensures S() == Counted(old(S()), f, 1)
    {
      cnt := cnt[f := cnt[f] + 1];
    }

    method DecrRtable(f: nat)
      requires f < |cnt|
      modifies `cnt
      ensures S() == Counted(old(S()), f, -1)
    {
      cnt := cnt[f := cnt[f] - 1];
    }

    // ----- page tables -----

    /** walkpgdir for page v of d; false is a null result. */
    method Walkpgdir(d: nat, v: nat, alloc: bool) returns (found: bool)
      requires Valid() && d in dirs && (alloc ==> v < NPDENTRIES * NPTENTRIES)
      modifies `mem, `free, `freepgCnt, `tables
      ensures Valid() && AllSame(old(S()), S()) && Lost(S()) == old(Lost(S()))
      ensures !alloc ==> S() == old(S())
      ensures found <==> TableKey((d, v)) in old(tables) || (alloc && old(free) != [])
      ensures S() == if found && TableKey((d, v)) !in old(tables)
                     then WithTable(old(S()), TableKey((d, v))) else old(S())
    {
      var k := (d, v / NPTENTRIES);
      if k in tables {
        return true;
      }
      if !alloc {
        return false;
      }
      var pgtab := Kalloc();
      if pgtab == None {
        return false;
      }
      WithTableKeepsInv(old(S()), leaked, k);
      TableLost(old(S()), leaked, k);
      mem := mem[pgtab.value := Filled(0)];
      tables := tables[k := pgtab.value];
      found := true;
    }

    /** mappages for one page; the entry must be absent ("remap"). */
    method Mappages(d: nat, v: nat, f: nat, w: bool, u: bool) returns (ok: bool)
      requires Valid() && d in dirs && (d, v) !in ptes && v < NPDENTRIES * NPTENTRIES
      modifies `mem, `free, `freepgCnt, `tables, `ptes
      ensures ok <==> TableKey((d, v)) in old(tables) || old(free) != []
      ensures old(FreeFramesExist(S()))
      ensures S() == if ok then WithPte(Tabled(old(S()), (d, v)), (d, v), Pte(f, w, u)) else old(S())
    {
      var found := Walkpgdir(d, v, true);
      if !found {
        return false;
      }
      ptes := ptes[(d, v) := Pte(f, w, u)];
      ok := true;
    }

    /** The page table for directory index i, if kmap covers it; s is the state before the first. */
    method MapIndex(d: nat, i: nat, ghost s: State) returns (ok: bool)
      requires Valid() && d in dirs && i < NPDENTRIES && KernelMapped(s, S(), d, i) && (d, i) !in s.tables
      modifies `mem, `free, `freepgCnt, `tables
      ensures Valid() && AllSame(old(S()), S()) && Lost(S()) == old(Lost(S()))
      ensures ok ==> KernelMapped(s, S(), d, i + 1)
      ensures !ok ==> KernelIndex(i) && free == [] && S() == old(S())
    {
      ok := true;
      if KernelIndex(i) {
        assert TableKey((d, i * NPTENTRIES)) == (d, i);
        ok := Walkpgdir(d, i * NPTENTRIES, true);
      }
      if ok {
        KernelNext(s, old(S()), d, i);
      }
    }

    /** The loop of setupkvm over kmap: a page table for each directory index it covers. */
    method MapKernel(d: nat) returns (ok: bool, ghost n: nat)
      requires Valid() && d in dirs && forall i: nat :: (d, i) !in tables
      modifies `mem, `free, `freepgCnt, `tables
      ensures Valid() && AllSame(old(S()), S()) && Lost(S()) == old(Lost(S())) && KernelMapped(old(S()), S(), d, n)
      ensures ok ==> n == NPDENTRIES
      ensures !ok ==> n < NPDENTRIES && KernelIndex(n) && free == []
    {
      var i := 0;
      while i < NPDENTRIES
        invariant i <= NPDENTRIES && Valid() && AllSame(old(S()), S()) && Lost(S()) == old(Lost(S()))
        invariant KernelMapped(old(S()), S(), d, i)
      {
        ghost var before := S();
        ok := MapIndex(d, i, old(S()));
        AllSameTrans(old(S()), before, S());
        if !ok {
          return false, i;
        }
        i := i + 1;
      }
      ok, n := true, i;
    }

    /** setupkvm's empty directory. */
    method AllocDir() returns (r: Option<nat>)
      requires Valid()
      modifies `mem, `free, `freepgCnt, `dirs
      ensures r == None ==> old(free) == [] && S() == old(S())
      ensures r.Some? ==> old(free) != [] && r.value == old(free)[0] < |mem| && S() == NewDir(old(S()))
      ensures Valid() && AllSame(old(S()), S()) && Lost(S()) == old(Lost(S()))
      ensures r.Some? ==> r.value !in old(dirs) && forall i: nat :: (r.value, i) !in tables && (r.value, i) !in ptes
    {
      ghost var s := S();
      r := Kalloc();
      if r.Some? {
        NewDirKeepsInv(s, leaked);
        NewDirLost(s, leaked);
        mem := mem[r.value := Filled(0)];
        dirs := dirs + {r.value};
        assert S() == NewDir(s);
      }
    }

    /** setupkvm's error exit, s being the state before it: the new directory is lost with its tables. */
    method DropDir(d: nat, ghost s: State, ghost n: nat)
      requires Valid() && Inv(s, leaked) && s.free != [] && s.free[0] == d && d < |s.mem| && Indexed(s.tables)
      requires KernelMapped(NewDir(s), S(), d, n) && AllSame(s, S()) && free == []
      modifies `dirs, `tables
      ensures Valid() && AllSame(s, S()) && dirs == s.dirs && free == [] && Lost(S()) == Lost(s) + Listed(s.free)
    {
      NewDirKeepsInv(s, leaked);
      ghost var full := S();
      ForgetDirKeepsInv(full, leaked, d);
      dirs := dirs - {d};
      tables := TablesWithout(tables, d);
      assert S() == ForgetDir(full, d);
      AllSameTrans(s, full, S());
      NewTablesDropped(s, full, leaked, d, n);
      SetupLoses(s, S(), leaked);
    }

    /** setupkvm: a new directory exactly when there are 65 frames for it and its tables. On failure the
        directory is lost with the tables it has so far, and with them every frame there was. */
    method Setupkvm() returns (r: Option<nat>)
      requires Valid()
      modifies `mem, `free, `freepgCnt, `tables, `dirs
      ensures Valid() && AllSame(old(S()), S())
      ensures r.Some? <==> old(|free|) >= SETUP_FRAMES
      ensures r == None ==> dirs == old(dirs) && free == [] && Lost(S()) == old(Lost(S())) + Listed(old(free))
      ensures r.Some? ==> r.value !in old(dirs) && dirs == old(dirs) + {r.value} && Prefix(ptes, r.value, 0)
      ensures r.Some? ==> Lost(S()) == old(Lost(S())) && CopySoFar(old(S()), S(), r.value, 0)
    {
      ghost var s := S();
      r := AllocDir();
      if r == None {
        assert Listed(s.free) == {};
        return;
      }
      var ok;
      ghost var n;
      ok, n := MapKernel(r.value);
      AllSameTrans(s, NewDir(s), S());
      if !ok {
        MoreTablesNeeded(n);
        DropDir(r.value, s, n);
        return None;
      }
      CopyStarts(s, NewDir(s), S(), r.value);
    }

    // ----- shrinking and freeing an address space -----

    /** deallocuvm's work on one present page. */
    method UnmapPage(d: nat, v: nat)
      requires Valid() && (d, v) in ptes
      modifies `mem, `cnt, `free, `freepgCnt, `ptes
      ensures Valid() && old(ptes[(d, v)].frame < |cnt|) && S() == Unmapped(old(S()), (d, v))
      ensures Lost(S()) == old(Lost(S()))
      ensures forall k :: k in ptes ==> SamePage(old(S()), S(), k)
    {
      ghost var s := S();
      MappedIsCounted(s, leaked, (d, v));
      var f := ptes[(d, v)].frame;
      DecrRtable(f);
      Kfree(f);
      ptes := ptes - {(d, v)};
      assert S() == Unmapped(s, (d, v));
      UnmapDone(s, S(), leaked, (d, v));
    }

    /** One pass of deallocuvm's loop at page v, for a loop that started in state s at page lo; false
        means that the whole page table is missing. */
    method DeallocPage(d: nat, v: nat, ghost s: State, ghost lo: nat, ghost n: nat) returns (found: bool)
      requires Valid() && d in dirs && Cut(s, S(), d, lo, v) && lo <= v && Prefix(s.ptes, d, n)
      modifies `mem, `cnt, `free, `freepgCnt, `tables, `ptes
      ensures Valid() && d in dirs && Cut(s, S(), d, lo, v + if found then 1 else NPTENTRIES)
      ensures Lost(S()) == old(Lost(S()))
      ensures S() == if (d, v) in old(ptes) && old(ptes[(d, v)].frame < |cnt| == |mem|)
                     then Unmapped(old(S()), (d, v)) else old(S())
    {
      ghost var before := S();
      found := Walkpgdir(d, v, false);
      if !found {
        NoTableNoPages(s, S(), leaked, d, lo, v, n);
      } else if (d, v) in ptes {
        UnmapPage(d, v);
        CutOne(s, before, S(), d, lo, v);
      }
    }

    /** deallocuvm: the pages of d from newsz up go, and each frame is freed when its last name goes. */
    method Deallocuvm(d: nat, oldsz: nat, newsz: nat, ghost n: nat) returns (r: nat)
      requires Valid() && d in dirs && Prefix(ptes, d, n) && n <= Pages(oldsz)
      modifies `mem, `cnt, `free, `freepgCnt, `tables, `ptes
      ensures Valid() && r == (if newsz >= oldsz then oldsz else newsz) && Lost(S()) == old(Lost(S()))
      ensures newsz >= oldsz ==> S() == old(S())
      ensures newsz < oldsz ==> Cut(old(S()), S(), d, Pages(newsz), if n < Pages(newsz) then Pages(newsz) else n)
    {
      if newsz >= oldsz {
        return oldsz;
      }
      ghost var lo := Pages(newsz);
      var a := PgRoundUp(newsz);
      ghost var p := lo;
      while a < oldsz
        invariant a == p * PGSIZE && lo <= p
        invariant Valid() && d in dirs && Cut(old(S()), S(), d, lo, p) && Lost(S()) == old(Lost(S()))
      {
        var found := DeallocPage(d, a / PGSIZE, old(S()), lo, n);
        if !found {
          a := a + (NPTENTRIES - 1) * PGSIZE;
          p := p + (NPTENTRIES - 1);
        }
        a := a + PGSIZE;
        p := p + 1;
      }
      PagesBelow(oldsz, p);
      CutToEnd(old(S()), S(), d, lo, p, n);
      r := newsz;
    }

    /** freevm's work on one page table of a dead directory. */
    method FreeTable(f: nat)
      requires Valid() && Loose(S(), f)
      modifies `mem, `free, `freepgCnt
      ensures Valid() && AllSame(old(S()), S()) && Lost(S()) == old(Lost(S())) - {f}
      ensures forall g :: g != f && old(Loose(S(), g)) ==> Loose(S(), g)
    {
      KfreeLooseKeepsInv(S(), leaked, f);
      KfreedLost(S(), f);
      Kfree(f);
    }

    /** freevm's loop over the directory's entries, which it reads from the dead directory. */
    method FreeTables(d: nat, pgdir: map<Key, nat>)
      requires Valid() && Loose(S(), d)
      requires forall k: Key :: k in pgdir && k.0 == d ==> Loose(S(), pgdir[k]) && pgdir[k] != d
      requires forall k: Key, l: Key :: k in pgdir && l in pgdir && pgdir[k] == pgdir[l] ==> k == l
      modifies `mem, `free, `freepgCnt
      ensures Valid() && AllSame(old(S()), S()) && Loose(S(), d)
      ensures Lost(S()) == old(Lost(S())) - FramesOf(pgdir, d, NPDENTRIES)
    {
      var i := 0;
      NextFrameOf(pgdir, d, i);
      while i < NPDENTRIES
        invariant i <= NPDENTRIES && Valid() && AllSame(old(S()), S()) && Loose(S(), d)
        invariant forall k: Key :: k in pgdir && k.0 == d && i <= k.1 ==> Loose(S(), pgdir[k])
        invariant Lost(S()) == old(Lost(S())) - FramesOf(pgdir, d, i)
      {
        NextFrameOf(pgdir, d, i);
        if (d, i) in pgdir {
          ghost var before := S();
          FreeTable(pgdir[(d, i)]);
          AllSameTrans(old(S()), before, S());
        }
        i := i + 1;
      }
    }

    /** freevm once no user page is left: the page tables, then the directory itself. */
    method FreeDir(d: nat)
      requires Valid() && d in dirs && forall k :: k in ptes ==> k.0 != d
      modifies `mem, `free, `freepgCnt, `tables, `dirs
      ensures Valid() && AllSame(old(S()), S()) && Lost(S()) == old(Lost(S()))
      ensures dirs == old(dirs) - {d} && tables == TablesWithout(old(tables), d)
    {
      var pgdir := tables;
      ForgetDirKeepsInv(S(), leaked, d);
      ForgottenIsLoose(S(), leaked, d);
      ForgetDirLost(S(), leaked, d);
      dirs := dirs - {d};
      tables := TablesWithout(tables, d);
      assert S() == ForgetDir(old(S()), d);
      FreeTables(d, pgdir);
      ghost var full := S();
      AllSameTrans(old(S()), ForgetDir(old(S()), d), full);
      FreeTable(d);
      AllSameTrans(old(S()), full, S());
    }

    /** freevm: an address space goes, and with its last names its frames. */
    method Freevm(d: nat, ghost n: nat)
      requires Valid() && d in dirs && Prefix(ptes, d, n) && n * PGSIZE <= KERNBASE
      modifies `mem, `cnt, `free, `freepgCnt, `ptes, `tables, `dirs
      ensures Valid() && Gone(old(S()), S(), d) && Lost(S()) == old(Lost(S()))
    {
      var sz := Deallocuvm(d, KERNBASE, 0, n);
      ghost var bare := S();
      FreeDir(d);
      GoneAfter(old(S()), bare, S(), d, n);
    }

    // ----- growing -----

    /** One pass of allocuvm's loop at page v. When mappages fails the frame stays counted: it leaks. */
    method AllocPage(d: nat, v: nat, ghost s: State, ghost lo: nat) returns (r: AllocResult)
      requires Valid() && d in dirs && Grown(s, S(), d, lo, v) && Prefix(s.ptes, d, lo) && lo <= v
      requires v < NPDENTRIES * NPTENTRIES
      modifies `mem, `cnt, `free, `freepgCnt, `tables, `ptes, `leaked
      ensures Valid() && Lost(S()) == old(Lost(S()))
      ensures Grown(s, S(), d, lo, if r.Mapped? then v + 1 else v)
      ensures r.NoFrame? <==> old(free) == []
      ensures r.NoTable? <==> TableKey((d, v)) !in old(tables) && |old(free)| == 1
      ensures !r.NoTable? ==> leaked == old(leaked)
      ensures r.NoTable? ==> end <= r.frame && r.frame !in old(leaked) && leaked == old(leaked) + {r.frame}
      ensures r.Mapped? ==> TookFor(old(S()), S(), (d, v))
    {
      ghost var t := S();
      var page := Kalloc();
      if page == None {
        return NoFrame;
      }
      var f := page.value;
      AllocPageCounts(s, t, leaked, d, lo, v);
      mem := mem[f := Filled(0)];
      IncrRtable(f);
      assert S() == CountedZero(t);
      leaked := leaked + {f};
      var ok := Mappages(d, v, f, true, true);
      if !ok {
        return NoTable(f);
      }
      leaked := old(leaked);
      AllocPageMaps(s, t, S(), leaked, d, lo, v);
      r := Mapped;
    }

    /** allocuvm's deallocuvm on its error paths, p being the page it failed at. */
    method UndoAlloc(d: nat, newsz: nat, oldsz: nat, ghost s: State, ghost p: nat)
      requires Valid() && d in dirs && oldsz < newsz && Pages(oldsz) <= p <= Pages(newsz)
      requires Prefix(s.ptes, d, Pages(oldsz)) && Grown(s, S(), d, Pages(oldsz), p)
      modifies `mem, `cnt, `free, `freepgCnt, `tables, `ptes
      ensures Valid() && Grown(s, S(), d, Pages(oldsz), Pages(oldsz)) && Lost(S()) == old(Lost(S()))
    {
      ghost var before := S();
      var _ := Deallocuvm(d, newsz, oldsz, p);
      GrownUndone(s, before, S(), d, Pages(oldsz), p);
    }

    /** Both error paths of allocuvm; kfree finds the counted frame in use and does nothing. */
    method StopAlloc(d: nat, newsz: nat, oldsz: nat, page: AllocResult, ghost s: State, ghost p: nat)
      requires Valid() && d in dirs && oldsz < newsz && Pages(oldsz) <= p <= Pages(newsz)
      requires Prefix(s.ptes, d, Pages(oldsz)) && Grown(s, S(), d, Pages(oldsz), p)
      requires page.NoTable? ==> end <= page.frame && page.frame in leaked
      modifies `mem, `cnt, `free, `freepgCnt, `tables, `ptes
      ensures Valid() && Grown(s, S(), d, Pages(oldsz), Pages(oldsz)) && Lost(S()) == old(Lost(S()))
    {
      UndoAlloc(d, newsz, oldsz, s, p);
      if page.NoTable? {
        LeakedStays(S(), leaked, page.frame);
        Kfree(page.frame);
      }
    }

    /** One pass of allocuvm's loop, with the error paths. */
    method AllocOne(d: nat, v: nat, newsz: nat, oldsz: nat, ghost s: State, ghost lo: nat, ghost hi: nat,
                    ghost l: set<nat>)
      returns (ok: bool, ghost p: nat)
      requires Valid() && lo == Pages(oldsz) && hi == Pages(newsz) && oldsz < newsz && v < hi && Prefix(s.ptes, d, lo)
      requires newsz < KERNBASE
      requires AllocSoFar(s, S(), d, lo, v) && leaked == l
      modifies `mem, `cnt, `free, `freepgCnt, `tables, `ptes, `leaked
      ensures Valid() && Lost(S()) == old(Lost(S()))
      ensures p == (if ok then v + 1 else v) && (ok ==> AllocSoFar(s, S(), d, lo, p) && leaked == l)
      ensures !ok ==> AllocDone(s, S(), d, lo, hi, l, leaked, false)
    {
      ghost var t := S();
      var page := AllocPage(d, v, s, lo);
      ok := page.Mapped?;
      p := if ok then v + 1 else v;
      if ok {
        AllocNext(s, t, S(), d, lo, v);
      } else {
        AllocStops(s, t, d, lo, v, hi);
        StopAlloc(d, newsz, oldsz, page, s, v);
      }
    }

    /** allocuvm's loop, when newsz is not below oldsz. */
    method AllocPages(d: nat, oldsz: nat, newsz: nat) returns (ok: bool)
      requires Valid() && d in dirs && Prefix(ptes, d, Pages(oldsz)) && oldsz <= newsz < KERNBASE
      modifies `mem, `cnt, `free, `freepgCnt, `tables, `ptes, `leaked
      ensures Valid() && AllocDone(old(S()), S(), d, Pages(oldsz), Pages(newsz), old(leaked), leaked, ok)
      ensures Lost(S()) == old(Lost(S()))
    {
      ghost var s, l, lo, hi := S(), leaked, Pages(oldsz), Pages(newsz);
      PagesFit(oldsz, newsz);
      var a := PgRoundUp(oldsz);
      ghost var p := lo;
      ok := true;
      while ok && a < newsz
        invariant a == p * PGSIZE && p <= hi && Valid() && Lost(S()) == old(Lost(S()))
        invariant if ok then AllocSoFar(s, S(), d, lo, p) && leaked == l
                  else AllocDone(s, S(), d, lo, hi, l, leaked, false)
        decreases ok, newsz - a
      {
        var v := a / PGSIZE;
        assert v == p < hi;
        ok, p := AllocOne(d, v, newsz, oldsz, s, lo, hi, l);
        if ok {
          a := a + PGSIZE;
        }
      }
      if ok {
        PagesBelow(newsz, p);
        AllocEnds(s, S(), d, lo, p, hi, l);
      }
    }

    /** allocuvm: newsz exactly when there are frames for the pages and their tables; else 0, every page
        is as before, and a frame is lost exactly when the last free one went to a page whose table is
        missing. */
    method Allocuvm(d: nat, oldsz: nat, newsz: nat) returns (r: nat)
      requires Valid() && d in dirs && Prefix(ptes, d, Pages(oldsz)) && oldsz < KERNBASE
      modifies `mem, `cnt, `free, `freepgCnt, `tables, `ptes, `leaked
      ensures Valid() && Lost(S()) == old(Lost(S()))
      ensures newsz >= KERNBASE ==> r == 0 && S() == old(S()) && leaked == old(leaked)
      ensures newsz < KERNBASE && newsz < oldsz ==> r == oldsz && S() == old(S()) && leaked == old(leaked)
      ensures oldsz <= newsz < KERNBASE ==>
                && (r == 0 || r == newsz)
                && AllocDone(old(S()), S(), d, Pages(oldsz), Pages(newsz), old(leaked), leaked, newsz == 0 || r != 0)
    {
      if newsz >= KERNBASE {
        return 0;
      }
      if newsz < oldsz {
        return oldsz;
      }
      PagesFit(oldsz, newsz);
      var ok := AllocPages(d, oldsz, newsz);
      r := if ok then newsz else 0;
    }

    // ----- fork -----

    /** One pass of copyuvm's loop: page v becomes read-only in d and is shared with c. */
    method CopyPage(d: nat, c: nat, v: nat) returns (ok: bool)
      requires Valid() && d in dirs && c in dirs && (d, v) in ptes && (c, v) !in ptes && v < NPDENTRIES * NPTENTRIES
      modifies `mem, `cnt, `free, `freepgCnt, `tables, `ptes
      ensures old(FreeFramesExist(S()) && CanShare(S(), d, v))
      ensures ok <==> TableKey((c, v)) in old(tables) || old(free) != []
      ensures S() == if ok then PageShared(old(S()), d, c, v) else Protected(old(S()), d, v)
    {
      ghost var s := S();
      PageSharedKeepsInv(s, leaked, d, c, v);
      ghost var t := Protected(s, d, v);
      ptes := ptes[(d, v) := ptes[(d, v)].(w := false)];
      assert S() == t;
      var pte := ptes[(d, v)];
      ok := Mappages(c, v, pte.frame, pte.w, pte.u);
      if ok {
        IncrRtable(pte.frame);
      }
      assert S() == if ok then PageShared(s, d, c, v) else t;
    }

    /** CopyPage in a loop that started in state s. */
    method CopyStep(d: nat, c: nat, v: nat, ghost s: State) returns (ok: bool, ghost p: nat)
      requires Valid() && Copying(s, S(), d, c, v) && d in s.dirs && (d, v) in s.ptes && v < 512 * NPTENTRIES
      modifies `mem, `cnt, `free, `freepgCnt, `tables, `ptes
      ensures Valid() && Lost(S()) == old(Lost(S()))
      ensures ok ==> p == v + 1 && Copying(s, S(), d, c, p)
      ensures !ok ==> Forked(s, S(), d, c, v) && CopyFails(s, v)
    {
      ghost var before := S();
      PageSharedKeepsInv(before, leaked, d, c, v);
      PageSharedLost(before, leaked, d, c, v);
      ok := CopyPage(d, c, v);
      CopyPageForks(s, before, S(), leaked, d, c, v, ok);
      p := v + 1;
      if ok {
        CopyGoesOn(s, before, S(), d, c, v);
      } else {
        CopyStops(s, before, c, v);
      }
    }

    /** copyuvm's error exit. */
    method UndoFork(d: nat, c: nat, ghost s: State, ghost p: nat)
      requires Valid() && Forked(s, S(), d, c, p) && p * PGSIZE <= KERNBASE
      modifies `mem, `cnt, `free, `freepgCnt, `tables, `ptes, `dirs
      ensures Valid() && dirs == s.dirs && AllSame(s, S()) && Lost(S()) == old(Lost(S()))
    {
      ghost var full := S();
      Freevm(c, p);
      ForkUndone(s, full, S(), d, c, p);
    }

    /** copyuvm's loop and its error exit. */
    method CopyPages(d: nat, c: nat, sz: nat, ghost s: State) returns (ok: bool)
      requires Valid() && d in s.dirs && Prefix(s.ptes, d, Pages(sz)) && sz <= KERNBASE && Copying(s, S(), d, c, 0)
      modifies `mem, `cnt, `free, `freepgCnt, `tables, `ptes, `dirs
      ensures Valid() && Lost(S()) == old(Lost(S())) && (ok <==> |s.free| >= SETUP_FRAMES + UserTables(Pages(sz)))
      ensures ok ==> Forked(s, S(), d, c, Pages(sz)) && SharedPages(ptes, d, c, Pages(sz))
      ensures !ok ==> dirs == s.dirs && AllSame(s, S())
    {
      PagesFit(sz, sz);
      var i := 0;
      ghost var p := 0;
      while i < sz
        invariant i == p * PGSIZE && p <= Pages(sz)
        invariant Valid() && Copying(s, S(), d, c, p) && Lost(S()) == old(Lost(S()))
      {
        AtPage(i, p, sz);
        ghost var v := p;
        ok, p := CopyStep(d, c, i / PGSIZE, s);
        if !ok {
          TooFewFrames(s, v, Pages(sz));
          UndoFork(d, c, s, v);
          return;
        }
        i := i + PGSIZE;
      }
      PagesBelow(sz, p);
      ok := true;
    }

    /** copyuvm: a directory that shows what d shows, all of whose pages are shared read-only, exactly
        when there are frames for the directory, the tables that kmap needs and those of the pages. On
        failure the copy is freed again; no address space shows a difference either way, and no frame is
        lost unless setupkvm already failed. */
    method Copyuvm(d: nat, sz: nat) returns (r: Option<nat>)
      requires Valid() && d in dirs && Prefix(ptes, d, Pages(sz)) && sz <= KERNBASE
      modifies `mem, `cnt, `free, `freepgCnt, `tables, `ptes, `dirs
      ensures Valid()
      ensures r.Some? <==> old(|free|) >= SETUP_FRAMES + UserTables(Pages(sz))
      ensures r == None ==> dirs == old(dirs) && AllSame(old(S()), S())
      ensures r.Some? ==> Forked(old(S()), S(), d, r.value, Pages(sz))
      ensures r.Some? ==> SharedPages(ptes, d, r.value, Pages(sz))
      ensures Lost(S()) == if old(|free|) >= SETUP_FRAMES then old(Lost(S())) else old(Lost(S())) + Listed(old(free))
    {
      var child := Setupkvm();
      if child == None {
        return None;
      }
      var c := child.value;
      ForkedStart(old(S()), S(), d, c);
      var ok := CopyPages(d, c, sz, old(S()));
      r := if ok then Some(c) else None;
    }

    // ----- page faults and user accesses -----

    /** copyuvm_cow's bookkeeping once it has frame m: count it, uncount the old one, copy, remap. */
    method CopyInto(d: nat, v: nat, m: nat)
      requires CanShare(S(), d, v) && m < |mem|
      modifies `mem, `cnt, `ptes
      ensures S() == Copied(old(S()), (d, v), m)
    {
      var pte := ptes[(d, v)];
      IncrRtable(m);
      DecrRtable(pte.frame);
      mem := mem[m := mem[pte.frame]];
      ptes := ptes[(d, v) := Pte(m, true, pte.u)];
    }

    /** The copying branch of copyuvm_cow; false is the null result, which follows a freevm. */
    method CopyFrame(d: nat, v: nat, ghost n: nat) returns (ok: bool)
      requires Valid() && d in dirs && CanShare(S(), d, v) && cnt[ptes[(d, v)].frame] != 1
      requires Prefix(ptes, d, n) && n * PGSIZE <= KERNBASE
      modifies `mem, `cnt, `free, `freepgCnt, `tables, `ptes, `dirs
      ensures ok <==> old(free) != []
      ensures !ok ==> Valid() && Gone(old(S()), S(), d) && Lost(S()) == old(Lost(S()))
      ensures ok ==> old(free[0] < |mem|) && S() == Copied(Take(old(S())), (d, v), old(free[0]))
    {
      var page := Kalloc();
      if page == None {
        Freevm(d, n);
        return false;
      }
      CopyInto(d, v, page.value);
      ok := true;
    }

    /** copyuvm_cow on a present page. */
    method CopyPresent(d: nat, v: nat, ghost n: nat) returns (ok: bool)
      requires Valid() && d in dirs && (d, v) in ptes && Prefix(ptes, d, n) && n * PGSIZE <= KERNBASE
      modifies `mem, `cnt, `free, `freepgCnt, `tables, `ptes, `dirs
      ensures old(CanShare(S(), d, v) && FreeFramesExist(S()))
      ensures ok <==> old(free) != [] || old(cnt[ptes[(d, v)].frame]) == 1
      ensures ok ==> S() == Faulted(old(S()), (d, v))
      ensures !ok ==> Valid() && Gone(old(S()), S(), d) && Lost(S()) == old(Lost(S()))
    {
      MappedIsCounted(S(), leaked, (d, v));
      var pte := ptes[(d, v)];
      if cnt[pte.frame] == 1 {
        ptes := ptes[(d, v) := pte.(w := true)];
        ok := true;
      } else {
        ok := CopyFrame(d, v, n);
      }
    }

    /** copyuvm_cow on an entry that is zero: the address it finds there is frame 0, whose count is
        not 1, and the entry it writes has no PTE_P. */
    method CopyAbsent(d: nat, ghost n: nat) returns (ok: bool)
      requires Valid() && d in dirs && Prefix(ptes, d, n) && n * PGSIZE <= KERNBASE
      modifies `mem, `cnt, `free, `freepgCnt, `tables, `ptes, `dirs
      ensures ok <==> old(free) != []
      ensures ok ==> old(free[0] < |mem| == |cnt|) && S() == FaultedAbsent(old(S())) && forall l :: !Inv(S(), l)
      ensures !ok ==> Valid() && Gone(old(S()), S(), d) && Lost(S()) == old(Lost(S()))
    {
      ghost var s := S();
      assert s.InRange(d);
      FrameZeroUncounted(s, leaked);
      var page := Kalloc();
      if page == None {
        Freevm(d, n);
        return false;
      }
      AbsentFaultBreaksInv(s, leaked);
      IncrRtable(page.value);
      mem := mem[page.value := mem[0]];
      DecrRtable(0);
      assert S() == FaultedAbsent(s);
      ok := true;
    }

    /** copyuvm_cow at any user address; false is the null result, which follows a freevm. */
    method CopyuvmCow(d: nat, va: nat, ghost n: nat) returns (ok: bool)
      requires Valid() && d in dirs && va < KERNBASE && Prefix(ptes, d, n) && n * PGSIZE <= KERNBASE
      modifies `mem, `cnt, `free, `freepgCnt, `tables, `ptes, `dirs
      ensures old(MayFault(S(), (d, va / PGSIZE)))
      ensures ok <==> TableKey((d, va / PGSIZE)) in old(tables) && old(FaultSucceeds(S(), (d, va / PGSIZE)))
      ensures ok ==> S() == FaultedAnywhere(old(S()), (d, va / PGSIZE))
      ensures ok && (d, va / PGSIZE) !in old(ptes) ==> forall l :: !Inv(S(), l)
      ensures !ok ==> Valid() && Gone(old(S()), S(), d) && Lost(S()) == old(Lost(S()))
    {
      AnyEntryMayFault(S(), leaked, (d, va / PGSIZE));
      NoTableOrEntry(S(), leaked, (d, va / PGSIZE));
      var found := Walkpgdir(d, va / PGSIZE, false);
      if !found {
        Freevm(d, n);
        ok := false;
      } else if (d, va / PGSIZE) in ptes {
        ok := CopyPresent(d, va / PGSIZE, n);
      } else {
        ok := CopyAbsent(d, n);
      }
    }

    /** The T_PGFLT branch of trap(), at any user address. */
    method PageFault(d: nat, va: nat, ghost n: nat) returns (r: FaultResult)
      requires Valid() && d in dirs && va < KERNBASE && Prefix(ptes, d, n) && n * PGSIZE <= KERNBASE
      modifies `mem, `cnt, `free, `freepgCnt, `tables, `ptes, `dirs
      ensures old(MayFault(S(), (d, va / PGSIZE)))
      ensures r.Killed? <==> TableKey((d, va / PGSIZE)) !in old(tables)
      ensures r.Panicked? <==> TableKey((d, va / PGSIZE)) in old(tables) && !old(FaultSucceeds(S(), (d, va / PGSIZE)))
      ensures r.Killed? || r.Resumed? ==> S() == Trapped(old(S()), (d, va / PGSIZE))
      ensures r.Resumed? && (d, va / PGSIZE) !in old(ptes) ==> forall l :: !Inv(S(), l)
      ensures r.Panicked? ==> Valid() && Gone(old(S()), S(), d) && Lost(S()) == old(Lost(S()))
    {
      AnyEntryMayFault(S(), leaked, (d, va / PGSIZE));
      var found := Walkpgdir(d, va / PGSIZE, false);
      if !found {
        return Killed;
      }
      var ok := CopyuvmCow(d, va, n);
      r := if ok then Resumed else Panicked;
    }

    /** A store instruction on a writable page. */
    method StoreByte(d: nat, va: nat, b: Byte)
      requires Valid() && (d, va / PGSIZE) in ptes && ptes[(d, va / PGSIZE)].w
      modifies `mem
      ensures Valid() && Stored(old(S()), S(), (d, va / PGSIZE), va % PGSIZE, b) && Lost(S()) == old(Lost(S()))
    {
      assert EntryOk(S(), (d, va / PGSIZE));
      var f := ptes[(d, va / PGSIZE)].frame;
      StoreIsPrivate(S(), leaked, (d, va / PGSIZE), mem[f][va % PGSIZE := b]);
      PageLost(S(), f, mem[f][va % PGSIZE := b]);
      mem := mem[f := mem[f][va % PGSIZE := b]];
      assert S() == WithPage(old(S()), f, old(mem)[f][va % PGSIZE := b]);
    }

    /** The faults a store takes before it can go through. */
    method MakeWritable(d: nat, va: nat, ghost n: nat) returns (r: FaultResult)
      requires Valid() && d in dirs && (d, va / PGSIZE) in ptes && Prefix(ptes, d, n) && n * PGSIZE <= KERNBASE
      modifies `mem, `cnt, `free, `freepgCnt, `tables, `ptes, `dirs
      ensures !r.Killed? && (r.Panicked? <==> old(StorePanics(S(), (d, va / PGSIZE))))
      ensures r.Resumed? ==> Valid() && AllSame(old(S()), S()) && dirs == old(dirs)
      ensures r.Resumed? ==> (d, va / PGSIZE) in ptes && ptes[(d, va / PGSIZE)].w && Lost(S()) == old(Lost(S()))
    {
      assert EntryOk(S(), (d, va / PGSIZE));
      r := Resumed;
      if !ptes[(d, va / PGSIZE)].w {
        ghost var before := S();
        UserAddress(ptes, d, va, n);
        r := PageFault(d, va, n);
        if r.Resumed? {
          FaultedIsWritable(before, S(), leaked, (d, va / PGSIZE));
        }
      }
    }

    /** A user store: a write-protected page faults first, then the store is retried. */
    method UserStore(d: nat, va: nat, b: Byte, ghost n: nat) returns (r: FaultResult)
      requires Valid() && d in dirs && (d, va / PGSIZE) in ptes && Prefix(ptes, d, n) && n * PGSIZE <= KERNBASE
      modifies `mem, `cnt, `free, `freepgCnt, `tables, `ptes, `dirs
      ensures !r.Killed? && (r.Panicked? <==> old(StorePanics(S(), (d, va / PGSIZE))))
      ensures r.Resumed? ==> Valid() && Stored(old(S()), S(), (d, va / PGSIZE), va % PGSIZE, b)
      ensures r.Resumed? ==> Lost(S()) == old(Lost(S()))
    {
      r := MakeWritable(d, va, n);
      if r.Resumed? {
        ghost var before := S();
        StoreByte(d, va, b);
        StoredAfter(old(S()), before, S(), (d, va / PGSIZE), va % PGSIZE, b);
      }
    }

    method UserLoad(d: nat, va: nat) returns (b: Byte)
      requires Valid() && (d, va / PGSIZE) in ptes && ptes[(d, va / PGSIZE)].frame < |mem|
      ensures b == mem[ptes[(d, va / PGSIZE)].frame][va % PGSIZE]
    {
      b := mem[ptes[(d, va / PGSIZE)].frame][va % PGSIZE];
    }
  }
}
