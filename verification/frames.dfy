/** Physical frames, their reference counts and the user page tables that name them: the state that
    kalloc.c and vm.c share, and the invariant that copy-on-write rests on. */
module Frames {
  import opened Blocks

  const PGSIZE := 4096
  const NPTENTRIES := 1024
  const NPDENTRIES := 1024
  const KERNBASE := 0x8000_0000

  type Page = p: seq<Byte> | |p| == 4096 witness seq(4096, _ => 0)

  function Filled(b: Byte): Page {
    seq(PGSIZE, _ => b)
  }

  /** A present entry: its frame, PTE_W and PTE_U. */
  datatype Pte = Pte(frame: nat, w: bool, u: bool)

  /** A page directory's frame with a page number (for entries) or a directory index (for tables). */
  type Key = (nat, nat)

  /** `end` is the first frame past the kernel image, cnt is rtable.cnt, free and freepgCnt are kmem's.
      A page directory is named by its frame; tables holds the page-table page of each present
      directory entry, ptes every present user entry. */
  datatype State = State(
    end: nat, mem: seq<Page>, cnt: seq<int>, free: seq<nat>, freepgCnt: int,
    dirs: set<nat>, tables: map<Key, nat>, ptes: map<Key, Pte>)
  {
    predicate InRange(f: nat) {
      end <= f < |mem|
    }
  }

  /** The entries, over all page tables, that name frame f. */
  function Refs(ptes: map<Key, Pte>, f: nat): set<Key> {
    set k | k in ptes && ptes[k].frame == f
  }

  function RefCount(ptes: map<Key, Pte>, f: nat): nat {
    |Refs(ptes, f)|
  }

  // ----- the invariant -----

  ghost predicate FreeListOk(s: State) {
    && |s.cnt| == |s.mem| && s.freepgCnt == |s.free|
    && (forall i :: 0 <= i < |s.free| ==> s.InRange(s.free[i]) && s.cnt[s.free[i]] == 0)
    && (forall i, j :: 0 <= i < j < |s.free| ==> s.free[i] != s.free[j])
  }

  /** A frame that is neither free nor counted. */
  predicate Plain(s: State, f: nat)
    requires |s.cnt| == |s.mem|
  {
    s.InRange(f) && s.cnt[f] == 0 && f !in s.free
  }

  ghost predicate TablesOk(s: State)
    requires |s.cnt| == |s.mem|
  {
    && (forall d :: d in s.dirs ==> Plain(s, d))
    && (forall k :: k in s.tables ==> k.0 in s.dirs && Plain(s, s.tables[k]) && s.tables[k] !in s.dirs)
    && (forall k, l :: k in s.tables && l in s.tables && s.tables[k] == s.tables[l] ==> k == l)
  }

  /** Where the page table that holds entry k is listed. */
  function TableKey(k: Key): Key {
    (k.0, k.1 / NPTENTRIES)
  }

  predicate EntryOk(s: State, k: Key)
    requires |s.cnt| == |s.mem| && k in s.ptes
  {
    && k.0 in s.dirs && TableKey(k) in s.tables
    && s.InRange(s.ptes[k].frame)
    && (s.ptes[k].w ==> s.cnt[s.ptes[k].frame] == 1)
  }

  ghost predicate EntriesOk(s: State)
    requires |s.cnt| == |s.mem|
  {
    forall k :: k in s.ptes ==> EntryOk(s, k)
  }

  /** Each count is the number of entries naming the frame, one more for a leaked frame. */
  ghost predicate CountsOk(cnt: seq<int>, ptes: map<Key, Pte>, leaked: set<nat>) {
    && (forall f :: 0 <= f < |cnt| ==> cnt[f] == RefCount(ptes, f) + (if f in leaked then 1 else 0))
    && (forall f :: f in leaked ==> RefCount(ptes, f) == 0 && f < |cnt|)
  }

  ghost predicate Inv(s: State, leaked: set<nat>) {
    FreeListOk(s) && TablesOk(s) && EntriesOk(s) && CountsOk(s.cnt, s.ptes, leaked)
  }

  // ----- what the user sees -----

  datatype UserPage = UserPage(data: Page, u: bool)

  function PagesOf(ptes: map<Key, Pte>, d: nat): set<nat> {
    set k | k in ptes && k.0 == d :: k.1
  }

  function PageAt(s: State, f: nat): Page {
    if f < |s.mem| then s.mem[f] else Filled(0)
  }

  /** What address space d shows at each of its pages. */
  ghost function View(s: State, d: nat): map<nat, UserPage> {
    map v | v in PagesOf(s.ptes, d) && (d, v) in s.ptes :: UserPage(PageAt(s, s.ptes[(d, v)].frame), s.ptes[(d, v)].u)
  }

  /** Address space d shows the same at page v in s and t. */
  predicate SamePage(s: State, t: State, k: Key)
    requires k in s.ptes && k in t.ptes
  {
    && s.ptes[k].frame < |s.mem| && t.ptes[k].frame < |t.mem|
    && s.mem[s.ptes[k].frame] == t.mem[t.ptes[k].frame] && s.ptes[k].u == t.ptes[k].u
  }

  ghost predicate AllSame(s: State, t: State) {
    s.ptes.Keys == t.ptes.Keys && forall k :: k in s.ptes ==> SamePage(s, t, k)
  }

  /** Page-table pages stay in order when they stay plain. */
  lemma TablesCarry(s: State, t: State)
    requires |s.cnt| == |s.mem| && |t.cnt| == |t.mem| && TablesOk(s)
    requires t.dirs == s.dirs && t.tables == s.tables
    requires forall f :: Plain(s, f) ==> Plain(t, f)
    ensures TablesOk(t)
  {
  }

  // ----- how the reference counts move -----

  lemma CountAdd(ptes: map<Key, Pte>, k: Key, p: Pte, f: nat)
    requires k !in ptes
    ensures RefCount(ptes[k := p], f) == RefCount(ptes, f) + (if f == p.frame then 1 else 0)
  {
    assert Refs(ptes[k := p], f) == if f == p.frame then Refs(ptes, f) + {k} else Refs(ptes, f);
  }

  lemma CountDrop(ptes: map<Key, Pte>, k: Key, f: nat)
    requires k in ptes
    ensures RefCount(ptes - {k}, f) == RefCount(ptes, f) - (if f == ptes[k].frame then 1 else 0)
  {
    assert Refs(ptes - {k}, f) == if f == ptes[k].frame then Refs(ptes, f) - {k} else Refs(ptes, f);
  }

  lemma CountMove(ptes: map<Key, Pte>, k: Key, p: Pte, f: nat)
    requires k in ptes
    ensures RefCount(ptes[k := p], f) ==
            RefCount(ptes, f) - (if f == ptes[k].frame then 1 else 0) + (if f == p.frame then 1 else 0)
  {
    CountDrop(ptes, k, f);
    CountAdd(ptes - {k}, k, p, f);
    assert (ptes - {k})[k := p] == ptes[k := p];
  }

  lemma CountsFlag(cnt: seq<int>, ptes: map<Key, Pte>, leaked: set<nat>, k: Key, w: bool)
    requires CountsOk(cnt, ptes, leaked) && k in ptes
    ensures CountsOk(cnt, ptes[k := ptes[k].(w := w)], leaked)
  {
    forall f: nat ensures RefCount(ptes[k := ptes[k].(w := w)], f) == RefCount(ptes, f) {
      CountMove(ptes, k, ptes[k].(w := w), f);
    }
  }

  lemma CountsUnleak(cnt: seq<int>, ptes: map<Key, Pte>, leaked: set<nat>, k: Key, p: Pte)
    requires CountsOk(cnt, ptes, leaked + {p.frame}) && k !in ptes && p.frame !in leaked
    ensures CountsOk(cnt, ptes[k := p], leaked)
  {
    forall f: nat ensures RefCount(ptes[k := p], f) == RefCount(ptes, f) + (if f == p.frame then 1 else 0) {
      CountAdd(ptes, k, p, f);
    }
    assert RefCount(ptes, p.frame) == 0 && p.frame in leaked + {p.frame};
  }

  lemma CountsAdd(cnt: seq<int>, ptes: map<Key, Pte>, leaked: set<nat>, k: Key, p: Pte)
    requires CountsOk(cnt, ptes, leaked) && k !in ptes && p.frame !in leaked && p.frame < |cnt|
    ensures CountsOk(cnt[p.frame := cnt[p.frame] + 1], ptes[k := p], leaked)
  {
    forall f: nat ensures RefCount(ptes[k := p], f) == RefCount(ptes, f) + (if f == p.frame then 1 else 0) {
      CountAdd(ptes, k, p, f);
    }
  }

  lemma CountsDrop(cnt: seq<int>, ptes: map<Key, Pte>, leaked: set<nat>, k: Key)
    requires CountsOk(cnt, ptes, leaked) && k in ptes && ptes[k].frame !in leaked && ptes[k].frame < |cnt|
    ensures CountsOk(cnt[ptes[k].frame := cnt[ptes[k].frame] - 1], ptes - {k}, leaked)
  {
    forall f: nat ensures RefCount(ptes - {k}, f) == RefCount(ptes, f) - (if f == ptes[k].frame then 1 else 0) {
      CountDrop(ptes, k, f);
    }
  }

  /** An entry moves to a frame counted in advance; its old frame is counted once less. */
  lemma CountsMove(cnt: seq<int>, ptes: map<Key, Pte>, leaked: set<nat>, k: Key, p: Pte)
    requires CountsOk(cnt, ptes, leaked + {p.frame}) && k in ptes && p.frame !in leaked
    requires p.frame != ptes[k].frame && ptes[k].frame !in leaked && ptes[k].frame < |cnt|
    ensures CountsOk(cnt[ptes[k].frame := cnt[ptes[k].frame] - 1], ptes[k := p], leaked)
  {
    CountsDrop(cnt, ptes, leaked + {p.frame}, k);
    CountsUnleak(cnt[ptes[k].frame := cnt[ptes[k].frame] - 1], ptes - {k}, leaked, k, p);
    assert (ptes - {k})[k := p] == ptes[k := p];
  }

  /** A named frame has a positive count, and a count of one means a single name. */
  lemma CountOfNamed(ptes: map<Key, Pte>, k: Key, l: Key)
    requires k in ptes && l in ptes && ptes[k].frame == ptes[l].frame
    ensures RefCount(ptes, ptes[k].frame) >= 1
    ensures RefCount(ptes, ptes[k].frame) == 1 ==> k == l
  {
    var r := Refs(ptes, ptes[k].frame);
    assert k in r && l in r;
    assert |r - {k}| == |r| - 1;
    if k != l {
      assert l in r - {k};
    }
  }

  /** A mapped frame is counted, so it is neither free, leaked nor a page-table page. */
  lemma MappedIsCounted(s: State, leaked: set<nat>, k: Key)
    requires Inv(s, leaked) && k in s.ptes
    ensures var f := s.ptes[k].frame; s.InRange(f) && s.cnt[f] == RefCount(s.ptes, f) >= 1 && f !in leaked
  {
    CountOfNamed(s.ptes, k, k);
  }

  lemma UncountedIsUnmapped(s: State, leaked: set<nat>, f: nat)
    requires Inv(s, leaked) && f < |s.cnt| && s.cnt[f] == 0
    ensures forall k :: k in s.ptes ==> s.ptes[k].frame != f
    ensures f !in leaked && RefCount(s.ptes, f) == 0
  {
    forall k | k in s.ptes ensures s.ptes[k].frame != f {
      MappedIsCounted(s, leaked, k);
    }
  }

  lemma LeakedIsUnmapped(s: State, leaked: set<nat>, f: nat)
    requires Inv(s, leaked) && f in leaked
    ensures forall k :: k in s.ptes ==> s.ptes[k].frame != f
  {
    forall k | k in s.ptes ensures s.ptes[k].frame != f {
      MappedIsCounted(s, leaked, k);
    }
  }

  /** No second entry names a frame that is counted once. */
  lemma SoleName(s: State, leaked: set<nat>, k: Key, l: Key)
    requires Inv(s, leaked) && k in s.ptes && l in s.ptes && s.ptes[k].frame == s.ptes[l].frame
    requires s.ptes[k].frame < |s.cnt| && s.cnt[s.ptes[k].frame] == 1
    ensures k == l
  {
    MappedIsCounted(s, leaked, k);
    CountOfNamed(s.ptes, k, l);
  }

  // ----- the transitions -----

  /** kalloc's effect when the free list is not empty. */
  function Take(s: State): State
    requires s.free != []
  {
    s.(free := s.free[1..], freepgCnt := s.freepgCnt - 1)
  }

  /** kfree: only a frame with count zero goes back, filled with junk. */
  function Kfreed(s: State, f: nat): State
    requires f < |s.cnt| && f < |s.mem|
  {
    if s.cnt[f] == 0 then
      s.(mem := s.mem[f := Filled(1)], free := [f] + s.free, freepgCnt := s.freepgCnt + 1)
    else s
  }

  function Counted(s: State, f: nat, delta: int): State
    requires f < |s.cnt|
  {
    s.(cnt := s.cnt[f := s.cnt[f] + delta])
  }

  function WithPage(s: State, f: nat, p: Page): State
    requires f < |s.mem|
  {
    s.(mem := s.mem[f := p])
  }

  function WithPte(s: State, k: Key, p: Pte): State {
    s.(ptes := s.ptes[k := p])
  }

  /** A frame that nothing owns: taken, but not yet given a use. */
  ghost predicate Loose(s: State, f: nat)
    requires |s.cnt| == |s.mem|
  {
    Plain(s, f) && f !in s.dirs && f !in s.tables.Values
  }

  /** The frame taken for a page-table page or a directory keeps count zero. */
  lemma TakeKeepsInv(s: State, leaked: set<nat>)
    requires Inv(s, leaked) && s.free != []
    ensures Inv(Take(s), leaked) && Loose(Take(s), s.free[0]) && s.free[0] !in leaked
    ensures AllSame(s, Take(s))
    ensures forall k :: k in s.ptes ==> s.ptes[k].frame != s.free[0]
  {
    UncountedIsUnmapped(s, leaked, s.free[0]);
    forall k | k in s.ptes ensures SamePage(s, Take(s), k) {
      assert EntryOk(s, k);
    }
  }

  lemma PageWriteKeepsInv(s: State, leaked: set<nat>, f: nat, p: Page)
    requires Inv(s, leaked) && f < |s.mem|
    ensures Inv(WithPage(s, f, p), leaked)
  {
  }

  lemma AddTableKeepsInv(s: State, leaked: set<nat>, k: Key, f: nat)
    requires Inv(s, leaked) && Loose(s, f) && k.0 in s.dirs && k !in s.tables
    ensures Inv(s.(tables := s.tables[k := f]), leaked)
  {
    var t := s.(tables := s.tables[k := f]);
    assert forall l :: l in s.tables ==> s.tables[l] in s.tables.Values;
  }

  lemma AddDirKeepsInv(s: State, leaked: set<nat>, d: nat)
    requires Inv(s, leaked) && Loose(s, d)
    ensures Inv(s.(dirs := s.dirs + {d}), leaked)
    ensures forall k: Key :: k.0 == d ==> k !in s.ptes && k !in s.tables
  {
    assert forall l :: l in s.tables ==> s.tables[l] in s.tables.Values;
  }

  /** Raising the count of a loose frame makes it a leaked one until it is mapped. */
  lemma CountLooseKeepsInv(s: State, leaked: set<nat>, f: nat)
    requires Inv(s, leaked) && Loose(s, f)
    ensures Inv(Counted(s, f, 1), leaked + {f}) && f !in leaked
  {
    UncountedIsUnmapped(s, leaked, f);
    var t := Counted(s, f, 1);
    assert TablesOk(t) by {
      assert forall l :: l in s.tables ==> s.tables[l] in s.tables.Values;
    }
    forall l | l in t.ptes ensures EntryOk(t, l) {
      assert EntryOk(s, l);
    }
  }

  lemma MapCountedEntries(s: State, leaked: set<nat>, k: Key, p: Pte)
    requires Inv(s, leaked + {p.frame}) && p.frame !in leaked && s.InRange(p.frame)
    requires k !in s.ptes && k.0 in s.dirs && TableKey(k) in s.tables
    ensures EntriesOk(WithPte(s, k, p))
  {
    var t := WithPte(s, k, p);
    assert p.frame in leaked + {p.frame};
    assert s.cnt[p.frame] == 1;
    forall l | l in t.ptes ensures EntryOk(t, l) {
      if l != k {
        assert EntryOk(s, l);
      }
    }
  }

  /** Mapping a frame whose count was raised first. */
  lemma MapCountedKeepsInv(s: State, leaked: set<nat>, k: Key, p: Pte)
    requires Inv(s, leaked + {p.frame}) && p.frame !in leaked && s.InRange(p.frame)
    requires k !in s.ptes && k.0 in s.dirs && TableKey(k) in s.tables
    ensures Inv(WithPte(s, k, p), leaked)
  {
    MapCountedEntries(s, leaked, k, p);
    CountsUnleak(s.cnt, s.ptes, leaked, k, p);
    TablesCarry(s, WithPte(s, k, p));
  }

  lemma FlagKeepsInv(s: State, leaked: set<nat>, k: Key, w: bool)
    requires Inv(s, leaked) && k in s.ptes
    requires w ==> s.ptes[k].frame < |s.cnt| && s.cnt[s.ptes[k].frame] == 1
    ensures Inv(WithPte(s, k, s.ptes[k].(w := w)), leaked)
    ensures AllSame(s, WithPte(s, k, s.ptes[k].(w := w)))
  {
    var t := WithPte(s, k, s.ptes[k].(w := w));
    CountsFlag(s.cnt, s.ptes, leaked, k, w);
    forall l | l in t.ptes ensures EntryOk(t, l) {
      assert EntryOk(s, l);
    }
  }

  /** copyuvm's loop: the child's entry names the parent's frame, which is counted once more. */
  function Shared(s: State, from: Key, to: Key): State
    requires from in s.ptes && s.ptes[from].frame < |s.cnt|
  {
    Counted(WithPte(s, to, s.ptes[from]), s.ptes[from].frame, 1)
  }

  lemma ShareKeepsInv(s: State, leaked: set<nat>, from: Key, to: Key)
    requires Inv(s, leaked) && from in s.ptes && !s.ptes[from].w
    requires to !in s.ptes && to.0 in s.dirs && TableKey(to) in s.tables
    ensures s.ptes[from].frame < |s.cnt| && Inv(Shared(s, from, to), leaked)
    ensures forall k :: k in s.ptes ==> SamePage(s, Shared(s, from, to), k)
  {
    MappedIsCounted(s, leaked, from);
    CountsAdd(s.cnt, s.ptes, leaked, to, s.ptes[from]);
    var t := Shared(s, from, to);
    TablesCarry(s, t);
    forall k | k in t.ptes ensures EntryOk(t, k) {
      assert EntryOk(s, if k == to then from else k);
      if k != to && s.ptes[k].w && s.ptes[k].frame == s.ptes[from].frame {
        SoleName(s, leaked, from, k);
      }
    }
  }

  /** The step of deallocuvm on a present page: uncount, free, clear the entry. */
  function Unmapped(s: State, k: Key): State
    requires k in s.ptes && s.ptes[k].frame < |s.cnt| && |s.cnt| == |s.mem|
  {
    var f := s.ptes[k].frame;
    Kfreed(Counted(s, f, -1), f).(ptes := s.ptes - {k})
  }

  lemma UnmapEntries(s: State, leaked: set<nat>, k: Key)
    requires Inv(s, leaked) && k in s.ptes
    ensures s.ptes[k].frame < |s.cnt|
    ensures forall l :: l in Unmapped(s, k).ptes ==> EntryOk(Unmapped(s, k), l) && SamePage(s, Unmapped(s, k), l)
  {
    var t, f := Unmapped(s, k), s.ptes[k].frame;
    MappedIsCounted(s, leaked, k);
    forall l | l in t.ptes ensures EntryOk(t, l) && SamePage(s, t, l) {
      assert EntryOk(s, l);
      if s.ptes[l].frame == f && s.cnt[f] == 1 {
        SoleName(s, leaked, k, l);
      }
    }
  }

  /** A frame whose last count goes returns to a list it was not on. */
  lemma UnmapFreeList(s: State, leaked: set<nat>, k: Key)
    requires Inv(s, leaked) && k in s.ptes
    ensures s.ptes[k].frame < |s.cnt| && FreeListOk(Unmapped(s, k))
    ensures forall f :: Plain(s, f) ==> Plain(Unmapped(s, k), f)
  {
    MappedIsCounted(s, leaked, k);
    assert s.ptes[k].frame !in s.free;
  }

  lemma UnmapKeepsInv(s: State, leaked: set<nat>, k: Key)
    requires Inv(s, leaked) && k in s.ptes
    ensures s.ptes[k].frame < |s.cnt| && Inv(Unmapped(s, k), leaked)
    ensures forall l :: l in Unmapped(s, k).ptes ==> SamePage(s, Unmapped(s, k), l)
  {
    MappedIsCounted(s, leaked, k);
    CountsDrop(s.cnt, s.ptes, leaked, k);
    UnmapEntries(s, leaked, k);
    UnmapFreeList(s, leaked, k);
    TablesCarry(s, Unmapped(s, k));
  }

  // ----- a page-table page -----

  /** walkpgdir's allocation of the page table listed at k. */
  function WithTable(s: State, k: Key): State
    requires s.free != [] && s.free[0] < |s.mem|
  {
    WithPage(Take(s), s.free[0], Filled(0)).(tables := s.tables[k := s.free[0]])
  }

  lemma WithTableKeepsInv(s: State, leaked: set<nat>, k: Key)
    requires Inv(s, leaked) && s.free != [] && k.0 in s.dirs && k !in s.tables
    ensures s.free[0] < |s.mem| && Inv(WithTable(s, k), leaked) && AllSame(s, WithTable(s, k))
  {
    TakeKeepsInv(s, leaked);
    var f := s.free[0];
    PageWriteKeepsInv(Take(s), leaked, f, Filled(0));
    AddTableKeepsInv(WithPage(Take(s), f, Filled(0)), leaked, k, f);
    assert AllSame(s, WithTable(s, k)) by {
      forall l | l in s.ptes ensures SamePage(s, WithTable(s, k), l) {
        assert EntryOk(s, l);
      }
    }
  }

  // ----- the page fault -----

  /** copyuvm_cow on a shared page, m being the frame just allocated. */
  function Copied(s: State, k: Key, m: nat): State
    requires k in s.ptes && s.ptes[k].frame < |s.mem| && m < |s.mem| == |s.cnt|
  {
    var p := s.ptes[k];
    Counted(WithPte(WithPage(Counted(s, m, 1), m, s.mem[p.frame]), k, Pte(m, true, p.u)), p.frame, -1)
  }

  lemma RetargetKeepsInv(s: State, leaked: set<nat>, k: Key, m: nat)
    requires Inv(s, leaked + {m}) && m !in leaked && s.InRange(m) && k in s.ptes && s.ptes[k].frame < |s.cnt|
    requires s.cnt[s.ptes[k].frame] != 1
    ensures Inv(Counted(WithPte(s, k, Pte(m, true, s.ptes[k].u)), s.ptes[k].frame, -1), leaked)
  {
    var f := s.ptes[k].frame;
    assert m in leaked + {m};
    MappedIsCounted(s, leaked + {m}, k);
    CountsMove(s.cnt, s.ptes, leaked, k, Pte(m, true, s.ptes[k].u));
    var t := Counted(WithPte(s, k, Pte(m, true, s.ptes[k].u)), f, -1);
    assert s.cnt[m] == 1;
    TablesCarry(s, t);
    assert EntryOk(s, k);
    forall l | l in t.ptes ensures EntryOk(t, l) {
      if l != k {
        assert EntryOk(s, l);
      }
    }
  }

  lemma CopyShowsSame(s: State, leaked: set<nat>, k: Key, m: nat)
    requires Inv(s, leaked) && k in s.ptes && Loose(s, m) && s.ptes[k].frame < |s.mem|
    ensures AllSame(s, Copied(s, k, m))
  {
    UncountedIsUnmapped(s, leaked, m);
    forall l | l in s.ptes ensures SamePage(s, Copied(s, k, m), l) {
      assert EntryOk(s, l);
    }
  }

  lemma CopyKeepsInv(s: State, leaked: set<nat>, k: Key, m: nat)
    requires Inv(s, leaked) && k in s.ptes && Loose(s, m)
    requires s.ptes[k].frame < |s.cnt| && s.cnt[s.ptes[k].frame] != 1
    ensures Inv(Copied(s, k, m), leaked)
  {
    UncountedIsUnmapped(s, leaked, m);
    CountLooseKeepsInv(s, leaked, m);
    PageWriteKeepsInv(Counted(s, m, 1), leaked + {m}, m, s.mem[s.ptes[k].frame]);
    RetargetKeepsInv(WithPage(Counted(s, m, 1), m, s.mem[s.ptes[k].frame]), leaked, k, m);
  }

  /** A store to a writable page is seen by its own address space alone. */
  lemma StoreIsPrivate(s: State, leaked: set<nat>, k: Key, p: Page)
    requires Inv(s, leaked) && k in s.ptes && s.ptes[k].w
    ensures s.ptes[k].frame < |s.mem| && Inv(WithPage(s, s.ptes[k].frame, p), leaked)
    ensures forall l :: l in s.ptes && l != k ==> SamePage(s, WithPage(s, s.ptes[k].frame, p), l)
  {
    forall l | l in s.ptes && l != k ensures s.ptes[l].frame != s.ptes[k].frame {
      if s.ptes[l].frame == s.ptes[k].frame {
        SoleName(s, leaked, k, l);
      }
    }
  }

  // ----- no frame goes missing -----

  /** The frames that are not free although nothing owns them. */
  ghost function Lost(s: State): (r: set<nat>)
    requires |s.cnt| == |s.mem|
    ensures forall f :: f in r <==> Loose(s, f)
  {
    set f: nat | f < |s.mem| && Loose(s, f)
  }

  /** Every frame past the kernel is free, counted, a directory, a page table, or lost; and a counted
      frame is named by an entry or was leaked. */
  lemma EveryFrame(s: State, leaked: set<nat>, f: nat)
    requires Inv(s, leaked) && s.InRange(f)
    ensures f in s.free || f in s.dirs || f in s.tables.Values || f in Lost(s) || s.cnt[f] > 0
    ensures s.cnt[f] > 0 ==> f in leaked || exists k :: k in s.ptes && s.ptes[k].frame == f
  {
    if s.cnt[f] > 0 && f !in leaked {
      assert Refs(s.ptes, f) != {};
      var k :| k in Refs(s.ptes, f);
    }
  }

  lemma TableLost(s: State, leaked: set<nat>, k: Key)
    requires Inv(s, leaked) && s.free != [] && k !in s.tables
    ensures s.free[0] < |s.mem| && Lost(WithTable(s, k)) == Lost(s)
  {
    var t := WithTable(s, k);
    assert t.tables.Values == s.tables.Values + {s.free[0]} by {
      assert forall l :: l in s.tables ==> t.tables[l] == s.tables[l];
      assert t.tables[k] == s.free[0];
    }
    forall f ensures Loose(t, f) <==> Loose(s, f) {
    }
  }

  lemma UnmapLost(s: State, leaked: set<nat>, k: Key)
    requires Inv(s, leaked) && k in s.ptes
    ensures s.ptes[k].frame < |s.cnt| && Lost(Unmapped(s, k)) == Lost(s)
  {
    MappedIsCounted(s, leaked, k);
    forall f ensures Loose(Unmapped(s, k), f) <==> Loose(s, f) {
    }
  }

  lemma KfreedLost(s: State, f: nat)
    requires |s.cnt| == |s.mem| && Loose(s, f)
    ensures Lost(Kfreed(s, f)) == Lost(s) - {f}
  {
    forall g ensures Loose(Kfreed(s, f), g) <==> Loose(s, g) && g != f {
    }
  }

  lemma CopiedLost(s: State, leaked: set<nat>, k: Key)
    requires Inv(s, leaked) && k in s.ptes && s.free != [] && s.ptes[k].frame < |s.cnt| && s.cnt[s.ptes[k].frame] != 1
    ensures s.free[0] < |s.mem| && Lost(Copied(Take(s), k, s.free[0])) == Lost(s)
  {
    MappedIsCounted(s, leaked, k);
    forall f ensures Loose(Copied(Take(s), k, s.free[0]), f) <==> Loose(s, f) {
    }
  }

  // ----- how many frames are free -----

  ghost function CountedFrames(s: State): (r: set<nat>)
    ensures forall f: nat :: f in r <==> s.InRange(f) && f < |s.cnt| && s.cnt[f] > 0
  {
    set f: nat | s.InRange(f) && f < |s.cnt| && s.cnt[f] > 0
  }

  function Interval(lo: nat, hi: nat): (r: set<nat>)
    ensures forall f :: f in r <==> lo <= f < hi
    ensures |r| == if lo <= hi then hi - lo else 0
    decreases hi
  {
    if hi <= lo then {} else Interval(lo, hi - 1) + {hi - 1}
  }

  function Listed(l: seq<nat>): (r: set<nat>)
    ensures forall f :: f in r <==> f in l
    ensures (forall i, j :: 0 <= i < j < |l| ==> l[i] != l[j]) ==> |r| == |l|
  {
    if l == [] then {} else Listed(l[1..]) + {l[0]}
  }

  lemma {:induction false} ValuesCount(m: map<Key, nat>)
    requires forall k, l :: k in m && l in m && m[k] == m[l] ==> k == l
    ensures |m.Values| == |m|
    decreases |m|
  {
    if m != map[] {
      var k :| k in m;
      var rest := m - {k};
      ValuesCount(rest);
      assert m.Values == rest.Values + {m[k]} by {
        forall f | f in m.Values ensures f in rest.Values + {m[k]} {
          var l :| l in m && m[l] == f;
          assert l != k ==> l in rest && rest[l] == f;
        }
      }
      assert m[k] !in rest.Values;
      assert m.Keys == rest.Keys + {k};
    } else {
      assert m.Values == {};
    }
  }

  lemma FiveParts(all: set<nat>, a: set<nat>, b: set<nat>, c: set<nat>, d: set<nat>, e: set<nat>)
    requires all == a + b + c + d + e && a !! b && a !! c && a !! d && a !! e
    requires b !! c && b !! d && b !! e && c !! d && c !! e && d !! e
    ensures |all| == |a| + |b| + |c| + |d| + |e|
  {
    assert |a + b| == |a| + |b| && |a + b + c| == |a + b| + |c| && |a + b + c + d| == |a + b + c| + |d|;
  }

  lemma TableFrames(s: State, f: nat)
    requires |s.cnt| == |s.mem| && TablesOk(s) && f in s.tables.Values
    ensures Plain(s, f) && f !in s.dirs
  {
    var k :| k in s.tables && s.tables[k] == f;
  }

  /** The five uses of a frame exclude each other. */
  lemma UsesDiffer(s: State, leaked: set<nat>)
    requires Inv(s, leaked)
    ensures Listed(s.free) !! s.dirs && Listed(s.free) !! s.tables.Values && Listed(s.free) !! CountedFrames(s)
    ensures s.dirs !! s.tables.Values && s.dirs !! CountedFrames(s) && s.tables.Values !! CountedFrames(s)
    ensures Lost(s) !! Listed(s.free) && Lost(s) !! s.dirs && Lost(s) !! s.tables.Values && Lost(s) !! CountedFrames(s)
  {
    forall f | f in s.tables.Values ensures Plain(s, f) && f !in s.dirs {
      TableFrames(s, f);
    }
  }

  lemma Usage(s: State, leaked: set<nat>, f: nat)
    requires Inv(s, leaked)
    ensures s.InRange(f) <==>
            f in s.free || f in s.dirs || f in s.tables.Values || f in CountedFrames(s) || f in Lost(s)
  {
    if s.InRange(f) {
      EveryFrame(s, leaked, f);
    }
    if f in s.tables.Values {
      TableFrames(s, f);
    }
  }

  lemma SameSet(a: set<nat>, b: set<nat>)
    requires forall f: nat :: f in a <==> f in b
    ensures a == b
  {
  }

  lemma UsesCover(s: State, leaked: set<nat>)
    requires Inv(s, leaked)
    ensures Interval(s.end, |s.mem|) == Listed(s.free) + s.dirs + s.tables.Values + CountedFrames(s) + Lost(s)
  {
    var a, b := Interval(s.end, |s.mem|), Listed(s.free) + s.dirs + s.tables.Values + CountedFrames(s) + Lost(s);
    forall f: nat ensures f in a <==> f in b {
      Usage(s, leaked, f);
    }
    SameSet(a, b);
  }

  /** Conservation: the free frames are what the directories, the page tables, the counted frames and
      the lost ones leave of the memory past the kernel. */
  lemma FramesConserved(s: State, leaked: set<nat>)
    requires Inv(s, leaked) && s.end <= |s.mem|
    ensures |s.free| + |s.dirs| + |s.tables| + |CountedFrames(s)| + |Lost(s)| == |s.mem| - s.end
  {
    ValuesCount(s.tables);
    UsesDiffer(s, leaked);
    UsesCover(s, leaked);
    FiveParts(Interval(s.end, |s.mem|), Listed(s.free), s.dirs, s.tables.Values, CountedFrames(s), Lost(s));
  }

  lemma {:induction false} NamedAtMost(ptes: map<Key, Pte>, named: set<nat>)
    requires forall f :: f in named ==> exists k :: k in ptes && ptes[k].frame == f
    ensures |named| <= |ptes|
    decreases |ptes|
  {
    if ptes == map[] {
      assert named == {};
    } else {
      var k :| k in ptes;
      var rest := ptes - {k};
      assert ptes.Keys == rest.Keys + {k};
      forall f | f in named - {ptes[k].frame} ensures exists l :: l in rest && rest[l].frame == f {
        var l :| l in ptes && ptes[l].frame == f;
        assert l in rest && rest[l].frame == f;
      }
      NamedAtMost(rest, named - {ptes[k].frame});
    }
  }

  lemma {:induction false} SubsetCount(a: set<nat>, b: set<nat>)
    requires a <= b
    ensures |a| <= |b|
  {
    if a != {} {
      var x :| x in a;
      SubsetCount(a - {x}, b - {x});
    }
  }

  /** At least so many frames are free: sharing costs no more than a frame for every entry. */
  lemma FreeAtLeast(s: State, leaked: set<nat>)
    requires Inv(s, leaked) && s.end <= |s.mem|
    ensures |s.free| >= |s.mem| - s.end - |s.dirs| - |s.tables| - |s.ptes| - |leaked| - |Lost(s)|
  {
    FramesConserved(s, leaked);
    var named := CountedFrames(s) - leaked;
    forall f | f in named ensures exists k :: k in s.ptes && s.ptes[k].frame == f {
      EveryFrame(s, leaked, f);
    }
    NamedAtMost(s.ptes, named);
    assert CountedFrames(s) <= named + leaked;
    SubsetCount(CountedFrames(s), named + leaked);
  }
}
