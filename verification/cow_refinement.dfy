/** Copy-on-write fork against the eager copyuvm that vm.c keeps as a comment: over every sequence of
    forks, loads, stores, sbrks and exits, every process sees the same bytes under both. */
module CowRefinement {
  import opened Blocks
  import opened Options
  import opened Frames
  import opened Cow

  // ----- the eager semantics: every process owns its pages -----

  datatype Space = Space(sz: nat, pages: map<nat, UserPage>)

  type World = map<nat, Space>

  /** A C int. */
  type Int32 = x: int | -0x8000_0000 <= x < 0x8000_0000

  /** Exit stands for the whole of exit and the parent's wait, which frees the address space. */
  datatype Op =
    | Fork(p: nat, child: nat)
    | Load(p: nat, va: nat)
    | Store(p: nat, va: nat, b: Byte)
    | Sbrk(p: nat, delta: Int32)
    | Exit(p: nat)

  datatype Outcome = Ok | Failed | Loaded(b: Byte)

  predicate UserMapped(w: World, p: nat, va: nat) {
    p in w && va / PGSIZE in w[p].pages && w[p].pages[va / PGSIZE].u
  }

  /** Operations on processes that exist, at addresses they may touch. */
  predicate Legal(w: World, op: Op) {
    match op
    case Fork(p, child) => p in w && child !in w
    case Load(p, va) => UserMapped(w, p, va)
    case Store(p, va, _) => UserMapped(w, p, va)
    case Sbrk(p, _) => p in w
    case Exit(p) => p in w
  }

  function StoredIn(sp: Space, va: nat, b: Byte): Space
    requires va / PGSIZE in sp.pages
  {
    var page := sp.pages[va / PGSIZE];
    sp.(pages := sp.pages[va / PGSIZE := page.(data := page.data[va % PGSIZE := b])])
  }

  /** The pages below n, those not there before being zero. */
  function ResizedPages(pages: map<nat, UserPage>, n: nat): map<nat, UserPage> {
    map v: nat | v < n :: if v in pages then pages[v] else UserPage(Filled(0), true)
  }

  function Resized(sp: Space, newsz: nat): Space {
    Space(newsz, ResizedPages(sp.pages, Pages(newsz)))
  }

  /** The size that sbrk asks for; below zero the 32-bit sum wraps and the size stays. */
  function AskedSize(sz: nat, delta: int): nat {
    if sz + delta < 0 then sz else sz + delta
  }

  /** The sbrk that would leave a process without memory: growproc frees its pages, but takes the size
      0 that deallocuvm returns for a failure and keeps the old one. */
  predicate Empties(w: World, op: Op) {
    op.Sbrk? && op.p in w && w[op.p].sz > 0 && w[op.p].sz + op.delta == 0
  }

  function EagerStep(w: World, op: Op, out: Outcome): World
    requires Legal(w, op)
  {
    if out.Failed? then w else
    match op
    case Fork(p, child) => w[child := w[p]]
    case Load(_, _) => w
    case Store(p, va, b) => w[p := StoredIn(w[p], va, b)]
    case Sbrk(p, delta) =>
      if AskedSize(w[p].sz, delta) == w[p].sz then w else w[p := Resized(w[p], AskedSize(w[p].sz, delta))]
    case Exit(p) => w - {p}
  }

  /** What the user gets back from an operation: the byte of a load; whether fork and a growing sbrk had
      memory is theirs to say. */
  predicate EagerOutcome(w: World, op: Op, out: Outcome)
    requires Legal(w, op)
  {
    match op
    case Load(p, va) => out == Loaded(w[p].pages[va / PGSIZE].data[va % PGSIZE])
    case Store(_, _, _) => out == Ok
    case Exit(_) => out == Ok
    case Sbrk(p, delta) =>
      if delta > 0 then out == Ok || out == Failed
      else out == if delta < 0 && w[p].sz == 0 then Failed else Ok
    case Fork(_, _) => out == Ok || out == Failed
  }

  /** The eager world after ops, given which of them failed; an operation that is not legal when its
      turn comes does nothing. */
  function EagerWorld(w: World, ops: seq<Op>, outs: seq<Outcome>): World
    requires |outs| == |ops|
    decreases |ops|
  {
    if ops == [] then w
    else
      var before := EagerWorld(w, ops[..|ops| - 1], outs[..|ops| - 1]);
      if Legal(before, ops[|ops| - 1]) then EagerStep(before, ops[|ops| - 1], outs[|ops| - 1]) else before
  }

  /** outs is what the eager semantics lets its users see. */
  predicate EagerOutcomes(w: World, ops: seq<Op>, outs: seq<Outcome>)
    requires |outs| == |ops|
    decreases |ops|
  {
    ops == [] ||
    var before := EagerWorld(w, ops[..|ops| - 1], outs[..|ops| - 1]);
    && EagerOutcomes(w, ops[..|ops| - 1], outs[..|ops| - 1])
    && if Legal(before, ops[|ops| - 1]) then EagerOutcome(before, ops[|ops| - 1], outs[|ops| - 1])
       else outs[|ops| - 1] == Failed
  }

  // ----- the copy-on-write kernel -----

  datatype Proc = Proc(pgdir: nat, sz: nat)

  ghost predicate ProcsOk(s: State, procs: map<nat, Proc>) {
    && (forall p :: p in procs ==>
          procs[p].pgdir in s.dirs && procs[p].sz < KERNBASE && Prefix(s.ptes, procs[p].pgdir, Pages(procs[p].sz)))
    && (forall p, q :: p in procs && q in procs && procs[p].pgdir == procs[q].pgdir ==> p == q)
  }

  ghost function WorldOf(s: State, procs: map<nat, Proc>): World
  {
    map p | p in procs :: Space(procs[p].sz, View(s, procs[p].pgdir))
  }

  lemma ViewAt(s: State, d: nat, v: nat)
    ensures v in View(s, d) <==> (d, v) in s.ptes
    ensures v in View(s, d) ==> View(s, d)[v] == UserPage(PageAt(s, s.ptes[(d, v)].frame), s.ptes[(d, v)].u)
  {
    if (d, v) in s.ptes {
      var k: Key := (d, v);
      assert k.0 == d && k.1 == v && v in PagesOf(s.ptes, d);
    }
  }

  lemma ViewSame(s: State, t: State, d: nat)
    requires forall v: nat :: (d, v) in s.ptes <==> (d, v) in t.ptes
    requires forall v: nat :: (d, v) in s.ptes && (d, v) in t.ptes ==> SamePage(s, t, (d, v))
    ensures View(t, d) == View(s, d)
  {
    forall v: nat ensures v in View(s, d) <==> v in View(t, d) {
      ViewAt(s, d, v);
      ViewAt(t, d, v);
    }
    forall v: nat | v in View(s, d) ensures View(t, d)[v] == View(s, d)[v] {
      ViewAt(s, d, v);
      ViewAt(t, d, v);
    }
  }

  // ----- what each transition of the kernel does to the views -----

  /** t shows the address space of process p as s does. */
  ghost predicate Keeps(s: State, t: State, pr: Proc)
  {
    Prefix(t.ptes, pr.pgdir, Pages(pr.sz)) && View(t, pr.pgdir) == View(s, pr.pgdir)
  }

  lemma KeepsUntouched(s: State, t: State, pr: Proc)
    requires Prefix(s.ptes, pr.pgdir, Pages(pr.sz))
    requires forall v: nat :: (pr.pgdir, v) in s.ptes <==> (pr.pgdir, v) in t.ptes
    requires forall v: nat :: (pr.pgdir, v) in s.ptes && (pr.pgdir, v) in t.ptes ==> SamePage(s, t, (pr.pgdir, v))
    ensures Keeps(s, t, pr)
  {
    ViewSame(s, t, pr.pgdir);
  }

  lemma ForkViewAt(s: State, t: State, d: nat, c: nat, n: nat, v: nat)
    requires Prefix(s.ptes, d, n) && Forked(s, t, d, c, n)
    ensures v in View(t, c) <==> v < n
    ensures v in View(s, d) <==> v < n
    ensures v < n ==> View(t, c)[v] == View(s, d)[v]
  {
    ViewAt(s, d, v);
    ViewAt(t, c, v);
    assert v < n ==> SameAcross(s, (d, v), t, (c, v));
  }

  lemma ForkView(s: State, t: State, d: nat, c: nat, n: nat)
    requires Prefix(s.ptes, d, n) && Forked(s, t, d, c, n)
    ensures Prefix(t.ptes, c, n) && View(t, c) == View(s, d)
  {
    assert Prefix(t.ptes, c, n);
    forall v: nat ensures (v in View(t, c) <==> v < n) && (v in View(s, d) <==> v < n)
                          && (v < n ==> View(t, c)[v] == View(s, d)[v]) {
      ForkViewAt(s, t, d, c, n, v);
    }
  }

  lemma StoreView(s: State, t: State, d: nat, va: nat, b: Byte, sz: nat)
    requires Stored(s, t, (d, va / PGSIZE), va % PGSIZE, b)
    ensures va / PGSIZE in View(s, d) && View(t, d) == StoredIn(Space(sz, View(s, d)), va, b).pages
  {
    var v := va / PGSIZE;
    ViewAt(s, d, v);
    var pages := StoredIn(Space(sz, View(s, d)), va, b).pages;
    forall u: nat ensures u in View(t, d) <==> u in pages {
      ViewAt(s, d, u);
      ViewAt(t, d, u);
    }
    forall u: nat | u in View(t, d) ensures View(t, d)[u] == pages[u] {
      ViewAt(s, d, u);
      ViewAt(t, d, u);
      assert u != v ==> SamePage(s, t, (d, u));
    }
  }

  lemma GrowViewAt(s: State, t: State, d: nat, n: nat, m: nat, u: nat)
    requires Prefix(s.ptes, d, n) && n <= m && Grown(s, t, d, n, m) && u < m
    ensures u in View(t, d) && View(t, d)[u] == ResizedPages(View(s, d), m)[u]
  {
    ViewAt(s, d, u);
    ViewAt(t, d, u);
    if u < n {
      assert SamePage(s, t, (d, u));
    } else {
      assert ZeroPage(t, (d, u));
    }
  }

  lemma GrowView(s: State, t: State, d: nat, n: nat, m: nat)
    requires Prefix(s.ptes, d, n) && n <= m && Grown(s, t, d, n, m)
    ensures Prefix(t.ptes, d, m) && View(t, d) == ResizedPages(View(s, d), m)
  {
    forall u: nat ensures (u in View(t, d) <==> u < m) && ((d, u) in t.ptes <==> u < m) {
      ViewAt(t, d, u);
    }
    forall u: nat | u < m ensures View(t, d)[u] == ResizedPages(View(s, d), m)[u] {
      GrowViewAt(s, t, d, n, m, u);
    }
  }

  lemma ShrinkView(s: State, t: State, d: nat, n: nat, m: nat)
    requires Prefix(s.ptes, d, n) && m <= n && Cut(s, t, d, m, n)
    ensures Prefix(t.ptes, d, m) && View(t, d) == ResizedPages(View(s, d), m)
  {
    forall u: nat ensures (u in View(t, d) <==> u < m) && ((d, u) in t.ptes <==> u < m) {
      ViewAt(t, d, u);
    }
    forall u: nat | u < m ensures View(t, d)[u] == ResizedPages(View(s, d), m)[u] {
      ViewAt(s, d, u);
      ViewAt(t, d, u);
      assert SamePage(s, t, (d, u));
    }
  }

  // ----- each transition of the kernel is the eager one -----

  lemma KeepsAll(s: State, t: State, procs: map<nat, Proc>)
    requires ProcsOk(s, procs) && s.dirs <= t.dirs
    requires forall q :: q in procs ==> Keeps(s, t, procs[q])
    ensures ProcsOk(t, procs) && WorldOf(t, procs) == WorldOf(s, procs)
  {
  }

  lemma AllSameRefines(s: State, t: State, procs: map<nat, Proc>)
    requires ProcsOk(s, procs) && AllSame(s, t) && t.dirs == s.dirs
    ensures ProcsOk(t, procs) && WorldOf(t, procs) == WorldOf(s, procs)
  {
    forall q | q in procs ensures Keeps(s, t, procs[q]) {
      KeepsUntouched(s, t, procs[q]);
    }
    KeepsAll(s, t, procs);
  }

  lemma ForkKeeps(s: State, t: State, d: nat, c: nat, n: nat, pr: Proc)
    requires Prefix(s.ptes, pr.pgdir, Pages(pr.sz)) && pr.pgdir != c
    requires Forked(s, t, d, c, n)
    ensures Keeps(s, t, pr)
  {
    KeepsUntouched(s, t, pr);
  }

  lemma AddedSpace(t: State, procs: map<nat, Proc>, child: nat, pr: Proc)
    requires ProcsOk(t, procs) && child !in procs
    requires pr.pgdir in t.dirs && pr.sz < KERNBASE && Prefix(t.ptes, pr.pgdir, Pages(pr.sz))
    requires forall q :: q in procs ==> procs[q].pgdir != pr.pgdir
    ensures ProcsOk(t, procs[child := pr])
    ensures WorldOf(t, procs[child := pr]) == WorldOf(t, procs)[child := Space(pr.sz, View(t, pr.pgdir))]
  {
  }

  lemma ForkRefines(s: State, t: State, procs: map<nat, Proc>, p: nat, child: nat, c: nat)
    requires ProcsOk(s, procs) && p in procs && child !in procs
    requires Forked(s, t, procs[p].pgdir, c, Pages(procs[p].sz))
    ensures ProcsOk(t, procs[child := Proc(c, procs[p].sz)])
    ensures WorldOf(t, procs[child := Proc(c, procs[p].sz)]) == WorldOf(s, procs)[child := WorldOf(s, procs)[p]]
  {
    ForkView(s, t, procs[p].pgdir, c, Pages(procs[p].sz));
    forall q | q in procs ensures Keeps(s, t, procs[q]) {
      ForkKeeps(s, t, procs[p].pgdir, c, Pages(procs[p].sz), procs[q]);
    }
    KeepsAll(s, t, procs);
    AddedSpace(t, procs, child, Proc(c, procs[p].sz));
  }

  lemma OthersStay(s: State, t: State, procs: map<nat, Proc>, p: nat, pr: Proc)
    requires ProcsOk(s, procs) && p in procs && t.dirs == s.dirs
    requires forall q :: q in procs && q != p ==> Keeps(s, t, procs[q])
    requires pr.pgdir == procs[p].pgdir && pr.sz < KERNBASE && Prefix(t.ptes, pr.pgdir, Pages(pr.sz))
    ensures ProcsOk(t, procs[p := pr])
  {
    forall q | q in procs[p := pr]
      ensures q in procs && procs[p := pr][q].pgdir == procs[q].pgdir && procs[p := pr][q].sz < KERNBASE
      ensures Prefix(t.ptes, procs[q].pgdir, Pages(procs[p := pr][q].sz))
    {
      assert q != p ==> Keeps(s, t, procs[q]);
    }
  }

  lemma OthersLookSame(s: State, t: State, procs: map<nat, Proc>, p: nat, pr: Proc)
    requires p in procs && forall q :: q in procs && q != p ==> Keeps(s, t, procs[q])
    ensures WorldOf(t, procs[p := pr]) == WorldOf(s, procs)[p := Space(pr.sz, View(t, pr.pgdir))]
  {
  }

  /** A transition that changes process p alone. */
  lemma OneSpaceRefines(s: State, t: State, procs: map<nat, Proc>, p: nat, sp: Space)
    requires ProcsOk(s, procs) && p in procs && t.dirs == s.dirs
    requires forall q :: q in procs && q != p ==> Keeps(s, t, procs[q])
    requires sp.sz < KERNBASE && Prefix(t.ptes, procs[p].pgdir, Pages(sp.sz)) && View(t, procs[p].pgdir) == sp.pages
    ensures ProcsOk(t, procs[p := Proc(procs[p].pgdir, sp.sz)])
    ensures WorldOf(t, procs[p := Proc(procs[p].pgdir, sp.sz)]) == WorldOf(s, procs)[p := sp]
  {
    var pr := Proc(procs[p].pgdir, sp.sz);
    OthersStay(s, t, procs, p, pr);
    OthersLookSame(s, t, procs, p, pr);
  }

  lemma StoreRefines(s: State, t: State, procs: map<nat, Proc>, p: nat, va: nat, b: Byte)
    requires ProcsOk(s, procs) && p in procs
    requires Stored(s, t, (procs[p].pgdir, va / PGSIZE), va % PGSIZE, b)
    ensures ProcsOk(t, procs) && va / PGSIZE in WorldOf(s, procs)[p].pages
    ensures WorldOf(t, procs) == WorldOf(s, procs)[p := StoredIn(WorldOf(s, procs)[p], va, b)]
  {
    StoreView(s, t, procs[p].pgdir, va, b, procs[p].sz);
    forall q | q in procs && q != p ensures Keeps(s, t, procs[q]) {
      KeepsUntouched(s, t, procs[q]);
    }
    OneSpaceRefines(s, t, procs, p, StoredIn(WorldOf(s, procs)[p], va, b));
    assert procs[p := Proc(procs[p].pgdir, procs[p].sz)] == procs;
  }

  lemma GrowRefines(s: State, t: State, procs: map<nat, Proc>, p: nat, newsz: nat)
    requires ProcsOk(s, procs) && p in procs && newsz < KERNBASE
    requires Pages(procs[p].sz) <= Pages(newsz)
    requires Grown(s, t, procs[p].pgdir, Pages(procs[p].sz), Pages(newsz))
    ensures ProcsOk(t, procs[p := Proc(procs[p].pgdir, newsz)])
    ensures WorldOf(t, procs[p := Proc(procs[p].pgdir, newsz)]) ==
            WorldOf(s, procs)[p := Resized(WorldOf(s, procs)[p], newsz)]
  {
    GrowView(s, t, procs[p].pgdir, Pages(procs[p].sz), Pages(newsz));
    forall q | q in procs && q != p ensures Keeps(s, t, procs[q]) {
      KeepsUntouched(s, t, procs[q]);
    }
    OneSpaceRefines(s, t, procs, p, Resized(WorldOf(s, procs)[p], newsz));
  }

  lemma ShrinkRefines(s: State, t: State, procs: map<nat, Proc>, p: nat, newsz: nat)
    requires ProcsOk(s, procs) && p in procs && newsz < procs[p].sz
    requires Cut(s, t, procs[p].pgdir, Pages(newsz), Pages(procs[p].sz))
    ensures ProcsOk(t, procs[p := Proc(procs[p].pgdir, newsz)])
    ensures WorldOf(t, procs[p := Proc(procs[p].pgdir, newsz)]) ==
            WorldOf(s, procs)[p := Resized(WorldOf(s, procs)[p], newsz)]
  {
    ShrinkView(s, t, procs[p].pgdir, Pages(procs[p].sz), Pages(newsz));
    forall q | q in procs && q != p ensures Keeps(s, t, procs[q]) {
      KeepsUntouched(s, t, procs[q]);
    }
    OneSpaceRefines(s, t, procs, p, Resized(WorldOf(s, procs)[p], newsz));
  }

  lemma ExitRefines(s: State, t: State, procs: map<nat, Proc>, p: nat)
    requires ProcsOk(s, procs) && p in procs
    requires Gone(s, t, procs[p].pgdir)
    ensures ProcsOk(t, procs - {p}) && WorldOf(t, procs - {p}) == WorldOf(s, procs) - {p}
  {
    forall q | q in procs && q != p ensures Keeps(s, t, procs[q]) {
      KeepsUntouched(s, t, procs[q]);
    }
  }

  lemma NothingGrown(s: State, t: State, leaked: set<nat>, d: nat, n: nat)
    requires Inv(s, leaked) && (Grown(s, t, d, n, n) || t == s)
    ensures AllSame(s, t) && t.dirs == s.dirs
  {
    forall k | k in s.ptes ensures SamePage(s, t, k) {
      assert EntryOk(s, k);
    }
    assert forall k: Key :: k in s.ptes <==> k in t.ptes;
  }

  /** Whether there are frames for a fork (the directory, kmap's tables and those of the pages) or for a
      growing sbrk (the new pages and the tables they lack). */
  predicate Affordable(s: State, procs: map<nat, Proc>, op: Op) {
    match op
    case Fork(p, _) => p in procs && |s.free| >= SETUP_FRAMES + UserTables(Pages(procs[p].sz))
    case Sbrk(p, delta) =>
      && p in procs && procs[p].sz + delta < KERNBASE
      && (delta > 0 ==>
            var sz := procs[p].sz;
            |s.free| >= FramesTaken(s.tables, procs[p].pgdir, Pages(sz), Pages(sz + delta)))
    case _ => true
  }

  /** A fork or a growing sbrk succeeds exactly when there are frames for it. */
  predicate Decided(s: State, procs: map<nat, Proc>, op: Op, out: Outcome) {
    op.Fork? || (op.Sbrk? && op.delta > 0) ==> (out == Ok <==> Affordable(s, procs, op))
  }

  /** A growing sbrk for which allocuvm takes the last frame for a page whose table is missing. */
  ghost predicate LeaksAt(s: State, procs: map<nat, Proc>, op: Op) {
    op.Sbrk? && op.delta > 0 && op.p in procs &&
    var pr := procs[op.p];
    pr.sz + op.delta < KERNBASE && LosesFrame(s.tables, |s.free|, pr.pgdir, Pages(pr.sz), Pages(pr.sz + op.delta))
  }

  /** No frame goes missing, but for all that a setupkvm without frames enough has taken, and the one
      that allocuvm leaks. */
  ghost predicate KeepsFrames(s: State, l: set<nat>, procs: map<nat, Proc>, t: State, m: set<nat>, op: Op) {
    && |s.cnt| == |s.mem| && |t.cnt| == |t.mem|
    && Lost(t) == (if op.Fork? && |s.free| < SETUP_FRAMES then Lost(s) + Listed(s.free) else Lost(s))
    && if LeaksAt(s, procs, op) then OneMore(l, m) else m == l
  }

  /** The kernel state t, with process table procs', is the eager step of s with procs. */
  ghost predicate Refines(s: State, procs: map<nat, Proc>, t: State, procs': map<nat, Proc>, op: Op, out: Outcome) {
    && Legal(WorldOf(s, procs), op)
    && EagerOutcome(WorldOf(s, procs), op, out) && Decided(s, procs, op, out)
    && ProcsOk(t, procs') && WorldOf(t, procs') == EagerStep(WorldOf(s, procs), op, out)
  }

  /** An operation that failed and shows everyone the same. */
  lemma FailedRefines(s: State, t: State, procs: map<nat, Proc>, op: Op)
    requires ProcsOk(s, procs) && AllSame(s, t) && t.dirs == s.dirs
    requires Legal(WorldOf(s, procs), op) && EagerOutcome(WorldOf(s, procs), op, Failed)
             && Decided(s, procs, op, Failed)
    ensures Refines(s, procs, t, procs, op, Failed)
  {
    AllSameRefines(s, t, procs);
  }

  lemma ForkStepRefines(s: State, t: State, procs: map<nat, Proc>, p: nat, child: nat, c: nat)
    requires ProcsOk(s, procs) && p in procs && child !in procs
    requires Forked(s, t, procs[p].pgdir, c, Pages(procs[p].sz)) && Affordable(s, procs, Op.Fork(p, child))
    ensures Refines(s, procs, t, procs[child := Proc(c, procs[p].sz)], Op.Fork(p, child), Ok)
  {
    ForkRefines(s, t, procs, p, child, c);
  }

  /** What allocuvm leaves when it succeeds. */
  lemma AllocOkRefines(s: State, t: State, procs: map<nat, Proc>, p: nat, delta: Int32, newsz: nat)
    requires ProcsOk(s, procs) && p in procs && 0 < delta && newsz == procs[p].sz + delta && newsz < KERNBASE
    requires Grown(s, t, procs[p].pgdir, Pages(procs[p].sz), Pages(newsz)) && Affordable(s, procs, Op.Sbrk(p, delta))
    ensures Refines(s, procs, t, procs[p := Proc(procs[p].pgdir, newsz)], Op.Sbrk(p, delta), Ok)
  {
    PagesFit(procs[p].sz, newsz);
    GrowRefines(s, t, procs, p, newsz);
    assert AskedSize(WorldOf(s, procs)[p].sz, delta) == newsz;
  }

  /** What allocuvm leaves when it fails. */
  lemma AllocFailRefines(s: State, t: State, leaked: set<nat>, procs: map<nat, Proc>, p: nat, delta: Int32)
    requires Inv(s, leaked) && ProcsOk(s, procs) && p in procs && 0 < delta
    requires t == s || Grown(s, t, procs[p].pgdir, Pages(procs[p].sz), Pages(procs[p].sz))
    requires !Affordable(s, procs, Op.Sbrk(p, delta))
    ensures Refines(s, procs, t, procs, Op.Sbrk(p, delta), Failed)
  {
    NothingGrown(s, t, leaked, procs[p].pgdir, Pages(procs[p].sz));
    FailedRefines(s, t, procs, Op.Sbrk(p, delta));
  }

  /** What allocuvm does for growproc, which asks for `asked` bytes and is answered newsz. */
  ghost predicate Allocated(s: State, l: set<nat>, t: State, m: set<nat>, pr: Proc, asked: nat, newsz: nat) {
    if asked >= KERNBASE then newsz == 0 && t == s && m == l
    else
      && (newsz == 0 || newsz == asked)
      && AllocDone(s, t, pr.pgdir, Pages(pr.sz), Pages(asked), l, m, newsz != 0)
  }

  lemma AllocFrames(s: State, l: set<nat>, t: State, m: set<nat>, procs: map<nat, Proc>, p: nat, delta: Int32,
                    asked: nat, newsz: nat)
    requires p in procs && 0 < delta && asked == procs[p].sz + delta && Allocated(s, l, t, m, procs[p], asked, newsz)
    requires |s.cnt| == |s.mem| && |t.cnt| == |t.mem| && Lost(t) == Lost(s)
    ensures KeepsFrames(s, l, procs, t, m, Op.Sbrk(p, delta))
    ensures Affordable(s, procs, Op.Sbrk(p, delta)) <==> newsz != 0
  {
  }

  /** What growproc's call of allocuvm makes of the processes and of the frames. */
  lemma AllocStep(s: State, l: set<nat>, t: State, m: set<nat>, procs: map<nat, Proc>, p: nat, delta: Int32,
                  asked: nat, newsz: nat)
    requires Inv(s, l) && ProcsOk(s, procs) && p in procs && 0 < delta && asked == procs[p].sz + delta
    requires Allocated(s, l, t, m, procs[p], asked, newsz) && |t.cnt| == |t.mem| && Lost(t) == Lost(s)
    ensures newsz == 0 ==> Refines(s, procs, t, procs, Op.Sbrk(p, delta), Failed)
    ensures newsz != 0 ==> Refines(s, procs, t, procs[p := Proc(procs[p].pgdir, newsz)], Op.Sbrk(p, delta), Ok)
    ensures KeepsFrames(s, l, procs, t, m, Op.Sbrk(p, delta))
  {
    AllocFrames(s, l, t, m, procs, p, delta, asked, newsz);
    if newsz == 0 {
      AllocFailRefines(s, t, l, procs, p, delta);
    } else {
      AllocOkRefines(s, t, procs, p, delta, newsz);
    }
  }

  lemma DeallocRefines(s: State, t: State, procs: map<nat, Proc>, p: nat, delta: Int32)
    requires ProcsOk(s, procs) && p in procs && 0 < procs[p].sz + delta < procs[p].sz
    requires Cut(s, t, procs[p].pgdir, Pages(procs[p].sz + delta), Pages(procs[p].sz))
    ensures Refines(s, procs, t, procs[p := Proc(procs[p].pgdir, procs[p].sz + delta)], Op.Sbrk(p, delta), Ok)
  {
    PagesFit(procs[p].sz + delta, procs[p].sz);
    ShrinkRefines(s, t, procs, p, procs[p].sz + delta);
  }

  /** growproc to size zero: the process keeps its size and loses its pages, which no answer makes
      right. */
  lemma EmptyingLosesPages(s: State, t: State, procs: map<nat, Proc>, p: nat, delta: Int32)
    requires ProcsOk(s, procs) && p in procs && procs[p].sz > 0 && procs[p].sz + delta == 0
    requires Cut(s, t, procs[p].pgdir, 0, Pages(procs[p].sz))
    ensures WorldOf(t, procs)[p] == Space(procs[p].sz, map[]) && 0 in WorldOf(s, procs)[p].pages
    ensures forall out :: !Refines(s, procs, t, procs, Op.Sbrk(p, delta), out)
  {
    var d := procs[p].pgdir;
    forall v: nat ensures v !in View(t, d) {
      ViewAt(t, d, v);
    }
    ViewAt(s, d, 0);
    assert (d, 0) in s.ptes && (d, 0) !in t.ptes;
  }

  lemma OnePageIsSound(b: Page)
    ensures Inv(State(1, [b, b, b, b], [0, 0, 0, 1], [], 0, {1}, map[(1, 0) := 2],
                      map[(1, 0) := Pte(3, true, true)]), {})
  {
    var k: Key := (1, 0);
    var s := State(1, [b, b, b, b], [0, 0, 0, 1], [], 0, {1}, map[k := 2], map[k := Pte(3, true, true)]);
    forall f: nat | f < 4 ensures RefCount(s.ptes, f) == if f == 3 then 1 else 0 {
      assert Refs(s.ptes, f) == if f == 3 then {k} else {};
    }
    assert TablesOk(s) by {
      assert forall l: Key :: l in s.tables ==> l == k;
    }
  }

  /** At its smallest: a process of one byte, with frame 1 its directory, 2 its table and 3 its page. */
  lemma SbrkToZeroExample(b: Page)
    ensures var s := State(1, [b, b, b, b], [0, 0, 0, 1], [], 0, {1}, map[(1, 0) := 2],
                           map[(1, 0) := Pte(3, true, true)]);
            var procs := map[7 := Proc(1, 1)];
            && Inv(s, {}) && ProcsOk(s, procs) && Empties(WorldOf(s, procs), Op.Sbrk(7, -1))
            && Cut(s, Unmapped(s, (1, 0)), 1, 0, Pages(1)) && WorldOf(Unmapped(s, (1, 0)), procs)[7] == Space(1, map[])
  {
    var k: Key := (1, 0);
    var s := State(1, [b, b, b, b], [0, 0, 0, 1], [], 0, {1}, map[k := 2], map[k := Pte(3, true, true)]);
    var procs := map[7 := Proc(1, 1)];
    OnePageIsSound(b);
    EmptyingLosesPages(s, Unmapped(s, k), procs, 7, -1);
  }

  lemma SmallerPages(newsz: nat, sz: nat)
    requires sz <= KERNBASE
    ensures newsz < sz ==> Pages(newsz) <= Pages(sz)
  {
  }

  /** The 32-bit sum of a size and a negative amount. */
  lemma WrappedSum(sz: nat, delta: int)
    requires sz < KERNBASE && -0x8000_0000 <= delta < 0
    ensures (sz + delta) % 0x1_0000_0000 == if sz + delta < 0 then sz + delta + 0x1_0000_0000 else sz + delta
  {
  }

  /** An sbrk below zero: nothing happens, and the answer is the old size, which 0 makes a failure. */
  lemma BelowZeroRefines(s: State, procs: map<nat, Proc>, p: nat, delta: Int32)
    requires ProcsOk(s, procs) && p in procs && delta < 0 && procs[p].sz + delta < 0
    ensures Refines(s, procs, s, procs, Op.Sbrk(p, delta), if procs[p].sz == 0 then Failed else Ok)
  {
  }

  /** What growproc's call of deallocuvm to newsz, answered with r, makes of the processes. */
  lemma DeallocStep(s: State, t: State, procs: map<nat, Proc>, p: nat, delta: Int32, newsz: nat, r: nat)
    requires ProcsOk(s, procs) && p in procs && delta < 0 && newsz == (procs[p].sz + delta) % 0x1_0000_0000
    requires newsz >= procs[p].sz ==> r == procs[p].sz && t == s
    requires newsz < procs[p].sz ==> r == newsz && Cut(s, t, procs[p].pgdir, Pages(newsz), Pages(procs[p].sz))
    ensures var procs' := if r == 0 then procs else procs[p := Proc(procs[p].pgdir, r)];
            var op, out := Op.Sbrk(p, delta), if r == 0 then Failed else Ok;
            && (Refines(s, procs, t, procs', op, out) <==> !Empties(WorldOf(s, procs), op))
            && (Empties(WorldOf(s, procs), op) ==> r == 0 && WorldOf(t, procs)[p] == Space(procs[p].sz, map[]))
  {
    var sz := procs[p].sz;
    WrappedSum(sz, delta);
    if sz + delta < 0 {
      BelowZeroRefines(s, procs, p, delta);
      assert procs[p := Proc(procs[p].pgdir, sz)] == procs;
    } else if sz + delta == 0 {
      EmptyingLosesPages(s, t, procs, p, delta);
    } else {
      DeallocRefines(s, t, procs, p, delta);
    }
  }

  lemma StoreIsMapped(s: State, procs: map<nat, Proc>, p: nat, va: nat, b: Byte)
    requires ProcsOk(s, procs) && Legal(WorldOf(s, procs), Op.Store(p, va, b))
    ensures p in procs && procs[p].pgdir in s.dirs && (procs[p].pgdir, va / PGSIZE) in s.ptes
    ensures Prefix(s.ptes, procs[p].pgdir, Pages(procs[p].sz)) && Pages(procs[p].sz) * PGSIZE <= KERNBASE
  {
    ViewAt(s, procs[p].pgdir, va / PGSIZE);
    PagesFit(procs[p].sz, procs[p].sz);
  }

  lemma StoreStepRefines(s: State, t: State, procs: map<nat, Proc>, p: nat, va: nat, b: Byte)
    requires ProcsOk(s, procs) && Legal(WorldOf(s, procs), Op.Store(p, va, b))
    requires Stored(s, t, (procs[p].pgdir, va / PGSIZE), va % PGSIZE, b)
    requires |s.cnt| == |s.mem| && |t.cnt| == |t.mem| && Lost(t) == Lost(s)
    ensures Refines(s, procs, t, procs, Op.Store(p, va, b), Ok)
    ensures forall l :: KeepsFrames(s, l, procs, t, l, Op.Store(p, va, b))
  {
    StoreRefines(s, t, procs, p, va, b);
  }

  /** After the first |outs| of ops, w' is the eager world and outs what its users saw. */
  ghost predicate Agrees(w: World, ops: seq<Op>, outs: seq<Outcome>, w': World) {
    && |outs| <= |ops| && EagerOutcomes(w, ops[..|outs|], outs) && w' == EagerWorld(w, ops[..|outs|], outs)
  }

  lemma AgreesNext(w: World, ops: seq<Op>, outs: seq<Outcome>, w0: World, w1: World, out: Outcome)
    requires Agrees(w, ops, outs, w0) && |outs| < |ops|
    requires if Legal(w0, ops[|outs|]) then EagerOutcome(w0, ops[|outs|], out) && w1 == EagerStep(w0, ops[|outs|], out)
             else out == Failed && w1 == w0
    ensures Agrees(w, ops, outs + [out], w1)
  {
    assert ops[..|outs| + 1][..|outs|] == ops[..|outs|] && (outs + [out])[..|outs|] == outs;
  }

  /** The kernel and its processes between two operations. */
  datatype Moment = Moment(s: State, leaked: set<nat>, procs: map<nat, Proc>) {
    ghost function World(): World {
      WorldOf(s, procs)
    }

    ghost predicate Sound() {
      Inv(s, leaked) && ProcsOk(s, procs)
    }
  }

  /** One operation of a run takes x to y. */
  ghost predicate Stepped(x: Moment, op: Op, out: Outcome, y: Moment) {
    && x.Sound() && y.Sound()
    && if Legal(x.World(), op) then
         Refines(x.s, x.procs, y.s, y.procs, op, out) && KeepsFrames(x.s, x.leaked, x.procs, y.s, y.leaked, op)
       else out == Failed && y == x
  }

  lemma StepHolds(x: Moment, op: Op, out: Outcome, y: Moment)
    requires x.Sound() && y.Sound() && Refines(x.s, x.procs, y.s, y.procs, op, out)
    requires KeepsFrames(x.s, x.leaked, x.procs, y.s, y.leaked, op)
    ensures Stepped(x, op, out, y)
  {
  }

  /** The states of a run, from before ops[0] to after the last operation that has an outcome. */
  ghost predicate Moments(ss: seq<Moment>, ops: seq<Op>, outs: seq<Outcome>)
    decreases |outs|
  {
    && |ss| == |outs| + 1 && |outs| <= |ops|
    && (outs == [] ||
        var n := |outs| - 1;
        Moments(ss[..n + 1], ops, outs[..n]) && Stepped(ss[n], ops[n], outs[n], ss[n + 1]))
  }

  /** A fork cannot fail while the frames past the kernel, less those that directories, tables, leaks and
      failed forks hold and one for every page of every process, are enough for it. */
  lemma ForkIsAffordable(x: Moment, p: nat, child: nat)
    requires x.Sound() && x.s.end <= |x.s.mem| && p in x.procs
    requires |x.s.mem| - x.s.end >=
             |x.s.dirs| + |x.s.tables| + |x.leaked| + |Lost(x.s)| + |x.s.ptes|
             + SETUP_FRAMES + UserTables(Pages(x.procs[p].sz))
    ensures Affordable(x.s, x.procs, Op.Fork(p, child))
  {
    FreeAtLeast(x.s, x.leaked);
  }

  lemma MomentsNext(ss: seq<Moment>, ops: seq<Op>, outs: seq<Outcome>, y: Moment, out: Outcome)
    requires Moments(ss, ops, outs) && |outs| < |ops| && Stepped(ss[|outs|], ops[|outs|], out, y)
    ensures Moments(ss + [y], ops, outs + [out])
  {
    var r, o, n := ss + [y], outs + [out], |outs|;
    assert r[..n + 1] == ss && o[..n] == outs && r[n] == ss[n] && r[n + 1] == y && o[n] == out;
    assert Stepped(r[n], ops[n], o[n], r[n + 1]);
  }

  /** A store that may be made and panics for want of a frame. */
  ghost predicate PanicsAt(s: State, procs: map<nat, Proc>, op: Op) {
    op.Store? && Legal(WorldOf(s, procs), op) && op.p in procs && StorePanics(s, (procs[op.p].pgdir, op.va / PGSIZE))
  }

  // ----- the kernel at work -----

  /** How a run ends: after its last operation, with a panic, or with an sbrk that empties a process. */
  datatype Ending = Finished | Panicked | Emptied

  class Machine {
    const kernel: Kernel
    var procs: map<nat, Proc>

    ghost predicate Valid()
      reads this, kernel
    {
      kernel.Valid() && ProcsOk(kernel.S(), procs)
    }

    ghost function World(): World
      reads this, kernel
    {
      WorldOf(kernel.S(), procs)
    }

    ghost function Now(): Moment
      reads this, kernel
    {
      Moment(kernel.S(), kernel.leaked, procs)
    }

    /** A kernel whose accounting holds, with the processes it has. */
    constructor (kernel: Kernel, procs: map<nat, Proc>)
      requires kernel.Valid() && ProcsOk(kernel.S(), procs)
      ensures Valid() && this.kernel == kernel && this.procs == procs
    {
      this.kernel, this.procs := kernel, procs;
    }

    method MayTouch(p: nat, va: nat) returns (ok: bool)
      requires Valid()
      ensures ok <==> UserMapped(World(), p, va)
    {
      if p !in procs {
        return false;
      }
      var k := (procs[p].pgdir, va / PGSIZE);
      ViewAt(kernel.S(), procs[p].pgdir, va / PGSIZE);
      ok := k in kernel.ptes && kernel.ptes[k].u;
    }

    /** fork(): copyuvm of the parent's address space. */
    method Fork(p: nat, child: nat) returns (out: Outcome)
      requires Valid() && Legal(World(), Op.Fork(p, child))
      modifies `procs, kernel
      ensures Valid() && KeepsFrames(old(kernel.S()), old(kernel.leaked), old(procs), kernel.S(), kernel.leaked,
                                     Op.Fork(p, child))
      ensures Refines(old(kernel.S()), old(procs), kernel.S(), procs, Op.Fork(p, child), out)
    {
      ghost var s := kernel.S();
      var copy := kernel.Copyuvm(procs[p].pgdir, procs[p].sz);
      if copy == None {
        FailedRefines(s, kernel.S(), procs, Op.Fork(p, child));
        return Failed;
      }
      ForkStepRefines(s, kernel.S(), procs, p, child, copy.value);
      procs := procs[child := Proc(copy.value, procs[p].sz)];
      out := Ok;
    }

    /** A store by a user process; false is the panic of a fault that finds no frame for its copy. */
    method Store(p: nat, va: nat, b: Byte) returns (ok: bool)
      requires Valid() && Legal(World(), Op.Store(p, va, b))
      modifies kernel
      ensures ok <==> !old(StorePanics(kernel.S(), (procs[p].pgdir, va / PGSIZE)))
      ensures ok ==> KeepsFrames(old(kernel.S()), old(kernel.leaked), old(procs), kernel.S(), kernel.leaked,
                                 Op.Store(p, va, b))
      ensures ok ==> Valid() && Refines(old(kernel.S()), old(procs), kernel.S(), procs, Op.Store(p, va, b), Ok)
    {
      var d := procs[p].pgdir;
      ghost var before := kernel.S();
      StoreIsMapped(before, procs, p, va, b);
      var r := kernel.UserStore(d, va, b, Pages(procs[p].sz));
      ok := r.Resumed?;
      if ok {
        StoreStepRefines(before, kernel.S(), procs, p, va, b);
      }
    }

    method Load(p: nat, va: nat) returns (out: Outcome)
      requires Valid() && Legal(World(), Op.Load(p, va))
      ensures Refines(kernel.S(), procs, kernel.S(), procs, Op.Load(p, va), out)
    {
      ViewAt(kernel.S(), procs[p].pgdir, va / PGSIZE);
      var b := kernel.UserLoad(procs[p].pgdir, va);
      out := Loaded(b);
    }

    /** The end of a process: the freevm that its parent's wait runs. */
    method Exit(p: nat)
      requires Valid() && Legal(World(), Op.Exit(p))
      modifies `procs, kernel
      ensures Valid() && Refines(old(kernel.S()), old(procs), kernel.S(), procs, Op.Exit(p), Ok)
      ensures KeepsFrames(old(kernel.S()), old(kernel.leaked), old(procs), kernel.S(), kernel.leaked, Op.Exit(p))
    {
      ghost var before := kernel.S();
      PagesFit(procs[p].sz, procs[p].sz);
      kernel.Freevm(procs[p].pgdir, Pages(procs[p].sz));
      ExitRefines(before, kernel.S(), procs, p);
      procs := procs - {p};
    }

    method IsLegal(op: Op) returns (legal: bool)
      requires Valid()
      ensures legal <==> Legal(World(), op)
    {
      assert World().Keys == procs.Keys;
      match op
      case Fork(p, child) => legal := p in procs && child !in procs;
      case Load(p, va) => legal := MayTouch(p, va);
      case Store(p, va, _) => legal := MayTouch(p, va);
      case Sbrk(p, _) => legal := p in procs;
      case Exit(p) => legal := p in procs;
    }

    /** growproc by a positive amount. */
    method Grow(p: nat, delta: nat) returns (out: Outcome)
      requires Valid() && p in procs && 0 < delta < 0x8000_0000
      modifies `procs, kernel
      ensures Valid() && KeepsFrames(old(kernel.S()), old(kernel.leaked), old(procs), kernel.S(), kernel.leaked,
                                     Op.Sbrk(p, delta))
      ensures Refines(old(kernel.S()), old(procs), kernel.S(), procs, Op.Sbrk(p, delta), out)
    {
      var d, asked := procs[p].pgdir, procs[p].sz + delta;
      ghost var s, l := kernel.S(), kernel.leaked;
      var newsz := kernel.Allocuvm(d, procs[p].sz, asked);
      AllocStep(s, l, kernel.S(), kernel.leaked, procs, p, delta, asked, newsz);
      if newsz == 0 {
        return Failed;
      }
      procs := procs[p := Proc(d, newsz)];
      out := Ok;
    }

    /** What sbrk leaves: a step of the eager world if and only if it does not empty the process. */
    ghost predicate Sbrked(s: State, l: set<nat>, procs0: map<nat, Proc>, p: nat, delta: Int32, out: Outcome)
      reads this, kernel
    {
      && kernel.Valid() && KeepsFrames(s, l, procs0, kernel.S(), kernel.leaked, Op.Sbrk(p, delta))
      && (ProcsOk(kernel.S(), procs) && Refines(s, procs0, kernel.S(), procs, Op.Sbrk(p, delta), out)
          <==> !Empties(WorldOf(s, procs0), Op.Sbrk(p, delta)))
      && (Empties(WorldOf(s, procs0), Op.Sbrk(p, delta)) ==>
           out == Failed && procs == procs0 && WorldOf(kernel.S(), procs)[p] == Space(procs[p].sz, map[]))
    }

    /** growproc by a negative amount. */
    method Shrink(p: nat, delta: Int32) returns (out: Outcome)
      requires Valid() && p in procs && delta < 0
      modifies `procs, kernel
      ensures Sbrked(old(kernel.S()), old(kernel.leaked), old(procs), p, delta, out)
    {
      var d, sz := procs[p].pgdir, procs[p].sz;
      ghost var before := kernel.S();
      PagesFit(sz, sz);
      var sum := (sz + delta) % 0x1_0000_0000;
      var newsz := kernel.Deallocuvm(d, sz, sum, Pages(sz));
      SmallerPages(sum, sz);
      DeallocStep(before, kernel.S(), procs, p, delta, sum, newsz);
      if newsz == 0 {
        return Failed;
      }
      procs := procs[p := Proc(d, newsz)];
      out := Ok;
    }

    /** growproc. */
    method Growproc(p: nat, delta: Int32) returns (out: Outcome)
      requires Valid() && p in procs
      modifies `procs, kernel
      ensures Sbrked(old(kernel.S()), old(kernel.leaked), old(procs), p, delta, out)
    {
      if delta > 0 {
        out := Grow(p, delta);
      } else if delta < 0 {
        out := Shrink(p, delta);
      } else {
        out := Ok;
      }
    }

    method Do(op: Op) returns (out: Outcome, panicked: bool)
      requires Valid() && Legal(World(), op)
      modifies `procs, kernel
      ensures panicked <==> old(PanicsAt(kernel.S(), procs, op))
      ensures !panicked ==> KeepsFrames(old(kernel.S()), old(kernel.leaked), old(procs), kernel.S(), kernel.leaked, op)
      ensures !panicked && !Empties(old(World()), op) ==>
                Valid() && Refines(old(kernel.S()), old(procs), kernel.S(), procs, op, out)
    {
      out, panicked := Ok, false;
      match op
      case Fork(p, child) => out := Fork(p, child);
      case Load(p, va) => out := Load(p, va);
      case Store(p, va, b) => var ok := Store(p, va, b); panicked := !ok;
      case Sbrk(p, delta) => out := Growproc(p, delta);
      case Exit(p) => Exit(p);
    }

    method IsEmptying(op: Op) returns (r: bool)
      requires Valid()
      ensures r <==> Empties(World(), op)
    {
      r := op.Sbrk? && op.p in procs && procs[op.p].sz > 0 && procs[op.p].sz + op.delta == 0;
    }

    /** One operation of a run; one that is not legal does nothing. */
    method Next(op: Op) returns (out: Outcome, stop: Option<Ending>)
      requires Valid()
      modifies `procs, kernel
      ensures stop == Some(Ending.Panicked) <==> old(PanicsAt(kernel.S(), procs, op))
      ensures stop == Some(Emptied) <==> Empties(old(World()), op)
      ensures stop != Some(Finished)
      ensures stop == None ==> Valid() && Stepped(old(Now()), op, out, Now())
    {
      ghost var before := Now();
      out, stop := Failed, None;
      var legal := IsLegal(op);
      if legal {
        var empties := IsEmptying(op);
        var panicked;
        out, panicked := Do(op);
        if panicked {
          stop := Some(Ending.Panicked);
        } else if empties {
          stop := Some(Emptied);
        } else {
          StepHolds(before, op, out, Now());
        }
      }
    }

    /** Any sequence of operations: every process sees the bytes it would see under eager copying, and
        every operation returns what it would return there, up to a panic or the first sbrk that
        empties a process. ss are the states before each operation and at the end: a fork or a growing
        sbrk succeeds exactly when its state has the frames, a store panics exactly when it does not,
        and no frame is lost but by a fork for which setupkvm has not frames enough. */
    method Run(ops: seq<Op>) returns (outs: seq<Outcome>, end: Ending, ghost ss: seq<Moment>)
      requires Valid()
      modifies `procs, kernel
      ensures Moments(ss, ops, outs) && ss[0] == old(Now())
      ensures EagerOutcomes(old(World()), ops[..|outs|], outs)
      ensures end.Finished? ==> |outs| == |ops| && Valid() && World() == EagerWorld(old(World()), ops, outs)
      ensures end.Panicked? ==> |outs| < |ops| && PanicsAt(ss[|outs|].s, ss[|outs|].procs, ops[|outs|])
      ensures end.Emptied? ==> |outs| < |ops| && Empties(EagerWorld(old(World()), ops[..|outs|], outs), ops[|outs|])
      ensures end.Finished? ==> ss[|outs|] == Now()
    {
      outs := [];
      ghost var w := World();
      ss := [Now()];
      while |outs| < |ops|
        invariant Valid() && Agrees(w, ops, outs, World()) && Moments(ss, ops, outs)
        invariant ss[0] == old(Now()) && ss[|outs|] == Now()
      {
        var out, stop := Next(ops[|outs|]);
        if stop.Some? {
          return outs, stop.value, ss;
        }
        AgreesNext(w, ops, outs, ss[|outs|].World(), World(), out);
        MomentsNext(ss, ops, outs, Now(), out);
        outs := outs + [out];
        ss := ss + [Now()];
      }
      assert ops[..|ops|] == ops;
      end := Finished;
    }
  }
}
