/** The log under the file system: what a crash during filewrite leaves of the files. */
module CrashFiles {
  import opened Blocks
  import opened Params
  import opened Dinode
  import opened FileState
  import opened FileContents
  import opened TransactionSize
  import opened FileSystem
  import opened OpenFile
  import opened RedoLog

  /** mkfs puts the log before the inodes. */
  predicate Placement(a: Area, sb: Super) {
    0 < a.size && a.start + a.size <= sb.inodestart
  }

  /** The disk holds a sound file system with these files. */
  ghost predicate Mounts(sb: Super, d: Disk, files: seq<FileView>) {
    exists s: State :: Sound(s) && s.sb == sb && s.blocks == d && Files(s) == files
  }

  // ----- the files depend on the home blocks -----

  /** s with other blocks in the log area. */
  lemma SameFiles(a: Area, s: State, t: State, j: nat)
    requires Sound(s) && Placement(a, s.sb) && t == s.(blocks := t.blocks) && SameHome(a, t.blocks, s.blocks)
             && j < |s.inodes|
    ensures Agrees(s, t) && Core(t) && Dense(t, j) && Saved(t, j)
    ensures s.inodes[j].size <= MAXSIZE && Contents(t, j) == Contents(s, j)
  {
    BBlockIsMetadata(s.sb, 0);
    AgreeingCore(s, t);
    assert Dense(s, j) && Saved(s, j);
    AgreeingHas(s, t, j, s.inodes[j].size);
    forall p: nat | p < MAXSIZE && Slot(s, j, FileSlot(p / BSIZE)) != 0 ensures ByteAt(t, j, p) == ByteAt(s, j, p) {
      AgreeingByte(s, t, j, p);
    }
    ContentsKept(s, t, j);
  }

  lemma HomeMounts(a: Area, s: State, d: Disk)
    requires Sound(s) && Placement(a, s.sb) && SameHome(a, d, s.blocks)
    ensures Mounts(s.sb, d, Files(s))
  {
    var t := s.(blocks := d);
    BBlockIsMetadata(s.sb, 0);
    AgreeingCore(s, t);
    forall j: nat | j < |t.inodes| ensures Dense(t, j) && Saved(t, j) {
      SameFiles(a, s, t, j);
    }
    SizesBounded(s);
    forall j: nat | j < |t.inodes| ensures Files(t)[j] == Files(s)[j] {
      SameFiles(a, s, t, j);
    }
    assert Files(t) == Files(s);
  }

  /** A disk holds one file system at most. */
  lemma MountsOnce(sb: Super, d: Disk, f: seq<FileView>, g: seq<FileView>)
    requires Mounts(sb, d, f) && Mounts(sb, d, g)
    ensures f == g
  {
    var s: State :| Sound(s) && s.sb == sb && s.blocks == d && Files(s) == f;
    var t: State :| Sound(t) && t.sb == sb && t.blocks == d && Files(t) == g;
    forall j: nat | j < sb.ninodes ensures s.inodes[j] == t.inodes[j] && Dense(s, j) {
      assert Saved(s, j) && Saved(t, j);
    }
    forall j: nat | j < |f| ensures f[j] == g[j] {
      forall p: nat | p < MAXSIZE ensures ByteAt(t, j, p) == ByteAt(s, j, p) {
      }
      ContentsKept(s, t, j);
    }
  }

  // ----- one transaction -----

  /** The header's list of a transaction: each block it logged, once (log_write absorbs). */
  predicate Lists(lh: seq<Word>, logged: set<nat>) {
    && (forall i :: 0 <= i < |lh| ==> lh[i] in logged) && (forall b :: b in logged ==> b in lh)
    && forall i, j :: 0 <= i < j < |lh| ==> lh[i] != lh[j]
  }

  lemma {:induction false} NotLonger(lh: seq<Word>, logged: set<nat>)
    requires forall i :: 0 <= i < |lh| ==> lh[i] in logged
    requires forall i, j :: 0 <= i < j < |lh| ==> lh[i] != lh[j]
    ensures |lh| <= |logged|
  {
    if lh != [] {
      NotLonger(lh[1..], logged - {lh[0]});
    }
  }

  /** What the log copies: t's contents of the listed blocks. */
  function Copies(blocks: seq<Block>, lh: seq<Word>): (r: seq<Block>)
    requires forall i :: 0 <= i < |lh| ==> lh[i] < |blocks|
    ensures |r| == |lh| && forall i :: 0 <= i < |r| ==> r[i] == blocks[lh[i]]
  {
    seq(|lh|, i requires 0 <= i < |lh| => blocks[lh[i]])
  }

  /** A transaction that led to t, as the log sees it; the list leaves log_write no reason to panic. */
  predicate IsFrom(a: Area, e: Event, t: State) {
    && Lists(e.lh, t.logged) && |e.lh| < a.size && (forall i :: 0 <= i < |e.lh| ==> e.lh[i] < |t.blocks|)
    && e.contents == Copies(t.blocks, e.lh) && (e.Cut? ==> e.k <= 2 * |e.lh| + 2)
  }

  lemma TransactionFits(a: Area, s: State, t: State, e: Event)
    requires Transaction(s, t) && Placement(a, s.sb) && IsFrom(a, e, t)
    ensures EventOk(a, e, s.sb.size)
  {
    NotLonger(e.lh, t.logged);
    BBlockIsMetadata(s.sb, 0);
  }

  /** Its copies turn s's home blocks into t's. */
  lemma CopiesApply(a: Area, s: State, t: State, e: Event, d: Disk)
    requires Transaction(s, t) && Placement(a, s.sb) && IsFrom(a, e, t) && SameHome(a, d, s.blocks)
    ensures EventOk(a, e, |d|) && SameHome(a, Apply(d, e.lh, e.contents), t.blocks)
  {
    TransactionFits(a, s, t, e);
    forall b | 0 <= b < |d| && !a.Contains(b) ensures Apply(d, e.lh, e.contents)[b] == t.blocks[b] {
      ApplyAt(d, e.lh, e.contents, b);
    }
  }

  // ----- histories of transactions and crashes -----

  /** The state that the files are in after es: the last one whose transaction was not lost. */
  function Survivor(s: State, es: seq<Event>, ts: seq<State>): State
    requires |es| == |ts|
  {
    if es == [] then s
    else
      var m := |es| - 1;
      if Lost(es[m]) then Survivor(s, es[..m], ts[..m]) else ts[m]
  }

  /** Transactions one after the other, the m-th from what survived to ts[m], logged and perhaps cut
      short as es[m] says. */
  ghost predicate Chain(a: Area, s: State, es: seq<Event>, ts: seq<State>)
    requires |es| == |ts|
    decreases |es|
  {
    es == [] ||
    var m := |es| - 1;
    Chain(a, s, es[..m], ts[..m]) && Transaction(Survivor(s, es[..m], ts[..m]), ts[m]) && IsFrom(a, es[m], ts[m])
  }

  lemma {:induction false} ChainFits(a: Area, s: State, es: seq<Event>, ts: seq<State>)
    requires |es| == |ts| && Sound(s) && Placement(a, s.sb) && Chain(a, s, es, ts)
    ensures Sound(Survivor(s, es, ts)) && Survivor(s, es, ts).sb == s.sb
    ensures forall e :: e in es ==> EventOk(a, e, s.sb.size)
    decreases |es|
  {
    if es != [] {
      var m := |es| - 1;
      ChainFits(a, s, es[..m], ts[..m]);
      TransactionFits(a, Survivor(s, es[..m], ts[..m]), ts[m], es[m]);
      forall e | e in es ensures e in es[..m] || e == es[m] {
      }
    }
  }

  /** Over any history of transactions, crashes at any write of a commit and crashed recoveries, the
      disk mounts as the files of the last transaction that was not lost, and a lost one leaves no
      trace. */
  lemma {:induction false} HistoryMounts(a: Area, d: Disk, s: State, es: seq<Event>, ts: seq<State>)
    requires |es| == |ts| && Sound(s) && Placement(a, s.sb) && Chain(a, s, es, ts)
    requires Replayable(d, a) && PendingBlocks(d, a) == [] && SameHome(a, d, s.blocks)
    ensures Sound(Survivor(s, es, ts)) && forall e :: e in es ==> EventOk(a, e, |d|)
    ensures SameHome(a, AfterHistory(d, a, es), Survivor(s, es, ts).blocks)
    ensures Mounts(s.sb, AfterHistory(d, a, es), Files(Survivor(s, es, ts)))
    decreases |es|
  {
    ChainFits(a, s, es, ts);
    if es != [] {
      var m := |es| - 1;
      HistoryMounts(a, d, s, es[..m], ts[..m]);
      var before := AfterHistory(d, a, es[..m]);
      CopiesApply(a, Survivor(s, es[..m], ts[..m]), ts[m], es[m], before);
      EventHome(before, a, es[m]);
    }
    HomeMounts(a, Survivor(s, es, ts), AfterHistory(d, a, es));
  }

  // ----- filewrite -----

  /** The states after the first m transactions of a filewrite. */
  function States(cs: seq<Commit>, m: nat): (r: seq<State>)
    requires m < |cs|
    ensures |r| == m && forall l :: 0 <= l < m ==> r[l] == cs[l + 1].s
  {
    seq(m, l requires 0 <= l < m => cs[l + 1].s)
  }

  /** es are the log's events of a filewrite that got as far as transaction |es|: only the last can
      have been cut short. */
  predicate LogOf(a: Area, cs: seq<Commit>, es: seq<Event>) {
    && |es| < |cs| && (forall m :: 0 <= m < |es| ==> IsFrom(a, es[m], cs[m + 1].s))
    && forall m :: 0 <= m < |es| - 1 ==> es[m].Completed?
  }

  /** How many of the transactions reached their header write. */
  function Reached(es: seq<Event>): nat {
    if es != [] && Lost(es[|es| - 1]) then |es| - 1 else |es|
  }

  lemma {:induction false} FilewriteChain(a: Area, cs: seq<Commit>, es: seq<Event>, files: seq<FileView>, ip: nat,
                                          begun: nat,
                                          addr: seq<Byte>)
    requires Commits(cs, files, ip, begun, addr) && LogOf(a, cs, es)
    ensures Chain(a, cs[0].s, es, States(cs, |es|)) && Survivor(cs[0].s, es, States(cs, |es|)) == cs[Reached(es)].s
    decreases |es|
  {
    if es != [] {
      var m := |es| - 1;
      assert States(cs, |es|)[..m] == States(cs, m);
      FilewriteChain(a, cs, es[..m], files, ip, begun, addr);
      assert Reached(es[..m]) == m;
      assert Follows(cs[m], cs[m + 1]);
    }
  }

  /** A crash at any write of any commit of a filewrite, and any number of crashes during recovery:
      the disk then mounts as the files before the call with the bytes of the transactions that
      reached their header write put in, and nothing else. */
  lemma FilewriteCrash(a: Area, d: Disk, cs: seq<Commit>, es: seq<Event>, files: seq<FileView>, ip: nat, begun: nat,
                       addr: seq<Byte>)
    requires Commits(cs, files, ip, begun, addr) && LogOf(a, cs, es) && Placement(a, cs[0].s.sb)
    requires Replayable(d, a) && PendingBlocks(d, a) == [] && SameHome(a, d, cs[0].s.blocks)
    ensures (forall e :: e in es ==> EventOk(a, e, |d|)) && cs[Reached(es)].i <= |addr|
    ensures Mounts(cs[0].s.sb, AfterHistory(d, a, es), Written(files, ip, begun, addr[..cs[Reached(es)].i]))
  {
    assert CommitOk(cs[0], files, ip, begun, addr) && CommitOk(cs[Reached(es)], files, ip, begun, addr);
    FilewriteChain(a, cs, es, files, ip, begun, addr);
    HistoryMounts(a, d, cs[0].s, es, States(cs, |es|));
  }
}
