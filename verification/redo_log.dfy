/** The on-disk format of log.c and its crash behaviour. A disk is a sequence of blocks, every
    bwrite replaces one block, and a crash can fall between any two writes, so the disk images
    reachable by a crash are the images after each write. */
module RedoLog {
  import opened Blocks
  import opened Params

  type Disk = seq<Block>

  /** Where the superblock puts the log: its header is block `start`. */
  datatype Area = Area(start: nat, size: nat) {
    predicate Contains(b: nat) {
      start <= b < start + size
    }
  }

  // ----- the header block -----

  predicate HeaderOk(h: Block) {
    GetWord(h, 0) <= LOGSIZE
  }

  function ReadHeader(h: Block): (lh: seq<Word>)
    requires HeaderOk(h)
    ensures |lh| == GetWord(h, 0)
  {
    seq(GetWord(h, 0), i requires 0 <= i < LOGSIZE => GetWord(h, i + 1))
  }

  /** The header block after n and the first k entries of lh are stored in it. */
  function StoreHeader(h: Block, lh: seq<Word>, k: nat): Block
    requires k <= |lh| <= LOGSIZE
  {
    if k == 0 then PutWord(h, 0, |lh|) else PutWord(StoreHeader(h, lh, k - 1), k, lh[k - 1])
  }

  lemma {:induction false} StoredHeaderWords(h: Block, lh: seq<Word>, k: nat, j: nat)
    requires k <= |lh| <= LOGSIZE && j < WORDS_PER_BLOCK
    ensures GetWord(StoreHeader(h, lh, k), j) ==
            if j == 0 then |lh| else if j <= k then lh[j - 1] else GetWord(h, j)
  {
    if k == 0 {
      GetPutWord(h, 0, |lh|, j);
    } else {
      GetPutWord(StoreHeader(h, lh, k - 1), k, lh[k - 1], j);
      StoredHeaderWords(h, lh, k - 1, j);
    }
  }

  /** write_head then read_head gives the same list back, whatever the block held before. */
  lemma HeaderRoundTrip(h: Block, lh: seq<Word>)
    requires |lh| <= LOGSIZE
    ensures HeaderOk(StoreHeader(h, lh, |lh|))
    ensures ReadHeader(StoreHeader(h, lh, |lh|)) == lh
  {
    forall j: nat | j <= |lh| {
      StoredHeaderWords(h, lh, |lh|, j);
    }
    StoredHeaderWords(h, lh, |lh|, 0);
    var r := ReadHeader(StoreHeader(h, lh, |lh|));
    forall i | 0 <= i < |lh| ensures r[i] == lh[i] {
      StoredHeaderWords(h, lh, |lh|, i + 1);
    }
  }

  // ----- the writes of a commit and of a recovery -----

  /** The block numbers of a transaction: they fit the log, are distinct and lie outside it. */
  predicate Loggable(a: Area, lh: seq<Word>, nblocks: nat) {
    && |lh| <= LOGSIZE && |lh| < a.size && a.start + a.size <= nblocks
    && (forall i :: 0 <= i < |lh| ==> lh[i] < nblocks && !a.Contains(lh[i]))
    && (forall i, j :: 0 <= i < j < |lh| ==> lh[i] != lh[j])
  }

  /** The first k log blocks hold copies of the blocks of v named by lh. */
  function Logged(d: Disk, a: Area, v: Disk, lh: seq<Word>, k: nat): (e: Disk)
    requires Loggable(a, lh, |d|) && |v| == |d| && k <= |lh|
    ensures |e| == |d|
  {
    if k == 0 then d else Logged(d, a, v, lh, k - 1)[a.start + k := v[lh[k - 1]]]
  }

  /** The first k home blocks named by lh hold their copies from the log. */
  function Installed(d: Disk, a: Area, lh: seq<Word>, k: nat): (e: Disk)
    requires Loggable(a, lh, |d|) && k <= |lh|
    ensures |e| == |d|
  {
    if k == 0 then d
    else var e := Installed(d, a, lh, k - 1); e[lh[k - 1] := e[a.start + k]]
  }

  function WithHeader(d: Disk, a: Area, lh: seq<Word>): Disk
    requires a.start < |d| && |lh| <= LOGSIZE
  {
    d[a.start := StoreHeader(d[a.start], lh, |lh|)]
  }

  /** The disk after the first k of the 2n+2 writes of commit(). */
  function CommitImage(d: Disk, a: Area, v: Disk, lh: seq<Word>, k: nat): (e: Disk)
    requires Loggable(a, lh, |d|) && |v| == |d| && k <= 2 * |lh| + 2
    ensures |e| == |d|
  {
    if k <= |lh| then Logged(d, a, v, lh, k)
    else
      var c := WithHeader(Logged(d, a, v, lh, |lh|), a, lh);
      if k <= 2 * |lh| + 1 then Installed(c, a, lh, k - |lh| - 1)
      else WithHeader(Installed(c, a, lh, |lh|), a, [])
  }

  /** The header on d can be replayed. */
  predicate Replayable(d: Disk, a: Area) {
    a.start < |d| && HeaderOk(d[a.start]) && Loggable(a, ReadHeader(d[a.start]), |d|)
  }

  function PendingBlocks(d: Disk, a: Area): seq<Word>
    requires Replayable(d, a)
  {
    ReadHeader(d[a.start])
  }

  /** The disk after the first k of the n+1 writes of recover_from_log(). */
  function RecoveryImage(d: Disk, a: Area, k: nat): (e: Disk)
    requires Replayable(d, a) && k <= |PendingBlocks(d, a)| + 1
    ensures |e| == |d|
  {
    var lh := PendingBlocks(d, a);
    if k <= |lh| then Installed(d, a, lh, k) else WithHeader(Installed(d, a, lh, |lh|), a, [])
  }

  function Recovered(d: Disk, a: Area): (e: Disk)
    requires Replayable(d, a)
    ensures |e| == |d|
  {
    RecoveryImage(d, a, |PendingBlocks(d, a)| + 1)
  }

  ghost predicate SameHome(a: Area, d: Disk, e: Disk) {
    |d| == |e| && forall b :: 0 <= b < |d| && !a.Contains(b) ==> d[b] == e[b]
  }

  // ----- what each image holds -----

  lemma {:induction false} LoggedAt(d: Disk, a: Area, v: Disk, lh: seq<Word>, k: nat, b: nat)
    requires Loggable(a, lh, |d|) && |v| == |d| && k <= |lh| && b < |d|
    ensures Logged(d, a, v, lh, k)[b] ==
            if a.start < b <= a.start + k then v[lh[b - a.start - 1]] else d[b]
  {
    if k > 0 {
      LoggedAt(d, a, v, lh, k - 1, b);
    }
  }

  /** Installing changes nothing but the home blocks listed so far. */
  lemma {:induction false} InstalledElsewhere(d: Disk, a: Area, lh: seq<Word>, k: nat, b: nat)
    requires Loggable(a, lh, |d|) && k <= |lh| && b < |d|
    requires forall i :: 0 <= i < k ==> lh[i] != b
    ensures Installed(d, a, lh, k)[b] == d[b]
  {
    if k > 0 {
      InstalledElsewhere(d, a, lh, k - 1, b);
    }
  }

  lemma {:induction false} InstalledAt(d: Disk, a: Area, lh: seq<Word>, k: nat, i: nat)
    requires Loggable(a, lh, |d|) && i < k <= |lh|
    ensures Installed(d, a, lh, k)[lh[i]] == d[a.start + i + 1]
  {
    if i == k - 1 {
      InstalledElsewhere(d, a, lh, k - 1, a.start + k);
    } else {
      InstalledAt(d, a, lh, k - 1, i);
    }
  }

  lemma ReplayAgreesAt(d: Disk, e: Disk, a: Area, lh: seq<Word>, b: nat)
    requires Loggable(a, lh, |d|) && |e| == |d| && b < |d|
    requires forall i :: a.start < i <= a.start + |lh| ==> e[i] == d[i]
    requires b !in lh ==> e[b] == d[b]
    ensures Installed(e, a, lh, |lh|)[b] == Installed(d, a, lh, |lh|)[b]
  {
    if i :| 0 <= i < |lh| && lh[i] == b {
      InstalledAt(d, a, lh, |lh|, i);
      InstalledAt(e, a, lh, |lh|, i);
    } else {
      InstalledElsewhere(d, a, lh, |lh|, b);
      InstalledElsewhere(e, a, lh, |lh|, b);
    }
  }

  /** A disk that agrees with d off the listed home blocks, and has d's log, replays to d's replay. */
  lemma ReplayAgrees(d: Disk, e: Disk, a: Area, lh: seq<Word>)
    requires Loggable(a, lh, |d|) && |e| == |d|
    requires forall i :: a.start < i <= a.start + |lh| ==> e[i] == d[i]
    requires forall b :: 0 <= b < |d| && !a.Contains(b) && b !in lh ==> e[b] == d[b]
    ensures SameHome(a, Installed(e, a, lh, |lh|), Installed(d, a, lh, |lh|))
  {
    forall b | 0 <= b < |d| && !a.Contains(b)
      ensures Installed(e, a, lh, |lh|)[b] == Installed(d, a, lh, |lh|)[b]
    {
      ReplayAgreesAt(d, e, a, lh, b);
    }
  }

  lemma InstalledKeepsLog(d: Disk, a: Area, lh: seq<Word>, k: nat)
    requires Loggable(a, lh, |d|) && k <= |lh|
    ensures forall b :: 0 <= b < |d| && (a.Contains(b) || b !in lh) ==> Installed(d, a, lh, k)[b] == d[b]
  {
    forall b | 0 <= b < |d| && (a.Contains(b) || b !in lh)
      ensures Installed(d, a, lh, k)[b] == d[b]
    {
      InstalledElsewhere(d, a, lh, k, b);
    }
  }

  /** A cleared header makes recovery leave the home blocks alone. */
  lemma ClearedIsRecovered(d: Disk, a: Area)
    requires a.start < |d| && 0 < a.size && a.start + a.size <= |d|
    ensures Replayable(WithHeader(d, a, []), a) && PendingBlocks(WithHeader(d, a, []), a) == []
    ensures SameHome(a, WithHeader(d, a, []), d)
    ensures SameHome(a, Recovered(WithHeader(d, a, []), a), d)
  {
    HeaderRoundTrip(d[a.start], []);
  }

  // ----- crashes -----

  /** A crash after any write of a recovery leaves a disk whose recovery gives the same home blocks. */
  lemma RecoveryIsIdempotent(d: Disk, a: Area, k: nat)
    requires Replayable(d, a) && k <= |PendingBlocks(d, a)| + 1
    ensures Replayable(RecoveryImage(d, a, k), a)
    ensures SameHome(a, Recovered(RecoveryImage(d, a, k), a), Recovered(d, a))
  {
    var lh := PendingBlocks(d, a);
    var all := Installed(d, a, lh, |lh|);
    ClearedIsRecovered(all, a);
    if k <= |lh| {
      var e := Installed(d, a, lh, k);
      InstalledKeepsLog(d, a, lh, k);
      assert PendingBlocks(e, a) == lh;
      ReplayAgrees(d, e, a, lh);
      ClearedIsRecovered(Installed(e, a, lh, |lh|), a);
    }
  }

  /** The disk after recoveries that are cut short after crashes[0], crashes[1], ... writes. */
  function CrashedRecoveries(d: Disk, a: Area, crashes: seq<nat>): (e: Disk)
    requires Replayable(d, a)
    ensures Replayable(e, a) && |e| == |d|
    decreases |crashes|
  {
    if crashes == [] then d
    else
      var n := |PendingBlocks(d, a)|;
      var k := if crashes[0] <= n + 1 then crashes[0] else n + 1;
      RecoveryIsIdempotent(d, a, k);
      CrashedRecoveries(RecoveryImage(d, a, k), a, crashes[1..])
  }

  lemma {:induction false} CrashedRecoveriesRecover(d: Disk, a: Area, crashes: seq<nat>)
    requires Replayable(d, a)
    ensures SameHome(a, Recovered(CrashedRecoveries(d, a, crashes), a), Recovered(d, a))
    decreases |crashes|
  {
    if crashes != [] {
      var n := |PendingBlocks(d, a)|;
      var k := if crashes[0] <= n + 1 then crashes[0] else n + 1;
      RecoveryIsIdempotent(d, a, k);
      CrashedRecoveriesRecover(RecoveryImage(d, a, k), a, crashes[1..]);
    }
  }

  /** v is what the buffer cache holds: it differs from the disk only at the logged blocks. */
  ghost predicate PendingView(d: Disk, a: Area, v: Disk, lh: seq<Word>) {
    && Replayable(d, a) && PendingBlocks(d, a) == [] && Loggable(a, lh, |d|) && |v| == |d|
    && forall b :: 0 <= b < |d| && b !in lh ==> v[b] == d[b]
  }

  /** Up to the header write a commit has changed nothing that recovery looks at. */
  lemma BeforeHeaderWrite(d: Disk, a: Area, v: Disk, lh: seq<Word>, k: nat)
    requires PendingView(d, a, v, lh) && k <= |lh|
    ensures Replayable(Logged(d, a, v, lh, k), a)
    ensures SameHome(a, Recovered(Logged(d, a, v, lh, k), a), d)
  {
    var e := Logged(d, a, v, lh, k);
    forall b | 0 <= b < |d| && !(a.start < b <= a.start + k) ensures e[b] == d[b] {
      LoggedAt(d, a, v, lh, k, b);
    }
    assert PendingBlocks(e, a) == [];
    ClearedIsRecovered(e, a);
  }

  lemma CommittedBlock(d: Disk, a: Area, v: Disk, lh: seq<Word>, b: nat)
    requires Loggable(a, lh, |d|) && |v| == |d| && b < |d| && !a.Contains(b)
    requires b !in lh ==> v[b] == d[b]
    ensures Installed(CommitImage(d, a, v, lh, |lh| + 1), a, lh, |lh|)[b] == v[b]
  {
    var c := CommitImage(d, a, v, lh, |lh| + 1);
    if i :| 0 <= i < |lh| && lh[i] == b {
      InstalledAt(c, a, lh, |lh|, i);
      LoggedAt(d, a, v, lh, |lh|, a.start + i + 1);
    } else {
      InstalledElsewhere(c, a, lh, |lh|, b);
      LoggedAt(d, a, v, lh, |lh|, b);
    }
  }

  /** The disk right after the header write replays to the new contents. */
  lemma HeaderWriteCommits(d: Disk, a: Area, v: Disk, lh: seq<Word>)
    requires PendingView(d, a, v, lh)
    ensures var c := CommitImage(d, a, v, lh, |lh| + 1);
            && Replayable(c, a) && PendingBlocks(c, a) == lh
            && SameHome(a, Installed(c, a, lh, |lh|), v)
  {
    var e := Logged(d, a, v, lh, |lh|);
    var c := WithHeader(e, a, lh);
    HeaderRoundTrip(e[a.start], lh);
    forall b | 0 <= b < |d| && !a.Contains(b) ensures Installed(c, a, lh, |lh|)[b] == v[b] {
      CommittedBlock(d, a, v, lh, b);
    }
  }

  /** From the header write on, a commit goes on as a recovery would. */
  lemma AfterHeaderWrite(d: Disk, a: Area, v: Disk, lh: seq<Word>, k: nat)
    requires PendingView(d, a, v, lh) && |lh| < k <= 2 * |lh| + 2
    ensures Replayable(CommitImage(d, a, v, lh, k), a)
    ensures SameHome(a, Recovered(CommitImage(d, a, v, lh, k), a), v)
  {
    HeaderWriteCommits(d, a, v, lh);
    var c, j := CommitImage(d, a, v, lh, |lh| + 1), k - |lh| - 1;
    ClearedIsRecovered(Installed(c, a, lh, |lh|), a);
    assert CommitImage(d, a, v, lh, k) == RecoveryImage(c, a, j);
    RecoveryIsIdempotent(c, a, j);
  }

  /** What a crash after k writes of commit() leaves for recovery: the old contents while the
      header write was not reached, the new ones from then on. */
  lemma CommitImageRecovers(d: Disk, a: Area, v: Disk, lh: seq<Word>, k: nat)
    requires PendingView(d, a, v, lh) && k <= 2 * |lh| + 2
    ensures Replayable(CommitImage(d, a, v, lh, k), a)
    ensures SameHome(a, Recovered(CommitImage(d, a, v, lh, k), a), if k <= |lh| then d else v)
  {
    if k <= |lh| {
      BeforeHeaderWrite(d, a, v, lh, k);
    } else {
      AfterHeaderWrite(d, a, v, lh, k);
    }
  }

  /** Crash atomicity: cut commit() after any write, cut any number of recoveries after any
      write, then let one recovery finish. The home blocks are all old or all new, and all new
      exactly when the header write was reached. */
  lemma CrashAtomicity(d: Disk, a: Area, v: Disk, lh: seq<Word>, k: nat, crashes: seq<nat>)
    requires PendingView(d, a, v, lh) && k <= 2 * |lh| + 2
    ensures Replayable(CommitImage(d, a, v, lh, k), a)
    ensures SameHome(a, Recovered(CrashedRecoveries(CommitImage(d, a, v, lh, k), a, crashes), a),
                     if k <= |lh| then d else v)
  {
    CommitImageRecovers(d, a, v, lh, k);
    CrashedRecoveriesRecover(CommitImage(d, a, v, lh, k), a, crashes);
  }

  // ----- whole histories -----

  /** One transaction of a history, with where it was cut short if it was. */
  datatype Event =
    | Completed(lh: seq<Word>, contents: seq<Block>)
    | Cut(lh: seq<Word>, contents: seq<Block>, k: nat, crashes: seq<nat>)

  predicate EventOk(a: Area, e: Event, nblocks: nat) {
    && 0 < a.size && a.start + a.size <= nblocks
    && Loggable(a, e.lh, nblocks) && |e.contents| == |e.lh|
    && (e.Cut? ==> e.k <= 2 * |e.lh| + 2)
  }

  /** d with the transaction's blocks replaced. */
  function Apply(d: Disk, lh: seq<Word>, contents: seq<Block>): (v: Disk)
    requires |lh| == |contents| && forall i :: 0 <= i < |lh| ==> lh[i] < |d|
    ensures |v| == |d|
  {
    if lh == [] then d
    else Apply(d, lh[..|lh| - 1], contents[..|lh| - 1])[lh[|lh| - 1] := contents[|lh| - 1]]
  }

  lemma {:induction false} ApplyAt(d: Disk, lh: seq<Word>, contents: seq<Block>, b: nat)
    requires |lh| == |contents| && forall i :: 0 <= i < |lh| ==> lh[i] < |d|
    requires b < |d|
    ensures b !in lh ==> Apply(d, lh, contents)[b] == d[b]
    ensures b in lh ==> exists i :: 0 <= i < |lh| && lh[i] == b && Apply(d, lh, contents)[b] == contents[i]
  {
    if lh != [] && lh[|lh| - 1] != b {
      ApplyAt(d, lh[..|lh| - 1], contents[..|lh| - 1], b);
      if b in lh {
        assert b in lh[..|lh| - 1];
      }
    }
  }

  lemma ViewOfTransaction(d: Disk, a: Area, e: Event)
    requires Replayable(d, a) && PendingBlocks(d, a) == [] && EventOk(a, e, |d|)
    ensures PendingView(d, a, Apply(d, e.lh, e.contents), e.lh)
  {
    forall b | 0 <= b < |d| && b !in e.lh ensures Apply(d, e.lh, e.contents)[b] == d[b] {
      ApplyAt(d, e.lh, e.contents, b);
    }
  }

  /** The disk after an event: the last write of commit(), or a completed recovery after the crashes. */
  function AfterEvent(d: Disk, a: Area, e: Event): (r: Disk)
    requires Replayable(d, a) && PendingBlocks(d, a) == [] && EventOk(a, e, |d|)
    ensures |r| == |d| && Replayable(r, a) && PendingBlocks(r, a) == []
  {
    var v := Apply(d, e.lh, e.contents);
    ViewOfTransaction(d, a, e);
    match e
    case Completed(lh, _) =>
      HeaderWriteCommits(d, a, v, lh);
      ClearedIsRecovered(Installed(CommitImage(d, a, v, lh, |lh| + 1), a, lh, |lh|), a);
      CommitImage(d, a, v, lh, 2 * |lh| + 2)
    case Cut(lh, _, k, crashes) =>
      CommitImageRecovers(d, a, v, lh, k);
      var c := CrashedRecoveries(CommitImage(d, a, v, lh, k), a, crashes);
      ClearedIsRecovered(Installed(c, a, PendingBlocks(c, a), |PendingBlocks(c, a)|), a);
      Recovered(c, a)
  }

  function AfterHistory(d: Disk, a: Area, history: seq<Event>): (r: Disk)
    requires Replayable(d, a) && PendingBlocks(d, a) == []
    requires forall e :: e in history ==> EventOk(a, e, |d|)
    ensures |r| == |d| && Replayable(r, a) && PendingBlocks(r, a) == []
    decreases |history|
  {
    if history == [] then d
    else AfterEvent(AfterHistory(d, a, history[..|history| - 1]), a, history[|history| - 1])
  }

  /** The crash came before the header write. */
  predicate Lost(e: Event) {
    e.Cut? && e.k <= |e.lh|
  }

  /** The contents a user of the file system expects: an event counts unless it was cut before
      its header write, and then nothing of it counts. */
  function Expected(d: Disk, history: seq<Event>): (r: Disk)
    requires forall e :: e in history ==>
      |e.lh| == |e.contents| && forall i :: 0 <= i < |e.lh| ==> e.lh[i] < |d|
    ensures |r| == |d|
    decreases |history|
  {
    if history == [] then d
    else
      var e := history[|history| - 1];
      var before := Expected(d, history[..|history| - 1]);
      if Lost(e) then before else Apply(before, e.lh, e.contents)
  }

  /** What one event makes of the home blocks. */
  lemma EventHome(d: Disk, a: Area, e: Event)
    requires Replayable(d, a) && PendingBlocks(d, a) == [] && EventOk(a, e, |d|)
    ensures SameHome(a, AfterEvent(d, a, e), if Lost(e) then d else Apply(d, e.lh, e.contents))
  {
    var v := Apply(d, e.lh, e.contents);
    ViewOfTransaction(d, a, e);
    match e
    case Completed(lh, _) =>
      HeaderWriteCommits(d, a, v, lh);
      ClearedIsRecovered(Installed(CommitImage(d, a, v, lh, |lh| + 1), a, lh, |lh|), a);
    case Cut(lh, _, k, crashes) =>
      CrashAtomicity(d, a, v, lh, k, crashes);
  }

  lemma {:induction false} ApplySameHome(a: Area, d: Disk, e: Disk, lh: seq<Word>, contents: seq<Block>)
    requires SameHome(a, d, e) && |lh| == |contents| && forall i :: 0 <= i < |lh| ==> lh[i] < |d|
    ensures SameHome(a, Apply(d, lh, contents), Apply(e, lh, contents))
    decreases |lh|
  {
    if lh != [] {
      ApplySameHome(a, d, e, lh[..|lh| - 1], contents[..|lh| - 1]);
    }
  }

  /** Whole histories of transactions, crashes and crashed recoveries: the home blocks are those
      of the transactions whose header write was reached, applied in order. */
  lemma {:induction false} HistoryAtomicity(d: Disk, a: Area, history: seq<Event>)
    requires Replayable(d, a) && PendingBlocks(d, a) == []
    requires forall e :: e in history ==> EventOk(a, e, |d|)
    ensures SameHome(a, AfterHistory(d, a, history), Expected(d, history))
    decreases |history|
  {
    if history != [] {
      var e := history[|history| - 1];
      assert e in history;
      var before := history[..|history| - 1];
      HistoryAtomicity(d, a, before);
      EventHome(AfterHistory(d, a, before), a, e);
      ApplySameHome(a, AfterHistory(d, a, before), Expected(d, before), e.lh, e.contents);
    }
  }
}
