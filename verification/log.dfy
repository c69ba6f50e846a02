/** log.c as a class. `disk` is what memide.c stores; `view` is what bread returns, which is what the
    buffer cache keeps coherent (module BufferCache). Each bwrite appends the disk it leaves to the
    ghost `trace`, so the trace lists every image a crash can leave. */
module Log {
  import opened Blocks
  import opened Params
  import opened RedoLog
  import GC = GroupCommit

  /** The images after the writes 1, ..., k of commit(). */
  function CommitImages(d: Disk, a: Area, v: Disk, lh: seq<Word>, k: nat): (r: seq<Disk>)
    requires Loggable(a, lh, |d|) && |v| == |d| && k <= 2 * |lh| + 2
    ensures |r| == k
    ensures forall i :: 0 <= i < k ==> r[i] == CommitImage(d, a, v, lh, i + 1)
  {
    if k == 0 then [] else CommitImages(d, a, v, lh, k - 1) + [CommitImage(d, a, v, lh, k)]
  }

  function InstallImages(d: Disk, a: Area, lh: seq<Word>, k: nat): (r: seq<Disk>)
    requires Loggable(a, lh, |d|) && k <= |lh|
    ensures |r| == k
    ensures forall i :: 0 <= i < k ==> r[i] == Installed(d, a, lh, i + 1)
  {
    if k == 0 then [] else InstallImages(d, a, lh, k - 1) + [Installed(d, a, lh, k)]
  }

  /** The four phases of commit() write the images of CommitImage in order. */
  lemma CommitPhases(t: seq<Disk>, d: Disk, a: Area, v: Disk, lh: seq<Word>)
    requires Loggable(a, lh, |d|) && |v| == |d|
    ensures var c := CommitImage(d, a, v, lh, |lh| + 1);
            t + CommitImages(d, a, v, lh, |lh|) + [c] + InstallImages(c, a, lh, |lh|)
              + [CommitImage(d, a, v, lh, 2 * |lh| + 2)]
            == t + CommitImages(d, a, v, lh, 2 * |lh| + 2)
  {
    var c := CommitImage(d, a, v, lh, |lh| + 1);
    assert CommitImages(d, a, v, lh, 2 * |lh| + 2) ==
           CommitImages(d, a, v, lh, |lh|) + [c] + InstallImages(c, a, lh, |lh|)
             + [CommitImage(d, a, v, lh, 2 * |lh| + 2)];
  }

  /** The cache follows the disk through the log and header writes of a commit. */
  lemma CommitViews(d: Disk, a: Area, v: Disk, lh: seq<Word>)
    requires PendingView(d, a, v, lh)
    ensures forall b :: 0 <= b < |d| && (a.Contains(b) || b !in lh) ==>
            Logged(v, a, v, lh, |lh|)[b] == Logged(d, a, v, lh, |lh|)[b]
    ensures Installed(WithHeader(Logged(v, a, v, lh, |lh|), a, lh), a, lh, |lh|)
            == Installed(CommitImage(d, a, v, lh, |lh| + 1), a, lh, |lh|)
  {
    forall b | 0 <= b < |d| && (a.Contains(b) || b !in lh)
      ensures Logged(v, a, v, lh, |lh|)[b] == Logged(d, a, v, lh, |lh|)[b]
    {
      LoggedAt(d, a, v, lh, |lh|, b);
      LoggedAt(v, a, v, lh, |lh|, b);
    }
    var c, w := CommitImage(d, a, v, lh, |lh| + 1), WithHeader(Logged(v, a, v, lh, |lh|), a, lh);
    forall b | 0 <= b < |d| ensures Installed(w, a, lh, |lh|)[b] == Installed(c, a, lh, |lh|)[b] {
      ReplayAgreesAt(c, w, a, lh, b);
    }
  }

  /** A finished commit leaves its new contents at home and an empty header. */
  lemma CommitEnds(d: Disk, a: Area, v: Disk, lh: seq<Word>)
    requires PendingView(d, a, v, lh)
    ensures var f := CommitImage(d, a, v, lh, 2 * |lh| + 2); PendingView(f, a, f, []) && SameHome(a, f, v)
  {
    HeaderWriteCommits(d, a, v, lh);
    ClearedIsRecovered(Installed(CommitImage(d, a, v, lh, |lh| + 1), a, lh, |lh|), a);
  }

  class Log {
    const area: Area
    var disk: Disk
    var view: Disk
    var outstanding: int
    var committing: bool
    var n: nat
    var block: array<Word>
    ghost var trace: seq<Disk>

    predicate Valid()
      reads this, block
    {
      && block.Length == LOGSIZE && n <= LOGSIZE && |view| == |disk|
      && Loggable(area, block[..n], |disk|)
    }

    function Lh(): seq<Word>
      reads this, block
      requires n <= block.Length
    {
      block[..n]
    }

    function Shared(): GC.Shared
      reads this, block
      requires n <= block.Length
    {
      GC.Shared(outstanding, committing, block[..n])
    }

    /** Between commits the cache differs from the disk at logged blocks only. */
    ghost predicate Clean()
      reads this, block
    {
      Valid() && PendingView(disk, area, view, block[..n])
    }

    /** Boot: initlog on a disk whose header can be replayed, with nothing cached. */
    constructor (d: Disk, a: Area)
      requires Replayable(d, a)
      ensures Clean() && fresh(block) && area == a
      ensures disk == Recovered(d, a) && view == disk
      ensures n == 0 && outstanding == 0 && !committing
      ensures trace == InstallImages(d, a, PendingBlocks(d, a), |PendingBlocks(d, a)|) + [Recovered(d, a)]
    {
      area, disk, view := a, d, d;
      outstanding, committing, n := 0, false, 0;
      block := new Word[LOGSIZE];
      trace := [];
      new;
      RecoverFromLog();
      InstalledKeepsLog(d, a, PendingBlocks(d, a), |PendingBlocks(d, a)|);
      ClearedIsRecovered(Installed(d, a, PendingBlocks(d, a), |PendingBlocks(d, a)|), a);
    }

    /** bwrite: the buffer and the disk get the same contents in one step. */
    method Bwrite(b: nat, data: Block)
      requires b < |disk| == |view|
      modifies `disk, `view, `trace
      ensures disk == old(disk)[b := data] && view == old(view)[b := data]
      ensures trace == old(trace) + [disk]
    {
      view := view[b := data];
      disk := disk[b := data];
      trace := trace + [disk];
    }

    method ReadHead()
      requires block.Length == LOGSIZE && area.start < |view| && HeaderOk(view[area.start])
      modifies `n, block
      ensures n == |ReadHeader(view[area.start])| && block[..n] == ReadHeader(view[area.start])
    {
      var buf := view[area.start];
      n := GetWord(buf, 0);
      var i := 0;
      while i < n
        invariant i <= n <= LOGSIZE && n == GetWord(buf, 0)
        invariant forall j :: 0 <= j < i ==> block[j] == GetWord(buf, j + 1)
      {
        block[i] := GetWord(buf, i + 1);
        i := i + 1;
      }
    }

    method WriteHead()
      requires block.Length == LOGSIZE && n <= LOGSIZE && area.start < |disk| == |view|
      requires view[area.start] == disk[area.start]
      modifies `disk, `view, `trace
      ensures disk == WithHeader(old(disk), area, block[..n])
      ensures view == WithHeader(old(view), area, block[..n])
      ensures trace == old(trace) + [disk]
    {
      ghost var lh := block[..n];
      var buf := PutWord(view[area.start], 0, n);
      var i := 0;
      while i < n
        invariant i <= n
        invariant buf == StoreHeader(view[area.start], lh, i)
      {
        buf := PutWord(buf, i + 1, block[i]);
        i := i + 1;
      }
      Bwrite(area.start, buf);
    }

    method WriteLog()
      requires Valid()
      requires forall b :: 0 <= b < |disk| && area.Contains(b) ==> view[b] == disk[b]
      modifies `disk, `view, `trace
      ensures disk == Logged(old(disk), area, old(view), Lh(), n)
      ensures view == Logged(old(view), area, old(view), Lh(), n)
      ensures trace == old(trace) + CommitImages(old(disk), area, old(view), Lh(), n)
    {
      ghost var lh := block[..n];
      var tail := 0;
      while tail < n
        invariant tail <= n
        invariant disk == Logged(old(disk), area, old(view), lh, tail)
        invariant view == Logged(old(view), area, old(view), lh, tail)
        invariant trace == old(trace) + CommitImages(old(disk), area, old(view), lh, tail)
      {
        var from := view[block[tail]];
        LoggedAt(old(view), area, old(view), lh, tail, block[tail]);
        Bwrite(area.start + tail + 1, from);
        tail := tail + 1;
      }
    }

    method InstallTrans()
      requires Valid()
      requires forall b :: 0 <= b < |disk| && area.Contains(b) ==> view[b] == disk[b]
      modifies `disk, `view, `trace
      ensures disk == Installed(old(disk), area, Lh(), n)
      ensures view == Installed(old(view), area, Lh(), n)
      ensures trace == old(trace) + InstallImages(old(disk), area, Lh(), n)
    {
      ghost var lh := block[..n];
      var tail := 0;
      while tail < n
        invariant tail <= n
        invariant disk == Installed(old(disk), area, lh, tail)
        invariant view == Installed(old(view), area, lh, tail)
        invariant trace == old(trace) + InstallImages(old(disk), area, lh, tail)
      {
        var lbuf := view[area.start + tail + 1];
        InstalledKeepsLog(old(disk), area, lh, tail);
        InstalledKeepsLog(old(view), area, lh, tail);
        Bwrite(block[tail], lbuf);
        tail := tail + 1;
      }
    }

    method RecoverFromLog()
      requires block.Length == LOGSIZE && view == disk && Replayable(disk, area)
      modifies `disk, `view, `trace, `n, block
      ensures n == 0 && view == disk && disk == Recovered(old(disk), area)
      ensures trace == old(trace) + InstallImages(old(disk), area, PendingBlocks(old(disk), area),
                                                  |PendingBlocks(old(disk), area)|)
                       + [disk]
    {
      ReadHead();
      InstallTrans();
      n := 0;
      WriteHead();
    }

    /** commit(): on return disk and cache agree, nothing is pending, and the trace grew by exactly
        the images whose recovery CrashAtomicity describes. */
    method Commit()
      requires Clean()
      modifies `disk, `view, `trace, `n
      ensures Clean() && n == 0
      ensures disk == view && SameHome(area, disk, old(view))
      ensures old(n) == 0 ==> disk == old(disk) && trace == old(trace)
      ensures old(n) > 0 ==> disk == CommitImage(old(disk), area, old(view), old(Lh()), 2 * old(n) + 2)
      ensures old(n) > 0 ==> trace == old(trace) + CommitImages(old(disk), area, old(view), old(Lh()), 2 * old(n) + 2)
    {
      if n > 0 {
        ghost var d, v, lh := disk, view, block[..n];
        CommitViews(d, area, v, lh);
        CommitPhases(trace, d, area, v, lh);
        CommitEnds(d, area, v, lh);
        WriteLog();
        WriteHead();
        InstallTrans();
        n := 0;
        assert block[..n] == [];
        WriteHead();
      }
    }

    /** One pass through the loop of begin_op; false is a sleep on &log. */
    method TryBeginOp() returns (admitted: bool)
      requires n <= block.Length
      modifies `outstanding
      ensures admitted == GC.CanBegin(old(Shared()))
      ensures admitted <==> !old(committing) && old(n) + MAXOPBLOCKS * (old(outstanding) + 1) <= LOGSIZE
      ensures outstanding == if admitted then old(outstanding) + 1 else old(outstanding)
    {
      if committing {
        admitted := false;
      } else if n + (outstanding + 1) * MAXOPBLOCKS > LOGSIZE {
        admitted := false;
      } else {
        outstanding := outstanding + 1;
        admitted := true;
      }
    }

    /** log_write on the buffer of block b, whose data the caller has set to `data`. */
    method LogWrite(b: Word, data: Block) returns (panicked: bool)
      requires Clean() && b < |disk| && !area.Contains(b)
      modifies `view, `n, block
      ensures Clean() && panicked == GC.WritePanics(old(Shared()), area.size)
      ensures panicked ==> view == old(view) && Lh() == old(Lh())
      ensures !panicked ==> view == old(view)[b := data] && Lh() == GC.Absorb(old(Lh()), b)
    {
      if n >= LOGSIZE || n >= area.size - 1 {
        return true;
      }
      if outstanding < 1 {
        return true;
      }
      ghost var lh := block[..n];
      var i := 0;
      while i < n
        invariant i <= n && forall j :: 0 <= j < i ==> block[j] != b
      {
        if block[i] == b {
          break;
        }
        i := i + 1;
      }
      block[i] := b;
      if i == n {
        n := n + 1;
        assert block[..n] == lh + [b];
      } else {
        assert block[..n] == lh;
      }
      view := view[b := data];
      panicked := false;
    }

    /** end_op; the last operation out commits. */
    method EndOp() returns (panicked: bool)
      requires Clean()
      modifies `disk, `view, `trace, `n, `outstanding, `committing
      ensures Clean() && outstanding == old(outstanding) - 1
      ensures panicked == old(committing)
      ensures panicked || old(outstanding) != 1 ==>
                Lh() == old(Lh()) && disk == old(disk) && view == old(view) && trace == old(trace)
                  && committing == old(committing)
      ensures !panicked && old(outstanding) == 1 ==>
                !committing && Lh() == [] && disk == view && SameHome(area, disk, old(view))
      ensures !panicked && old(outstanding) == 1 && old(n) > 0 ==>
                trace == old(trace) + CommitImages(old(disk), area, old(view), old(Lh()), 2 * old(n) + 2)
    {
      var doCommit := false;
      outstanding := outstanding - 1;
      if committing {
        return true;
      }
      if outstanding == 0 {
        doCommit := true;
        committing := true;
      }
      if doCommit {
        Commit();
        committing := false;
      }
      panicked := false;
    }
  }
}
