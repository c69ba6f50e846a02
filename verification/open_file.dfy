/** file.c: reading and writing an open file at its offset, a write in chunks of one transaction each. */
module OpenFile {
  import opened Options
  import opened Params
  import opened Blocks
  import opened Dinode
  import opened FileState
  import opened FileContents
  import opened TransactionSize
  import opened FileSystem

  /** A C int passed as a uint. */
  function ToUint(n: int): Word {
    n % 0x1_0000_0000
  }

  const INT_END := 0x8000_0000

  /** The offset, a uint, after readi or writei has returned the int r. */
  function Advanced(off: Word, r: int): Word
    requires r < INT_END
  {
    if r <= 0 then off else if off + r < 0x1_0000_0000 then off + r else off + r - 0x1_0000_0000
  }

  /** A read ends where the file does when fewer than n bytes are left, and so for every negative n. */
  lemma ReadEnds(n: int, off: Word, size: Word, un: Word, r: int)
    requires -INT_END <= n < INT_END && un == ToUint(n) && off <= size <= MAXSIZE && off + un < 0x1_0000_0000
    requires r == if off + un > size then size - off else un
    ensures 0 <= r < INT_END && Advanced(off, r) == off + r <= size && (r == n || off + r == size)
  {
  }

  // ----- what a write does to the files -----

  /** The files after d is written at off through an open file; a device's inode keeps its contents. */
  function Written(files: seq<FileView>, ip: nat, off: nat, d: seq<Byte>): seq<FileView>
    requires ip < |files|
  {
    if files[ip].kind == T_DEV then files else Put(files, ip, off, d)
  }

  /** filewrite on a file, i bytes in: the offset has moved by i and those bytes are in the file. */
  ghost predicate Progress(files0: seq<FileView>, t: State, ip: nat, begun: nat, off: nat, addr: seq<Byte>, i: nat) {
    && Sound(t) && ip < |files0| && files0[ip].kind != T_DEV && i <= |addr| && off == begun + i
    && (i > 0 ==> begun <= |files0[ip].data|) && Files(t) == Put(files0, ip, begun, addr[..i])
  }

  /** filewrite on a device, i bytes in. */
  ghost predicate DeviceProgress(files0: seq<FileView>, t: State, ip: nat, begun: Word, off: nat, i: nat) {
    Sound(t) && ip < |files0| && files0[ip].kind == T_DEV && i < INT_END && off == Advanced(begun, i)
      && Files(t) == files0
  }

  /** The offset and the files i bytes into filewrite, which began at offset begun. */
  ghost predicate Moved(files0: seq<FileView>, t: State, ip: nat, begun: Word, off: nat, addr: seq<Byte>, i: nat) {
    ip < |files0| && if files0[ip].kind == T_DEV then DeviceProgress(files0, t, ip, begun, off, i)
      else Progress(files0, t, ip, begun, off, addr, i)
  }

  /** From s to t one transaction that fits the log changed nothing but the blocks it gave to it. */
  ghost predicate Transaction(s: State, t: State) {
    Sound(s) && Sound(t) && t.sb == s.sb && |t.logged| <= LOGSIZE && Traced(s.(logged := {}), t)
  }

  /** A state between two transactions of filewrite, i bytes in. */
  datatype Commit = Commit(s: State, i: nat)

  ghost predicate CommitOk(c: Commit, files0: seq<FileView>, ip: nat, begun: nat, addr: seq<Byte>) {
    Sound(c.s) && ip < |files0| && c.i <= |addr| && Files(c.s) == Written(files0, ip, begun, addr[..c.i])
  }

  /** One transaction of filewrite: a chunk more. */
  ghost predicate Follows(c: Commit, e: Commit) {
    Transaction(c.s, e.s) && c.i < e.i <= c.i + CHUNK
  }

  ghost predicate Linked(cs: seq<Commit>) {
    forall m, l :: 0 <= m && l == m + 1 < |cs| ==> Follows(cs[m], cs[l])
  }

  /** The transactions of one filewrite. */
  ghost predicate Commits(cs: seq<Commit>, files0: seq<FileView>, ip: nat, begun: nat, addr: seq<Byte>) {
    && |cs| > 0 && cs[0].i == 0 && Linked(cs)
    && forall m :: 0 <= m < |cs| ==> CommitOk(cs[m], files0, ip, begun, addr)
  }

  /** The state, the files and the offset before a filewrite. */
  datatype History = History(s: State, files: seq<FileView>, begun: Word) {
    predicate Device(ip: nat) {
      ip < |files| && files[ip].kind == T_DEV
    }

    predicate Refuses(ip: nat, n: nat) {
      ip < |files| && (begun > |files[ip].data| || begun + n > MAXSIZE)
    }
  }

  /** filewrite's loop, i bytes in, having committed cs. */
  ghost predicate Underway(h: History, t: State, ip: nat, off: nat, addr: seq<Byte>, i: nat, cs: seq<Commit>) {
    && Moved(h.files, t, ip, h.begun, off, addr, i) && Commits(cs, h.files, ip, h.begun, addr)
    && cs[0].s == h.s && cs[|cs| - 1] == Commit(t, i)
  }

  lemma UnloggedContents(s: State, t: State, i: nat)
    requires t == s.(logged := t.logged) && i < |s.inodes| && s.inodes[i].size <= MAXSIZE
    ensures Contents(t, i) == Contents(s, i)
  {
    forall p: nat | p < s.inodes[i].size ensures ByteAt(t, i, p) == ByteAt(s, i, p) {
    }
    assert Contents(t, i) == Contents(s, i);
  }

  /** What log_write records makes no difference to the files. */
  lemma Unlogged(s: State, t: State)
    requires Sound(s) && t == s.(logged := t.logged)
    ensures Sound(t) && Files(t) == Files(s)
  {
    forall j: nat, l: nat | j < |s.inodes| && l < SLOTS ensures Slot(t, j, l) == Slot(s, j, l) {
    }
    forall y: nat | y < s.sb.size ensures Used(t, y) == Used(s, y) {
    }
    forall j: nat | j < |t.inodes| ensures Dense(t, j) && Saved(t, j) {
      assert Dense(s, j) && Saved(s, j);
    }
    SizesBounded(s);
    forall j: nat | j < |t.inodes| ensures Files(t)[j] == Files(s)[j] {
      UnloggedContents(s, t, j);
    }
    assert Files(t) == Files(s);
  }

  lemma PutNothing(files: seq<FileView>, i: nat, off: nat, addr: seq<Byte>)
    ensures Put(files, i, off, addr[..0]) == files
  {
    if i < |files| && off <= |files[i].data| {
      assert Splice(files[i].data, off, addr[..0]) == files[i].data;
    }
  }

  /** The file reaches to the end of what was put in it. */
  lemma PutReaches(files: seq<FileView>, ip: nat, off: nat, d: seq<Byte>)
    requires ip < |files|
    ensures off <= |files[ip].data| ==> off + |d| <= |Put(files, ip, off, d)[ip].data|
    ensures off > |files[ip].data| ==> Put(files, ip, off, d) == files
  {
    if off <= |files[ip].data| {
      SpliceAt(files[ip].data, off, d, 0);
    }
  }

  lemma PutTwice(files: seq<FileView>, ip: nat, off: nat, at: nat, a: seq<Byte>, b: seq<Byte>)
    requires ip < |files| && at == off + |a| && off <= |files[ip].data|
    ensures Put(Put(files, ip, off, a), ip, at, b) == Put(files, ip, off, a + b)
  {
    var c := files[ip].data;
    SpliceTwice(c, off, a, b);
    var m := Put(files, ip, off, a);
    assert m[ip].data == Splice(c, off, a) && at <= |m[ip].data|;
    assert m[ip := m[ip].(data := Splice(c, off, a + b))] == files[ip := files[ip].(data := Splice(c, off, a + b))];
  }

  /** A second write behind the first makes one write of both. */
  lemma PutMore(files: seq<FileView>, ip: nat, off: nat, addr: seq<Byte>, i: nat, j: nat, at: nat)
    requires i <= j <= |addr| && ip < |files| && (i > 0 ==> off <= |files[ip].data|) && at == off + i
    ensures Put(Put(files, ip, off, addr[..i]), ip, at, addr[i..j]) == Put(files, ip, off, addr[..j])
  {
    assert addr[..i] + addr[i..j] == addr[..j];
    if off <= |files[ip].data| {
      PutTwice(files, ip, off, at, addr[..i], addr[i..j]);
    }
  }

  lemma StartsMoved(s: State, ip: nat, off: Word, addr: seq<Byte>)
    requires Sound(s) && ip < |s.inodes|
    ensures Moved(Files(s), s, ip, off, off, addr, 0)
    ensures Commits([Commit(s, 0)], Files(s), ip, off, addr)
  {
    PutNothing(Files(s), ip, off, addr);
  }

  lemma PutNext(files0: seq<FileView>, files: seq<FileView>, ip: nat, begun: nat, off: nat, addr: seq<Byte>, i: nat,
                j: nat)
    requires i < j <= |addr| && ip < |files0| && files == Put(files0, ip, begun, addr[..i])
    requires off == begun + i && (i > 0 ==> begun <= |files0[ip].data|) && off <= |files[ip].data|
    ensures Put(files, ip, off, addr[i..j]) == Put(files0, ip, begun, addr[..j]) && begun <= |files0[ip].data|
  {
    PutMore(files0, ip, begun, addr, i, j, off);
    PutReaches(files0, ip, begun, addr[..i]);
  }

  /** A file's chunk. */
  lemma ChunkWritten(files0: seq<FileView>, s: State, t: State, ip: nat, begun: nat, off: nat, addr: seq<Byte>,
                     i: nat, j: nat, at: nat)
    requires Progress(files0, s, ip, begun, off, addr, i) && i < j <= |addr| && off <= |Files(s)[ip].data|
    requires Sound(t) && Files(t) == Put(Files(s), ip, off, addr[i..j]) && at == off + (j - i)
    ensures Progress(files0, t, ip, begun, at, addr, j)
  {
    PutNext(files0, Files(s), ip, begun, off, addr, i, j);
  }

  lemma ChunkGoesIn(files0: seq<FileView>, s: State, t: State, ip: nat, begun: Word, off: Word, addr: seq<Byte>,
                    i: nat, j: nat, at: nat)
    requires j < INT_END && Moved(files0, s, ip, begun, off, addr, i) && i < j <= |addr| && Sound(t) && ip < |s.inodes|
    requires if s.inodes[ip].kind == T_DEV then Files(t) == Files(s) && at == Advanced(off, j - i)
             else off <= s.inodes[ip].size && Files(t) == Put(Files(s), ip, off, addr[i..j]) && at == off + (j - i)
    ensures Moved(files0, t, ip, begun, at, addr, j)
    ensures CommitOk(Commit(t, j), files0, ip, begun, addr)
  {
    if files0[ip].kind != T_DEV {
      ChunkWritten(files0, s, t, ip, begun, off, addr, i, j, at);
    }
  }

  /** A chunk that is refused. */
  lemma ChunkFails(files0: seq<FileView>, s: State, t: State, ip: nat, begun: Word, off: nat, addr: seq<Byte>,
                   i: nat, j: nat, n: nat)
    requires Moved(files0, s, ip, begun, off, addr, i) && i < j <= n && Sound(t) && Files(t) == Files(s)
             && ip < |s.inodes|
    requires s.inodes[ip].kind == T_DEV || off > s.inodes[ip].size || off + (j - i) > MAXSIZE
    ensures Moved(files0, t, ip, begun, off, addr, i)
    ensures files0[ip].kind == T_DEV || begun > |files0[ip].data| || begun + n > MAXSIZE
  {
    if files0[ip].kind != T_DEV {
      PutReaches(files0, ip, begun, addr[..i]);
    }
  }

  lemma LinkedMore(cs: seq<Commit>, c: Commit)
    requires cs != [] && Linked(cs) && Follows(cs[|cs| - 1], c)
    ensures Linked(cs + [c])
  {
    var r := cs + [c];
    forall m, l | 0 <= m && l == m + 1 < |r| ensures Follows(r[m], r[l]) {
      assert r[m] == cs[m];
      assert r[l] == if l < |cs| then cs[l] else c;
    }
  }

  lemma CommitsMore(cs: seq<Commit>, files0: seq<FileView>, ip: nat, begun: nat, addr: seq<Byte>, c: Commit)
    requires Commits(cs, files0, ip, begun, addr) && CommitOk(c, files0, ip, begun, addr) && Follows(cs[|cs| - 1], c)
    ensures Commits(cs + [c], files0, ip, begun, addr)
  {
    LinkedMore(cs, c);
  }

  class File {
    const ip: nat
    const readable: bool
    const writable: bool
    var off: Word

    /** fileread on an inode. */
    method Fileread(fs: FileSys, n: int) returns (r: int, dst: seq<Byte>)
      requires Sound(fs.S()) && ip < |fs.inodes| && -INT_END <= n < INT_END
      modifies `off, fs
      ensures fs.S() == old(fs.S())
      ensures r < INT_END && off == Advanced(old(off), r)
      ensures !readable ==> r == -1
      ensures readable && fs.inodes[ip].kind != T_DEV ==> (r == -1 <==> BadRange(fs.inodes[ip], old(off), ToUint(n)))
      ensures r != -1 && fs.inodes[ip].kind != T_DEV ==>
                && r >= 0 && off == old(off) + r <= fs.inodes[ip].size <= MAXSIZE
                && dst == Contents(fs.S(), ip)[old(off)..off] && (r == n || off == fs.inodes[ip].size)
    {
      if !readable {
        return -1, [];
      }
      var un := ToUint(n);
      r, dst := fs.Readi(ip, off, un);
      if fs.inodes[ip].kind != T_DEV && r != -1 {
        ReadEnds(n, off, fs.inodes[ip].size, un, r);
      }
      off := Advanced(off, r);
    }

    /** One transaction of filewrite: begin_op, writei of src, end_op. */
    method WriteChunk(fs: FileSys, src: seq<Byte>) returns (r: Option<int>)
      requires Sound(fs.S()) && ip < |fs.inodes| && 0 < |src| <= CHUNK
      modifies `off, fs
      ensures r == None ==> Full(fs.S()) && old(fs.inodes[ip].kind) != T_DEV
      ensures r.Some? ==> Transaction(old(fs.S()), fs.S())
      ensures r.Some? ==> r.value < INT_END && off == Advanced(old(off), r.value)
      ensures old(fs.inodes[ip].kind) == T_DEV ==> Files(fs.S()) == old(Files(fs.S()))
      ensures r.Some? && old(fs.inodes[ip].kind) != T_DEV ==>
                if old(off) > old(fs.inodes[ip].size) || old(off) + |src| > MAXSIZE then
                  r.value == -1 && Files(fs.S()) == old(Files(fs.S()))
                else
                  r.value == |src| && off == old(off) + |src|
                    && Files(fs.S()) == Put(old(Files(fs.S())), ip, old(off), src)
    {
      ghost var s := fs.S();
      fs.logged := {};
      Unlogged(s, fs.S());
      r := fs.Writei(ip, src, off, |src|);
      ChunkFitsLog(off, |src|);
      assert src[..|src|] == src;
      WrapTest(s.inodes[ip], off, |src|);
      assert r.Some? ==> Traced(s.(logged := {}), fs.S());
      assert r.Some? ==> |fs.logged| <= LOGSIZE;
      if r.Some? {
        off := Advanced(off, r.value);
      }
    }

    /** One round of filewrite's loop; a short write to a device is a panic. */
    method WriteRound(fs: FileSys, addr: seq<Byte>, i: nat, n: nat, ghost h: History, ghost cs: seq<Commit>)
      returns (r: Option<int>, j: nat, ghost cs': seq<Commit>)
      requires i < n <= |addr| && n < INT_END && Underway(h, fs.S(), ip, off, addr, i, cs)
      modifies `off, fs
      ensures r == None ==> Full(fs.S()) || h.Device(ip)
      ensures r == None || r.value < 0 ==> cs' == cs
      ensures r.Some? && r.value < 0 ==>
              Moved(h.files, fs.S(), ip, h.begun, off, addr, i) && (h.Device(ip) || h.Refuses(ip, n))
      ensures r.Some? && r.value >= 0 ==> i < j <= n && Underway(h, fs.S(), ip, off, addr, j, cs')
    {
      ghost var s, off0 := fs.S(), off;
      cs' := cs;
      var n1 := if n - i > CHUNK then CHUNK else n - i;
      j := i + n1;
      r := WriteChunk(fs, addr[i..j]);
      if r == None {
        return;
      }
      if r.value < 0 {
        ChunkFails(h.files, s, fs.S(), ip, h.begun, off, addr, i, j, n);
        return;
      }
      if r.value != n1 {
        return None, j, cs;
      }
      ChunkGoesIn(h.files, s, fs.S(), ip, h.begun, off0, addr, i, j, off);
      CommitsMore(cs, h.files, ip, h.begun, addr, Commit(fs.S(), j));
      cs' := cs + [Commit(fs.S(), j)];
    }

    /** filewrite's loop; cs are the states it has committed. */
    method WriteAll(fs: FileSys, addr: seq<Byte>, n: nat, ghost h: History)
      returns (r: Option<nat>, ghost cs: seq<Commit>)
      requires n <= |addr| && n < INT_END && Underway(h, fs.S(), ip, off, addr, 0, [Commit(fs.S(), 0)])
      modifies `off, fs
      ensures Commits(cs, h.files, ip, h.begun, addr) && cs[0].s == h.s
      ensures r == None ==> Full(fs.S()) || h.Device(ip)
      ensures r.Some? ==> r.value == cs[|cs| - 1].i <= n && Moved(h.files, fs.S(), ip, h.begun, off, addr, r.value)
      ensures r.Some? && !h.Device(ip) && !h.Refuses(ip, n) ==> r.value == n
    {
      cs := [Commit(fs.S(), 0)];
      var i := 0;
      while i < n
        invariant i <= n && Underway(h, fs.S(), ip, off, addr, i, cs)
        decreases n - i
      {
        var chunk, j;
        chunk, j, cs := WriteRound(fs, addr, i, n, h, cs);
        if chunk == None {
          return None, cs;
        }
        if chunk.value < 0 {
          return Some(i), cs;
        }
        i := j;
      }
      r := Some(i);
    }

    /** filewrite on an inode: the first `done` bytes get into the file and move the offset, every other
        file is as it was, and each state in cs follows from the one before by a transaction that fits the
        log. All n bytes are written when they fit a file. None is a panic: no block is free, or a device
        has taken only part of a chunk. */
    method Filewrite(fs: FileSys, addr: seq<Byte>, n: int)
      returns (r: Option<int>, ghost done: nat, ghost cs: seq<Commit>)
      requires Sound(fs.S()) && ip < |fs.inodes| && n <= |addr| && n < INT_END
      modifies `off, fs
      ensures Commits(cs, old(Files(fs.S())), ip, old(off), addr) && cs[0].s == old(fs.S())
      ensures r == None ==> Full(fs.S()) || old(fs.inodes[ip].kind) == T_DEV
      ensures r.Some? ==> done == cs[|cs| - 1].i && r == Some(if writable && done == n then n else -1)
      ensures n < 0 ==> done == 0
      ensures r.Some? ==> Moved(old(Files(fs.S())), fs.S(), ip, old(off), off, addr, done)
      ensures r.Some? && writable && old(fs.inodes[ip].kind) != T_DEV ==>
                old(off) <= old(fs.inodes[ip].size) && 0 <= n <= MAXSIZE - old(off) ==> done == n
    {
      ghost var h := History(fs.S(), Files(fs.S()), off);
      StartsMoved(h.s, ip, off, addr);
      done, cs := 0, [Commit(h.s, 0)];
      if !writable || n < 0 {
        r := Some(-1);
      } else {
        var i;
        i, cs := WriteAll(fs, addr, n, h);
        if i == None {
          r := None;
        } else {
          done := i.value;
          r := Some(if i.value == n then n else -1);
        }
      }
    }
  }
}
