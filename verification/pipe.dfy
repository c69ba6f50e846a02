/** pipe.c: a ring buffer behind a lock, with readers and writers that sleep and wake each other.
    A segment is what a process does from taking the lock to releasing it or going to sleep. */
module Pipe {
  import opened Blocks
  import opened Params

  const TWO32 := 0x1_0000_0000

  /** The pipe as the bytes in it and its two open flags. */
  datatype Queue = Queue(pending: seq<Byte>, readopen: bool, writeopen: bool)

  /** How a segment ends: the call returns, or the process sleeps with its call at byte i. */
  datatype Outcome = Return(r: int) | Sleep(i: nat)

  function Room(q: Queue): int {
    PIPESIZE - |q.pending|
  }

  /** The bytes that a write of addr, at byte i, can store now. */
  function Storable(q: Queue, addr: seq<Byte>, i: nat): nat
    requires i <= |addr| && Room(q) >= 0
  {
    if |addr| - i <= Room(q) then |addr| - i else Room(q)
  }

  /** A segment of pipewrite: the queue, how it ends, and whether it wakes the readers. */
  function WriteSegment(q: Queue, addr: seq<Byte>, i: nat, killed: bool): (Queue, Outcome, bool)
    requires i <= |addr| && Room(q) >= 0
  {
    var k := Storable(q, addr, i);
    var q' := q.(pending := q.pending + addr[i..i + k]);
    if i + k == |addr| then (q', Return(|addr|), true)
    else if !q.readopen || killed then (q', Return(-1), false)
    else (q', Sleep(i + k), true)
  }

  /** The bytes that a read of n takes now. */
  function Takable(q: Queue, n: nat): nat {
    if n <= |q.pending| then n else |q.pending|
  }

  /** A segment of piperead: the queue, how it ends, and whether it wakes the writers. */
  function ReadSegment(q: Queue, n: nat, killed: bool): (Queue, Outcome, bool) {
    if q.pending == [] && q.writeopen then
      if killed then (q, Return(-1), false) else (q, Sleep(0), false)
    else (q.(pending := q.pending[Takable(q, n)..]), Return(Takable(q, n)), true)
  }

  // ----- the ring buffer with its 32-bit counters -----

  /** nwrite - nread as a uint. */
  function Count(nread: Word, nwrite: Word): Word {
    (nwrite - nread) % TWO32
  }

  /** The ring holds the bytes of pending from nread on. */
  ghost predicate Holds(data: seq<Byte>, nread: Word, nwrite: Word, pending: seq<Byte>) {
    && |data| == PIPESIZE && |pending| == Count(nread, nwrite) <= PIPESIZE
    && forall k: nat :: k < |pending| ==> data[(nread + k) % PIPESIZE] == pending[k]
  }

  /** ++ on a uint counter. */
  function Bump(n: Word): Word {
    (n + 1) % TWO32
  }

  /** The pipe is full or empty exactly when the source's comparisons of the counters say so. */
  lemma CounterTests(nread: Word, nwrite: Word)
    requires Count(nread, nwrite) <= PIPESIZE
    ensures nwrite == (nread + PIPESIZE) % TWO32 <==> Count(nread, nwrite) == PIPESIZE
    ensures nread == nwrite <==> Count(nread, nwrite) == 0
  {
  }

  lemma StoreOne(data: seq<Byte>, nread: Word, nwrite: Word, pending: seq<Byte>, b: Byte)
    requires Holds(data, nread, nwrite, pending) && |pending| < PIPESIZE
    ensures Holds(data[nwrite % PIPESIZE := b], nread, Bump(nwrite), pending + [b])
  {
    assert nwrite % PIPESIZE == (nread + |pending|) % PIPESIZE;
    assert Count(nread, Bump(nwrite)) == |pending| + 1;
  }

  lemma TakeOne(data: seq<Byte>, nread: Word, nwrite: Word, pending: seq<Byte>)
    requires Holds(data, nread, nwrite, pending) && pending != []
    ensures data[nread % PIPESIZE] == pending[0] && Holds(data, Bump(nread), nwrite, pending[1..])
  {
    assert data[(nread + 0) % PIPESIZE] == pending[0];
    assert Count(Bump(nread), nwrite) == |pending| - 1;
    var rest := pending[1..];
    forall k: nat | k < |rest| ensures data[(Bump(nread) + k) % PIPESIZE] == rest[k] {
      assert (Bump(nread) + k) % PIPESIZE == (nread + (k + 1)) % PIPESIZE;
    }
  }

  function Closed(q: Queue, writable: bool): Queue {
    if writable then q.(writeopen := false) else q.(readopen := false)
  }

  class Ring {
    var data: array<Byte>
    var nread: Word
    var nwrite: Word
    var readopen: bool
    var writeopen: bool
    ghost var pending: seq<Byte>

    ghost predicate Valid()
      reads this, data
    {
      Holds(data[..], nread, nwrite, pending)
    }

    ghost function Q(): Queue
      reads this
    {
      Queue(pending, readopen, writeopen)
    }

    /** pipealloc's initialization of the pipe; its counters may start anywhere. */
    constructor (start: Word)
      ensures Valid() && Q() == Queue([], true, true) && fresh(data)
    {
      data, nread, nwrite, readopen, writeopen, pending := new Byte[PIPESIZE], start, start, true, true, [];
    }

    /** p->data[p->nwrite++ % PIPESIZE] = b */
    method Put(b: Byte)
      requires Valid() && |pending| < PIPESIZE
      modifies `nwrite, `pending, data
      ensures Valid() && pending == old(pending) + [b]
    {
      StoreOne(data[..], nread, nwrite, pending, b);
      data[nwrite % PIPESIZE] := b;
      nwrite := Bump(nwrite);
      pending := pending + [b];
    }

    /** p->data[p->nread++ % PIPESIZE] */
    method Get() returns (b: Byte)
      requires Valid() && pending != []
      modifies `nread, `pending
      ensures Valid() && b == old(pending)[0] && pending == old(pending)[1..]
    {
      TakeOne(data[..], nread, nwrite, pending);
      b := data[nread % PIPESIZE];
      nread := Bump(nread);
      pending := pending[1..];
    }

    /** pipewrite from byte i on, up to its next sleep or its return. It stores all that is left, or fills
        the pipe; then it returns the length of addr, gives up, or sleeps at the first byte not stored. */
    method Pipewrite(addr: seq<Byte>, i: nat, killed: bool) returns (out: Outcome, wakesReaders: bool)
      requires Valid() && i <= |addr|
      modifies `nwrite, `pending, data
      ensures Valid() && (Q(), out, wakesReaders) == old(WriteSegment(Q(), addr, i, killed))
      ensures |addr| - i <= PIPESIZE - old(|pending|) ==>
                pending == old(pending) + addr[i..] && out == Return(|addr|) && wakesReaders
      ensures |addr| - i > PIPESIZE - old(|pending|) ==>
                && |pending| == PIPESIZE && pending == old(pending) + addr[i..i + (PIPESIZE - old(|pending|))]
                && (if !readopen || killed then out == Return(-1) && !wakesReaders
                    else out == Sleep(i + (PIPESIZE - old(|pending|))) && wakesReaders)
    {
      ghost var q := Q();
      var j := i;
      while j < |addr|
        invariant Valid() && i <= j <= |addr| && |q.pending| + (j - i) <= PIPESIZE
        invariant pending == q.pending + addr[i..j]
      {
        CounterTests(nread, nwrite);
        if nwrite == (nread + PIPESIZE) % TWO32 {
          if !readopen || killed {
            return Return(-1), false;
          }
          return Sleep(j), true;
        }
        Put(addr[j]);
        assert addr[i..j] + [addr[j]] == addr[i..j + 1];
        j := j + 1;
      }
      out, wakesReaders := Return(|addr|), true;
    }

    /** piperead's loop: as many bytes as there are, up to n. */
    method Copy(n: nat) returns (addr: seq<Byte>, i: nat)
      requires Valid()
      modifies `nread, `pending
      ensures Valid() && |addr| == i && i == Takable(old(Q()), n)
      ensures addr == old(pending)[..i] && pending == old(pending)[i..]
    {
      addr, i := [], 0;
      while i < n
        invariant Valid() && i <= n && i <= old(|pending|)
        invariant addr == old(pending)[..i] && pending == old(pending)[i..]
        decreases n - i
      {
        CounterTests(nread, nwrite);
        if nread == nwrite {
          break;
        }
        var b := Get();
        addr := addr + [b];
        i := i + 1;
      }
    }

    /** piperead up to its sleep or its return, with the bytes it read: it sleeps, or gives up when killed,
        exactly on an empty pipe that is open for writing; otherwise it takes as many bytes as there are,
        up to n, and returns how many. */
    method Piperead(n: nat, killed: bool) returns (addr: seq<Byte>, out: Outcome, wakesWriters: bool)
      requires Valid()
      modifies `nread, `pending
      ensures Valid() && (Q(), out, wakesWriters) == old(ReadSegment(Q(), n, killed))
      ensures old(pending) == [] && writeopen ==>
                addr == pending == [] && !wakesWriters && out == if killed then Return(-1) else Sleep(0)
      ensures old(pending) != [] || !writeopen ==>
                && |addr| == (if n <= old(|pending|) then n else old(|pending|))
                && old(pending) == addr + pending && out == Return(|addr|) && wakesWriters
    {
      CounterTests(nread, nwrite);
      if nread == nwrite && writeopen {
        return [], if killed then Return(-1) else Sleep(0), false;
      }
      var i;
      addr, i := Copy(n);
      out, wakesWriters := Return(i), true;
    }

    /** pipeclose: readers or writers are woken, and the pipe is freed once both ends are closed. */
    method Pipeclose(writable: bool) returns (freed: bool)
      requires Valid()
      modifies `readopen, `writeopen
      ensures Valid() && Q() == Closed(old(Q()), writable) && freed == (!readopen && !writeopen)
    {
      if writable {
        writeopen := false;
      } else {
        readopen := false;
      }
      freed := !readopen && !writeopen;
    }
  }
}
