/** begin_op, log_write and end_op as atomic steps under log.lock, interleaved by any number of
    processes. log_write makes its two tests before it takes the lock, so they are a step of their own.
    A transaction is everything logged between two commits. */
module GroupCommit {
  import opened Blocks
  import opened Options
  import opened Params

  /** The fields of struct log that the lock protects; lh is log.lh.block[..log.lh.n]. */
  datatype Shared = Shared(outstanding: int, committing: bool, lh: seq<Word>)

  predicate CanBegin(l: Shared) {
    !l.committing && |l.lh| + (l.outstanding + 1) * MAXOPBLOCKS <= LOGSIZE
  }

  /** The two panics of log_write, for a log of `size` blocks. */
  predicate WritePanics(l: Shared, size: nat) {
    |l.lh| >= LOGSIZE || |l.lh| >= size - 1 || l.outstanding < 1
  }

  function Absorb(lh: seq<Word>, b: Word): seq<Word> {
    if b in lh then lh else lh + [b]
  }

  function Ended(l: Shared): Shared {
    l.(outstanding := l.outstanding - 1, committing := l.outstanding == 1)
  }

  // ----- the system -----

  /** Asleep is on channel &log; Woken has been made runnable and will test the condition again. next is
      the block of a log_write that has passed its tests and not yet taken the lock. */
  datatype Proc = Outside | Asleep | Woken | InOp(txn: nat, logged: set<Word>, calls: nat, next: Option<Word>)
    | Committer

  /** committed[t] is what transaction t installed; finished lists the ended operations. */
  datatype System = System(
    log: Shared, procs: seq<Proc>, panicked: bool,
    committed: seq<seq<Word>>, finished: seq<(nat, set<Word>)>)

  /** How the callers of log_write keep to MAXOPBLOCKS: by distinct blocks or by calls. */
  datatype Discipline = DistinctBlocks | Calls

  datatype Config = Config(size: nat, discipline: Discipline)

  datatype Action = Begin(p: nat) | Check(p: nat, b: Word) | Append(p: nat) | End(p: nat) | CommitDone(p: nat)

  predicate WithinLimit(c: Config, op: Proc, b: Word)
    requires op.InOp?
  {
    match c.discipline
    case DistinctBlocks => b in op.logged || |op.logged| < MAXOPBLOCKS
    case Calls => op.calls < MAXOPBLOCKS
  }

  predicate Enabled(c: Config, s: System, a: Action) {
    && !s.panicked && a.p < |s.procs|
    && match a
       case Begin(p) => s.procs[p].Outside? || s.procs[p].Woken?
       case Check(p, b) => s.procs[p].InOp? && s.procs[p].next == None && WithinLimit(c, s.procs[p], b)
       case Append(p) => s.procs[p].InOp? && s.procs[p].next.Some?
       case End(p) => s.procs[p].InOp? && s.procs[p].next == None
       case CommitDone(p) => s.procs[p].Committer?
  }

  function WakeAll(procs: seq<Proc>): seq<Proc> {
    seq(|procs|, i requires 0 <= i < |procs| => if procs[i].Asleep? then Woken else procs[i])
  }

  /** One critical section; an action that is not enabled does nothing. */
  function Step(c: Config, s: System, a: Action): System {
    if !Enabled(c, s, a) then s else
    match a
    case Begin(p) =>
      if CanBegin(s.log) then
        s.(log := s.log.(outstanding := s.log.outstanding + 1),
           procs := s.procs[p := InOp(|s.committed|, {}, 0, None)])
      else s.(procs := s.procs[p := Asleep])
    case Check(p, b) =>
      if WritePanics(s.log, c.size) then s.(panicked := true)
      else s.(procs := s.procs[p := s.procs[p].(next := Some(b))])
    case Append(p) =>
      var op := s.procs[p];
      var b := op.next.value;
      s.(log := s.log.(lh := Absorb(s.log.lh, b)),
         procs := s.procs[p := InOp(op.txn, op.logged + {b}, op.calls + 1, None)])
    case End(p) =>
      if s.log.committing then s.(panicked := true)
      else
        var l := Ended(s.log);
        s.(log := l,
           procs := if l.committing then s.procs[p := Committer] else WakeAll(s.procs[p := Outside]),
           finished := s.finished + [(s.procs[p].txn, s.procs[p].logged)])
    case CommitDone(p) =>
      s.(log := Shared(s.log.outstanding, false, []), procs := WakeAll(s.procs[p := Outside]),
         committed := s.committed + [s.log.lh])
  }

  function Exec(c: Config, s: System, run: seq<Action>): System
    decreases |run|
  {
    if run == [] then s else Exec(c, Step(c, s, run[0]), run[1..])
  }

  function Boot(nproc: nat): System {
    System(Shared(0, false, []), seq(nproc, _ => Outside), false, [], [])
  }

  // ----- the invariant -----

  function InOps(procs: seq<Proc>): nat {
    if procs == [] then 0 else InOps(procs[..|procs| - 1]) + (if procs[|procs| - 1].InOp? then 1 else 0)
  }

  function Room(c: Config, op: Proc): int {
    if !op.InOp? then 0
    else MAXOPBLOCKS - (if c.discipline.Calls? then op.calls else |op.logged|)
  }

  /** The log slots still promised to running operations. */
  function Reserved(c: Config, procs: seq<Proc>): int {
    if procs == [] then 0 else Reserved(c, procs[..|procs| - 1]) + Room(c, procs[|procs| - 1])
  }

  lemma {:induction false} CountsUpdate(c: Config, procs: seq<Proc>, p: nat, x: Proc)
    requires p < |procs|
    ensures InOps(procs[p := x]) == InOps(procs)
                                    - (if procs[p].InOp? then 1 else 0) + (if x.InOp? then 1 else 0)
    ensures Reserved(c, procs[p := x]) == Reserved(c, procs) - Room(c, procs[p]) + Room(c, x)
  {
    var q, m := procs[p := x], |procs| - 1;
    if p == m {
      assert q[..m] == procs[..m];
    } else {
      assert q[..m] == procs[..m][p := x];
      CountsUpdate(c, procs[..m], p, x);
    }
  }

  lemma {:induction false} CountsWakeAll(c: Config, procs: seq<Proc>)
    ensures InOps(WakeAll(procs)) == InOps(procs)
    ensures Reserved(c, WakeAll(procs)) == Reserved(c, procs)
  {
    if procs != [] {
      var m := |procs| - 1;
      CountsWakeAll(c, procs[..m]);
      assert WakeAll(procs)[..m] == WakeAll(procs[..m]);
    }
  }

  lemma {:induction false} CountBounds(c: Config, procs: seq<Proc>)
    requires forall i :: 0 <= i < |procs| ==> 0 <= Room(c, procs[i]) <= MAXOPBLOCKS
    ensures 0 <= Reserved(c, procs) <= MAXOPBLOCKS * InOps(procs)
    ensures InOps(procs) == 0 ==> forall i :: 0 <= i < |procs| ==> !procs[i].InOp?
    ensures (forall i :: 0 <= i < |procs| ==> !procs[i].InOp?) ==> InOps(procs) == 0
    ensures forall i :: 0 <= i < |procs| ==> Room(c, procs[i]) <= Reserved(c, procs)
  {
    if procs != [] {
      CountBounds(c, procs[..|procs| - 1]);
    }
  }

  ghost predicate OpOk(c: Config, s: System, op: Proc)
    requires op.InOp?
  {
    && op.txn == |s.committed|
    && (forall b :: b in op.logged ==> b in s.log.lh)
    && |op.logged| <= op.calls && |op.logged| <= MAXOPBLOCKS
    && (c.discipline.Calls? ==> op.calls <= MAXOPBLOCKS)
    && (op.next.Some? ==> WithinLimit(c, op, op.next.value))
  }

  /** The log never promises more than it has, and it holds no block twice. */
  ghost predicate LogOk(c: Config, s: System) {
    && s.log.outstanding == InOps(s.procs)
    && |s.log.lh| + Reserved(c, s.procs) <= LOGSIZE
    && (forall i, j :: 0 <= i < j < |s.log.lh| ==> s.log.lh[i] != s.log.lh[j])
    && (!s.log.committing && s.log.outstanding == 0 ==> s.log.lh == [])
  }

  ghost predicate OpsOk(c: Config, s: System) {
    forall i :: 0 <= i < |s.procs| && s.procs[i].InOp? ==> OpOk(c, s, s.procs[i])
  }

  ghost predicate CommitOk(s: System) {
    && (forall i, j :: 0 <= i < |s.procs| && 0 <= j < |s.procs| && s.procs[i].Committer? && s.procs[j].Committer? ==>
        i == j)
    && (s.log.committing <==> exists i :: 0 <= i < |s.procs| && s.procs[i].Committer?)
    && (s.log.committing ==> s.log.outstanding == 0)
    && (forall i :: 0 <= i < |s.procs| && s.procs[i].Asleep? ==> !CanBegin(s.log))
  }

  ghost predicate FinishedOk(s: System) {
    forall f :: f in s.finished ==>
      f.0 <= |s.committed|
      && forall b :: b in f.1 ==> b in (if f.0 < |s.committed| then s.committed[f.0] else s.log.lh)
  }

  ghost predicate Inv(c: Config, s: System) {
    LogOk(c, s) && OpsOk(c, s) && CommitOk(s) && FinishedOk(s)
  }

  lemma InvBoot(c: Config, nproc: nat)
    ensures Inv(c, Boot(nproc))
  {
    var procs := Boot(nproc).procs;
    CountBounds(c, procs);
  }

  lemma RoomsInRange(c: Config, s: System)
    requires Inv(c, s)
    ensures forall i :: 0 <= i < |s.procs| ==> 0 <= Room(c, s.procs[i]) <= MAXOPBLOCKS
  {
    forall i | 0 <= i < |s.procs| ensures 0 <= Room(c, s.procs[i]) <= MAXOPBLOCKS {
      if s.procs[i].InOp? {
        assert OpOk(c, s, s.procs[i]);
      }
    }
  }

  lemma BeginKeepsInv(c: Config, s: System, p: nat)
    requires Inv(c, s) && Enabled(c, s, Begin(p))
    ensures Inv(c, Step(c, s, Begin(p)))
  {
    var t := Step(c, s, Begin(p));
    RoomsInRange(c, s);
    CountBounds(c, s.procs);
    CountsUpdate(c, s.procs, p, t.procs[p]);
    if exists i :: 0 <= i < |s.procs| && s.procs[i].Committer? {
      var i :| 0 <= i < |s.procs| && s.procs[i].Committer?;
      assert t.procs[i].Committer?;
    }
  }

  lemma CheckKeepsInv(c: Config, s: System, p: nat, b: Word)
    requires Inv(c, s) && Enabled(c, s, Check(p, b)) && !WritePanics(s.log, c.size)
    ensures Inv(c, Step(c, s, Check(p, b)))
  {
    var t := Step(c, s, Check(p, b));
    CountsUpdate(c, s.procs, p, t.procs[p]);
    forall i | 0 <= i < |t.procs| && t.procs[i].InOp? ensures OpOk(c, t, t.procs[i]) {
      assert OpOk(c, s, s.procs[i]);
    }
    assert t.log == s.log && forall i :: 0 <= i < |t.procs| ==> t.procs[i].Committer? == s.procs[i].Committer?;
  }

  /** The block comes out of the operation's own reservation. */
  lemma AppendTakesRoom(c: Config, s: System, p: nat)
    requires Inv(c, s) && Enabled(c, s, Append(p))
    ensures var op, t := s.procs[p], Step(c, s, Append(p));
            && OpOk(c, t, t.procs[p]) && Room(c, t.procs[p]) >= 0
            && |t.log.lh| + Room(c, t.procs[p]) <= |s.log.lh| + Room(c, op)
  {
    var op := s.procs[p];
    var b := op.next.value;
    assert OpOk(c, s, op);
    if b in op.logged {
      assert op.logged + {b} == op.logged;
    }
    assert b !in s.log.lh ==> b !in op.logged;
  }

  /** Whatever others appended since the tests, the header has a slot for this block: the operation's
      reservation, not the tests, says so. */
  lemma AppendHasRoom(c: Config, s: System, p: nat)
    requires Inv(c, s) && Enabled(c, s, Append(p))
    ensures |Absorb(s.log.lh, s.procs[p].next.value)| <= LOGSIZE
    ensures LogOk(c, Step(c, s, Append(p)))
  {
    var op := s.procs[p];
    var b := op.next.value;
    var after := InOp(op.txn, op.logged + {b}, op.calls + 1, None);
    RoomsInRange(c, s);
    CountBounds(c, s.procs);
    CountsUpdate(c, s.procs, p, after);
    AppendTakesRoom(c, s, p);
  }

  lemma AppendKeepsOps(c: Config, s: System, p: nat)
    requires Inv(c, s) && Enabled(c, s, Append(p))
    ensures OpsOk(c, Step(c, s, Append(p)))
  {
    var t := Step(c, s, Append(p));
    AppendTakesRoom(c, s, p);
    forall i | 0 <= i < |t.procs| && t.procs[i].InOp? ensures OpOk(c, t, t.procs[i]) {
      if i != p {
        assert OpOk(c, s, s.procs[i]);
      }
    }
  }

  lemma AppendKeepsCommit(c: Config, s: System, p: nat)
    requires Inv(c, s) && Enabled(c, s, Append(p))
    ensures CommitOk(Step(c, s, Append(p)))
  {
    RoomsInRange(c, s);
    CountBounds(c, s.procs);
    var t := Step(c, s, Append(p));
    assert !s.log.committing && forall i :: 0 <= i < |s.procs| ==> t.procs[i].Committer? == s.procs[i].Committer?;
  }

  lemma AppendKeepsInv(c: Config, s: System, p: nat)
    requires Inv(c, s) && Enabled(c, s, Append(p))
    ensures Inv(c, Step(c, s, Append(p)))
  {
    AppendHasRoom(c, s, p);
    AppendKeepsOps(c, s, p);
    AppendKeepsCommit(c, s, p);
  }

  lemma EndCounts(c: Config, s: System, p: nat)
    requires Inv(c, s) && Enabled(c, s, End(p))
    ensures !s.log.committing && LogOk(c, Step(c, s, End(p)))
  {
    RoomsInRange(c, s);
    CountBounds(c, s.procs);
    assert OpOk(c, s, s.procs[p]);
    var x := if Ended(s.log).committing then Committer else Outside;
    CountsUpdate(c, s.procs, p, x);
    CountsWakeAll(c, s.procs[p := x]);
  }

  lemma EndKeepsInv(c: Config, s: System, p: nat)
    requires Inv(c, s) && Enabled(c, s, End(p))
    ensures !s.log.committing
    ensures Inv(c, Step(c, s, End(p)))
  {
    EndCounts(c, s, p);
    var t := Step(c, s, End(p));
    assert OpOk(c, s, s.procs[p]);
    forall i | 0 <= i < |t.procs| && t.procs[i].InOp? ensures OpOk(c, t, t.procs[i]) {
      assert OpOk(c, s, s.procs[i]);
    }
    assert t.log.committing ==> t.procs[p].Committer?;
  }

  lemma CommitDoneKeepsInv(c: Config, s: System, p: nat)
    requires Inv(c, s) && Enabled(c, s, CommitDone(p))
    ensures Inv(c, Step(c, s, CommitDone(p)))
  {
    RoomsInRange(c, s);
    CountBounds(c, s.procs);
    var t := Step(c, s, CommitDone(p));
    assert s.log.committing;
    CountsUpdate(c, s.procs, p, Outside);
    CountsWakeAll(c, s.procs[p := Outside]);
  }

  lemma StepKeepsInv(c: Config, s: System, a: Action)
    requires Inv(c, s)
    ensures Inv(c, Step(c, s, a))
  {
    if Enabled(c, s, a) {
      match a
      case Begin(p) => BeginKeepsInv(c, s, p);
      case Check(p, b) =>
        if !WritePanics(s.log, c.size) {
          CheckKeepsInv(c, s, p, b);
        }
      case Append(p) => AppendKeepsInv(c, s, p);
      case End(p) => EndKeepsInv(c, s, p);
      case CommitDone(p) => CommitDoneKeepsInv(c, s, p);
    }
  }

  lemma {:induction false} RunKeepsInv(c: Config, s: System, run: seq<Action>)
    requires Inv(c, s)
    ensures Inv(c, Exec(c, s, run))
    decreases |run|
  {
    if run != [] {
      StepKeepsInv(c, s, run[0]);
      RunKeepsInv(c, Step(c, s, run[0]), run[1..]);
    }
  }

  // ----- what every run keeps -----

  /** Over every interleaving: a commit runs alone, with no operation inside and none admitted; the
      header never overflows; and everything an operation logged is in the one transaction that was
      open when it began. */
  lemma CommitIsolation(c: Config, nproc: nat, run: seq<Action>)
    ensures var s := Exec(c, Boot(nproc), run);
            && |s.log.lh| <= LOGSIZE
            && (forall i, j :: 0 <= i < j < |s.log.lh| ==> s.log.lh[i] != s.log.lh[j])
            && (s.log.committing ==> s.log.outstanding == 0)
            && (forall p :: 0 <= p < |s.procs| && s.procs[p].InOp? ==> !s.log.committing)
            && (forall p: nat :: p < |s.procs| && s.log.committing ==> !Step(c, s, Begin(p)).procs[p].InOp?)
            && (forall f, b :: f in s.finished && b in f.1 ==>
                  f.0 <= |s.committed| && b in (if f.0 < |s.committed| then s.committed[f.0] else s.log.lh))
  {
    var s := Exec(c, Boot(nproc), run);
    InvBoot(c, nproc);
    RunKeepsInv(c, Boot(nproc), run);
    RoomsInRange(c, s);
    CountBounds(c, s.procs);
  }

  ghost predicate CommitRuns(s: System) {
    exists q :: 0 <= q < |s.procs| && s.procs[q].Committer?
  }

  /** What the log has promised: the blocks it holds, and MAXOPBLOCKS for each of k operations. */
  function Promised(s: System, k: nat): nat {
    |s.log.lh| + MAXOPBLOCKS * k
  }

  /** begin_op admits a process exactly when no commit runs and the log can hold, beside what is logged,
      MAXOPBLOCKS for each operation inside and for this one; otherwise the process sleeps. */
  lemma BeginAdmitsIff(c: Config, nproc: nat, run: seq<Action>, p: nat)
    requires p < |Exec(c, Boot(nproc), run).procs| && !Exec(c, Boot(nproc), run).panicked
    requires var q := Exec(c, Boot(nproc), run).procs[p]; q.Outside? || q.Woken?
    ensures var s := Exec(c, Boot(nproc), run);
            var t := Step(c, s, Begin(p));
            && (t.procs[p].InOp? <==> !CommitRuns(s) && Promised(s, InOps(s.procs) + 1) <= LOGSIZE)
            && (t.procs[p].InOp? || t.procs[p].Asleep?) && forall q :: 0 <= q < |s.procs| && q != p ==>
               t.procs[q] == s.procs[q]
  {
    InvBoot(c, nproc);
    RunKeepsInv(c, Boot(nproc), run);
  }

  /** No wakeup is missed: a process asleep in begin_op has no place in the log, or a commit runs; and
      some operation or commit is under way whose end will wake it. */
  lemma SleepersWillBeWoken(c: Config, nproc: nat, run: seq<Action>, p: nat)
    requires p < |Exec(c, Boot(nproc), run).procs| && Exec(c, Boot(nproc), run).procs[p].Asleep?
    ensures var s := Exec(c, Boot(nproc), run);
            && (CommitRuns(s) || Promised(s, InOps(s.procs) + 1) > LOGSIZE)
            && exists q :: 0 <= q < |s.procs| && (s.procs[q].InOp? || s.procs[q].Committer?)
  {
    var s := Exec(c, Boot(nproc), run);
    InvBoot(c, nproc);
    RunKeepsInv(c, Boot(nproc), run);
    RoomsInRange(c, s);
    CountBounds(c, s.procs);
  }

  // ----- when log_write can panic -----

  lemma {:induction false} PanicFree(c: Config, s: System, run: seq<Action>)
    requires Inv(c, s) && !s.panicked && c.discipline.Calls? && c.size > LOGSIZE
    ensures !Exec(c, s, run).panicked
    decreases |run|
  {
    if run != [] {
      var a := run[0];
      if Enabled(c, s, a) && a.Check? {
        RoomsInRange(c, s);
        CountBounds(c, s.procs);
        assert Room(c, s.procs[a.p]) <= Reserved(c, s.procs);
        assert OpOk(c, s, s.procs[a.p]);
      } else if Enabled(c, s, a) && a.End? {
        EndKeepsInv(c, s, a.p);
      }
      StepKeepsInv(c, s, a);
      PanicFree(c, Step(c, s, a), run[1..]);
    }
  }

  lemma {:induction false} ExecAppend(c: Config, s: System, run: seq<Action>, a: Action)
    ensures Exec(c, s, run + [a]) == Step(c, Exec(c, s, run), a)
    decreases |run|
  {
    if run == [] {
      assert Exec(c, Step(c, s, a), []) == Step(c, s, a);
      assert (run + [a])[1..] == [];
    } else {
      assert (run + [a])[1..] == run[1..] + [a];
      ExecAppend(c, Step(c, s, run[0]), run[1..], a);
    }
  }

  /** Operations 0, 1 and 2 log blocks 0, 1, ..., k-1 in turn. */
  function FillingRun(k: nat): seq<Action>
    requires k <= LOGSIZE
  {
    if k == 0 then [Begin(0), Begin(1), Begin(2)]
    else FillingRun(k - 1) + [Check((k - 1) % 3, k - 1)] + [Append((k - 1) % 3)]
  }

  /** How many of blocks 0, 1, ..., k-1 are operation p's. */
  function Share(k: nat, p: nat): nat
    requires p < 3
  {
    (k + 2 - p) / 3
  }

  ghost predicate Filled(s: System, k: nat)
  {
    && |s.procs| >= 3 && |s.log.lh| == k && s.log.outstanding == 3 && !s.panicked
    && (forall i :: 0 <= i < k ==> s.log.lh[i] == i)
    && forall p: nat :: p < 3 ==>
         && s.procs[p].InOp? && s.procs[p].next == None
         && s.procs[p].calls == Share(k, p) && |s.procs[p].logged| <= Share(k, p)
         && (k > p ==> p in s.procs[p].logged)
  }

  lemma FillingBegins(c: Config, nproc: nat)
    requires nproc >= 3
    ensures Filled(Exec(c, Boot(nproc), FillingRun(0)), 0)
  {
    var s0 := Boot(nproc);
    var s1 := Step(c, s0, Begin(0));
    var s2 := Step(c, s1, Begin(1));
    var s3 := Step(c, s2, Begin(2));
    assert Exec(c, s0, FillingRun(0)) == Exec(c, s1, [Begin(1), Begin(2)]);
    assert Exec(c, s1, [Begin(1), Begin(2)]) == Exec(c, s2, [Begin(2)]);
    assert Exec(c, s2, [Begin(2)]) == Exec(c, s3, []);
  }

  /** The next block's test passes exactly while the log has room for it. */
  lemma FillingCheck(c: Config, s: System, k: nat)
    requires k < LOGSIZE && Filled(s, k)
    ensures Enabled(c, s, Check(k % 3, k)) && Step(c, s, Check(k % 3, k)).panicked == (k >= c.size - 1)
  {
    assert Share(k, k % 3) < MAXOPBLOCKS;
  }

  lemma FillingStep(c: Config, s: System, k: nat)
    requires k < LOGSIZE && k < c.size - 1 && Filled(s, k)
    ensures Filled(Step(c, Step(c, s, Check(k % 3, k)), Append(k % 3)), k + 1)
  {
    FillingCheck(c, s, k);
    var p := k % 3;
    var t := Step(c, Step(c, s, Check(p, k)), Append(p));
    assert t.log.lh == s.log.lh + [k];
    assert |s.procs[p].logged + {k as Word}| <= |s.procs[p].logged| + 1;
    forall q: nat | q < 3 ensures Share(k + 1, q) == Share(k, q) + if q == p then 1 else 0 {
    }
  }

  /** The run fills the header, unless a test of log_write stops it: not while the log has room. */
  lemma {:induction false} FillingRunFills(c: Config, nproc: nat, k: nat)
    requires nproc >= 3 && k <= LOGSIZE
    ensures var s := Exec(c, Boot(nproc), FillingRun(k)); Filled(s, k) || (s.panicked && k >= c.size)
  {
    if k == 0 {
      FillingBegins(c, nproc);
    } else {
      FillingRunFills(c, nproc, k - 1);
      var run, p := FillingRun(k - 1), (k - 1) % 3;
      var s := Exec(c, Boot(nproc), run);
      ExecAppend(c, Boot(nproc), run, Check(p, k - 1));
      ExecAppend(c, Boot(nproc), run + [Check(p, k - 1)], Append(p));
      if !s.panicked {
        FillingCheck(c, s, k - 1);
        if k < c.size {
          FillingStep(c, s, k - 1);
        }
      }
    }
  }

  lemma LogAgainPanics(c: Config, s: System)
    requires c.discipline.DistinctBlocks? && Filled(s, LOGSIZE)
    ensures Step(c, s, Check(0, 0)).panicked
  {
    var p: nat := 0;
    assert p < 3 && s.procs[p].InOp? && p in s.procs[p].logged;
  }

  /** An operation that logs a block again does so when the header is full. */
  lemma FullLogPanics(c: Config, nproc: nat, k: nat)
    requires nproc >= 3 && c.discipline.DistinctBlocks? && c.size > LOGSIZE == k
    ensures exists run :: Exec(c, Boot(nproc), run).panicked
  {
    FillingRunFills(c, nproc, k);
    LogAgainPanics(c, Exec(c, Boot(nproc), FillingRun(k)));
    ExecAppend(c, Boot(nproc), FillingRun(k), Check(0, 0));
    assert Exec(c, Boot(nproc), FillingRun(k) + [Check(0, 0)]).panicked;
  }

  /** A log of LOGSIZE blocks or fewer panics before the header is full. */
  lemma SmallLogPanics(c: Config, nproc: nat)
    requires nproc >= 3 && c.size <= LOGSIZE
    ensures exists run :: Exec(c, Boot(nproc), run).panicked
  {
    var k := if c.size == 0 then 0 else c.size - 1;
    FillingRunFills(c, nproc, k);
    var s := Exec(c, Boot(nproc), FillingRun(k));
    if !s.panicked {
      FillingCheck(c, s, k);
      ExecAppend(c, Boot(nproc), FillingRun(k), Check(k % 3, k));
      assert Exec(c, Boot(nproc), FillingRun(k) + [Check(k % 3, k)]).panicked;
    }
  }

  /** log_write never panics exactly when the log has a block more than LOGSIZE and operations count
      calls of log_write, not distinct blocks, against MAXOPBLOCKS. The shipped log has LOGSIZE blocks. */
  lemma PanicFreeIff(c: Config, nproc: nat)
    requires nproc >= 3
    ensures (forall run :: !Exec(c, Boot(nproc), run).panicked) <==>
            (c.discipline.Calls? && c.size > LOGSIZE)
  {
    InvBoot(c, nproc);
    if c.discipline.Calls? && c.size > LOGSIZE {
      forall run ensures !Exec(c, Boot(nproc), run).panicked {
        PanicFree(c, Boot(nproc), run);
      }
    } else if c.size > LOGSIZE {
      FullLogPanics(c, nproc, LOGSIZE);
    } else {
      SmallLogPanics(c, nproc);
    }
  }

  // ----- when the header outgrows the log area -----

  /** The last two blocks before the limit, both tested before either is appended. */
  function RacingRun(k: nat): seq<Action>
    requires k <= LOGSIZE
  {
    FillingRun(k) + [Check(k % 3, k)] + [Check((k + 1) % 3, k + 1)] + [Append(k % 3)] + [Append((k + 1) % 3)]
  }

  /** From the state in which the area has room for one more. */
  lemma BothPass(c: Config, s: System, k: nat, p: nat, q: nat)
    requires p < |s.procs| && q < |s.procs| && p != q && !s.panicked && k < LOGSIZE && c.size == k + 2
    requires !WritePanics(s.log, c.size) && s.log.lh == seq(k, i => i)
    requires Enabled(c, s, Check(p, k)) && Enabled(c, s, Check(q, k + 1))
    ensures |Step(c, Step(c, Step(c, Step(c, s, Check(p, k)), Check(q, k + 1)), Append(p)), Append(q)).log.lh| == c.size
  {
    var s2 := Step(c, Step(c, s, Check(p, k)), Check(q, k + 1));
    assert s2.procs[p].next == Some(k) && s2.procs[q].next == Some(k + 1) && s2.log == s.log;
    var s3 := Step(c, s2, Append(p));
    assert s3.log.lh == s.log.lh + [k];
    assert Step(c, s3, Append(q)).log.lh == s.log.lh + [k] + [k + 1];
  }

  lemma ExecFour(c: Config, s: System, run: seq<Action>, a1: Action, a2: Action, a3: Action, a4: Action)
    ensures Exec(c, s, run + [a1] + [a2] + [a3] + [a4]) ==
            Step(c, Step(c, Step(c, Step(c, Exec(c, s, run), a1), a2), a3), a4)
  {
    ExecAppend(c, s, run, a1);
    ExecAppend(c, s, run + [a1], a2);
    ExecAppend(c, s, run + [a1] + [a2], a3);
    ExecAppend(c, s, run + [a1] + [a2] + [a3], a4);
  }

  lemma RaceOverfills(c: Config, nproc: nat)
    requires nproc >= 3 && 2 <= c.size <= LOGSIZE
    ensures |Exec(c, Boot(nproc), RacingRun(c.size - 2)).log.lh| == c.size
  {
    var k := c.size - 2;
    var p, q := k % 3, (k + 1) % 3;
    FillingRunFills(c, nproc, k);
    var s := Exec(c, Boot(nproc), FillingRun(k));
    FillingCheck(c, s, k);
    assert Share(k, q) < MAXOPBLOCKS;
    BothPass(c, s, k, p, q);
    ExecFour(c, Boot(nproc), FillingRun(k), Check(p, k), Check(q, k + 1), Append(p), Append(q));
  }

  /** A log of one block lets nothing past the tests. */
  lemma {:induction false} OneBlockLog(c: Config, s: System, run: seq<Action>)
    requires c.size == 1 && s.log.lh == [] && forall p :: 0 <= p < |s.procs| && s.procs[p].InOp? ==>
             s.procs[p].next == None
    ensures Exec(c, s, run).log.lh == []
    decreases |run|
  {
    if run != [] {
      OneBlockLog(c, Step(c, s, run[0]), run[1..]);
    }
  }

  /** The tests are made before log.lock is taken, so two log_writes can pass them together: in every
      interleaving the header's blocks fit the log area behind it exactly when the area has more than
      LOGSIZE blocks, or only one. The shipped area has LOGSIZE. */
  lemma AreaSafeIff(c: Config, nproc: nat)
    requires nproc >= 3 && c.size > 0
    ensures (forall run :: |Exec(c, Boot(nproc), run).log.lh| <= c.size - 1) <==> c.size > LOGSIZE || c.size == 1
  {
    if c.size > LOGSIZE {
      forall run ensures |Exec(c, Boot(nproc), run).log.lh| <= c.size - 1 {
        CommitIsolation(c, nproc, run);
      }
    } else if c.size == 1 {
      forall run ensures |Exec(c, Boot(nproc), run).log.lh| <= c.size - 1 {
        OneBlockLog(c, Boot(nproc), run);
      }
    } else {
      RaceOverfills(c, nproc);
    }
  }
}
