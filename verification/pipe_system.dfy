/** Any number of readers and writers on one pipe, interleaved segment by segment, with kills and
    with closes of an end that nobody is using. */
module PipeSystem {
  import opened Blocks
  import opened Params
  import opened Pipe

  /** A call in progress: pipewrite at byte i, or piperead. */
  datatype Call = Writing(addr: seq<Byte>, i: nat) | Reading(n: nat)

  /** Ready is runnable and will take the lock; Asleep is on the channel of its call. */
  datatype Phase = Idle | Ready(call: Call) | Asleep(call: Call)

  datatype Proc = Proc(phase: Phase, killed: bool)

  /** stored and delivered are all bytes put into and taken out of the pipe so far. */
  datatype System = System(q: Queue, procs: seq<Proc>, stored: seq<Byte>, delivered: seq<Byte>)

  datatype Action = BeginWrite(p: nat, addr: seq<Byte>) | BeginRead(p: nat, n: nat) | Segment(p: nat) | Kill(p: nat)
    | Close(writable: bool)

  predicate InCall(p: Proc, write: bool) {
    !p.phase.Idle? && p.phase.call.Writing? == write
  }

  predicate Sleeps(p: Proc, write: bool) {
    p.phase.Asleep? && p.phase.call.Writing? == write
  }

  /** A process can only use an end that is open, and an end with a user is not closed: the user's
      open file holds a reference. */
  predicate Enabled(s: System, a: Action) {
    match a
    case BeginWrite(p, _) => p < |s.procs| && s.procs[p].phase.Idle? && s.q.writeopen
    case BeginRead(p, _) => p < |s.procs| && s.procs[p].phase.Idle? && s.q.readopen
    case Segment(p) => p < |s.procs| && s.procs[p].phase.Ready?
    case Kill(p) => p < |s.procs|
    case Close(w) => (if w then s.q.writeopen else s.q.readopen) && forall p :: 0 <= p < |s.procs| ==>
      !InCall(s.procs[p], w)
  }

  /** wakeup on the writers' or the readers' channel. */
  function Wake(procs: seq<Proc>, write: bool): (r: seq<Proc>)
    ensures |r| == |procs|
    ensures forall i :: 0 <= i < |r| ==>
            r[i] == if Sleeps(procs[i], write) then Proc(Ready(procs[i].phase.call), procs[i].killed) else procs[i]
  {
    seq(|procs|, i requires 0 <= i < |procs| =>
      if Sleeps(procs[i], write) then Proc(Ready(procs[i].phase.call), procs[i].killed) else procs[i])
  }

  function After(p: Proc, out: Outcome): Proc {
    if out.Return? || p.phase.Idle? then p.(phase := Idle)
    else if p.phase.call.Writing? then p.(phase := Asleep(Writing(p.phase.call.addr, out.i)))
    else p.(phase := Asleep(p.phase.call))
  }

  function Step(s: System, a: Action): System
    requires Enabled(s, a) && Room(s.q) >= 0
    requires a.Segment? && s.procs[a.p].phase.call.Writing? ==>
             s.procs[a.p].phase.call.i <= |s.procs[a.p].phase.call.addr|
  {
    match a
    case BeginWrite(p, addr) => s.(procs := s.procs[p := s.procs[p].(phase := Ready(Writing(addr, 0)))])
    case BeginRead(p, n) => s.(procs := s.procs[p := s.procs[p].(phase := Ready(Reading(n)))])
    case Kill(p) =>
      var phase := s.procs[p].phase;
      s.(procs := s.procs[p := Proc(if phase.Asleep? then Ready(phase.call) else phase, true)])
    case Close(w) => s.(q := Closed(s.q, w), procs := Wake(s.procs, !w))
    case Segment(p) =>
      match s.procs[p].phase.call
      case Writing(addr, i) =>
        var (q, out, wakes) := WriteSegment(s.q, addr, i, s.procs[p].killed);
        var procs := if wakes then Wake(s.procs, false) else s.procs;
        s.(q := q, procs := procs[p := After(s.procs[p], out)], stored := s.stored + q.pending[|s.q.pending|..])
      case Reading(n) =>
        var (q, out, wakes) := ReadSegment(s.q, n, s.procs[p].killed);
        var procs := if wakes then Wake(s.procs, true) else s.procs;
        s.(q := q, procs := procs[p := After(s.procs[p], out)],
           delivered := s.delivered + s.q.pending[..|s.q.pending| - |q.pending|])
  }

  /** A call in progress has its end open. */
  ghost predicate CallsOk(s: System) {
    forall p :: 0 <= p < |s.procs| && !s.procs[p].phase.Idle? ==>
      match s.procs[p].phase.call
      case Writing(addr, i) => s.q.writeopen && i <= |addr|
      case Reading(_) => s.q.readopen
  }

  /** Bytes come out in the order they went in, and at most PIPESIZE are in the pipe. */
  ghost predicate Inv(s: System) {
    |s.q.pending| <= PIPESIZE && s.stored == s.delivered + s.q.pending && CallsOk(s)
  }

  /** Nobody sleeps whose wait condition is false. */
  ghost predicate NoneForgotten(s: System) {
    forall p :: 0 <= p < |s.procs| ==>
      && (Sleeps(s.procs[p], true) ==> |s.q.pending| == PIPESIZE && s.q.readopen)
      && (Sleeps(s.procs[p], false) ==> s.q.pending == [] && s.q.writeopen)
  }

  lemma StepKeepsCalls(s: System, a: Action)
    requires Inv(s) && Enabled(s, a)
    ensures CallsOk(Step(s, a))
  {
  }

  lemma MoreStored(d: seq<Byte>, p: seq<Byte>, q: seq<Byte>)
    requires |p| <= |q| && q[..|p|] == p
    ensures d + p + q[|p|..] == d + q
  {
  }

  lemma MoreDelivered(d: seq<Byte>, p: seq<Byte>, k: nat)
    requires k <= |p|
    ensures d + p == d + p[..k] + p[k..]
  {
  }

  lemma SegmentKeepsOrder(s: System, p: nat)
    requires Inv(s) && Enabled(s, Segment(p))
    ensures var t := Step(s, Segment(p)); |t.q.pending| <= PIPESIZE && t.stored == t.delivered + t.q.pending
  {
    var t := Step(s, Segment(p));
    if s.procs[p].phase.call.Writing? {
      MoreStored(s.delivered, s.q.pending, t.q.pending);
    } else {
      MoreDelivered(s.delivered, s.q.pending, |s.q.pending| - |t.q.pending|);
    }
  }

  lemma StepKeepsInv(s: System, a: Action)
    requires Inv(s) && Enabled(s, a)
    ensures Inv(Step(s, a))
  {
    StepKeepsCalls(s, a);
    if a.Segment? {
      SegmentKeepsOrder(s, a.p);
    }
  }

  /** A killed writer that stores bytes, fills the pipe and has more: pipewrite returns without waking
      the readers. */
  ghost predicate ForgetsReaders(s: System, a: Action) {
    && a.Segment? && a.p < |s.procs| && s.procs[a.p].killed && s.procs[a.p].phase.Ready?
    && s.procs[a.p].phase.call.Writing?
    && 0 < Room(s.q) < |s.procs[a.p].phase.call.addr| - s.procs[a.p].phase.call.i
    && exists r :: 0 <= r < |s.procs| && Sleeps(s.procs[r], false)
  }

  lemma WriteForgets(s: System, p: nat)
    requires Inv(s) && NoneForgotten(s) && Enabled(s, Segment(p)) && s.procs[p].phase.call.Writing?
    ensures NoneForgotten(Step(s, Segment(p))) <==> !ForgetsReaders(s, Segment(p))
  {
    var t := Step(s, Segment(p));
    if ForgetsReaders(s, Segment(p)) {
      var r :| 0 <= r < |s.procs| && Sleeps(s.procs[r], false);
      assert t.procs[r] == s.procs[r];
    }
  }

  lemma ReadForgetsNobody(s: System, p: nat)
    requires Inv(s) && NoneForgotten(s) && Enabled(s, Segment(p)) && s.procs[p].phase.call.Reading?
    ensures NoneForgotten(Step(s, Segment(p)))
  {
  }

  /** Exactly one kind of step leaves a sleeper behind whose wait condition is false. */
  lemma StepForgetsIff(s: System, a: Action)
    requires Inv(s) && NoneForgotten(s) && Enabled(s, a)
    ensures NoneForgotten(Step(s, a)) <==> !ForgetsReaders(s, a)
  {
    if a.Segment? {
      if s.procs[a.p].phase.call.Writing? {
        WriteForgets(s, a.p);
      } else {
        ReadForgetsNobody(s, a.p);
      }
    }
  }

  // ----- whole runs -----

  function Boot(nproc: nat): System {
    System(Queue([], true, true), seq(nproc, _ => Proc(Idle, false)), [], [])
  }

  /** A run: actions that are not enabled do not happen. */
  ghost function Exec(s: System, run: seq<Action>): (t: System)
    requires Inv(s)
    ensures Inv(t)
    decreases |run|
  {
    if run == [] then s
    else if Enabled(s, run[0]) then
      StepKeepsInv(s, run[0]);
      Exec(Step(s, run[0]), run[1..])
    else Exec(s, run[1..])
  }

  /** FIFO over every run: what was delivered is a beginning of what was stored, and at most PIPESIZE
      bytes are on their way. */
  lemma Fifo(nproc: nat, run: seq<Action>)
    ensures Inv(Boot(nproc))
    ensures var t := Exec(Boot(nproc), run);
            |t.delivered| <= |t.stored| <= |t.delivered| + PIPESIZE && t.delivered == t.stored[..|t.delivered|]
  {
    var t := Exec(Boot(nproc), run);
    assert t.stored == t.delivered + t.q.pending;
  }

  // ----- what a turn achieves -----

  /** A reader's turn on a pipe that is not empty, or has no writer left, ends its call: as many of the
      oldest bytes as there are, up to n, are delivered, and no writer stays asleep. */
  lemma ReaderTakes(s: System, p: nat)
    requires Inv(s) && Enabled(s, Segment(p)) && s.procs[p].phase.call.Reading? && (s.q.pending != [] || !s.q.writeopen)
    ensures var t, n := Step(s, Segment(p)), s.procs[p].phase.call.n;
            var k := if n <= |s.q.pending| then n else |s.q.pending|;
            && t.delivered == s.delivered + s.q.pending[..k] && t.q.pending == s.q.pending[k..] && t.stored == s.stored
            && t.procs[p].phase.Idle? && forall r :: 0 <= r < |t.procs| ==> !Sleeps(t.procs[r], true)
  {
    var n := s.procs[p].phase.call.n;
    var k := if n <= |s.q.pending| then n else |s.q.pending|;
    assert |s.q.pending| - |s.q.pending[k..]| == k;
  }

  /** A writer's turn stores all that is left of its bytes and ends the call, or fills the pipe; it gives
      up then if no reader is left or it is killed, and otherwise sleeps at its first byte not stored. No
      reader stays asleep unless it gives up. */
  lemma WriterStores(s: System, p: nat)
    requires Inv(s) && Enabled(s, Segment(p)) && s.procs[p].phase.call.Writing?
    ensures var t, addr, i := Step(s, Segment(p)), s.procs[p].phase.call.addr, s.procs[p].phase.call.i;
            var left, room := |addr| - i, PIPESIZE - |s.q.pending|;
            var gone := !s.q.readopen || s.procs[p].killed;
            && i <= |addr| && t.delivered == s.delivered
            && (left <= room ==> t.stored == s.stored + addr[i..] && t.procs[p].phase.Idle?)
            && (left > room ==>
                  && t.stored == s.stored + addr[i..i + room] && |t.q.pending| == PIPESIZE
                  && t.procs[p].phase == if gone then Idle else Asleep(Writing(addr, i + room)))
            && (left <= room || !gone ==> forall r :: 0 <= r < |t.procs| && r != p ==> !Sleeps(t.procs[r], false))
  {
    var addr, i := s.procs[p].phase.call.addr, s.procs[p].phase.call.i;
    var k := Storable(s.q, addr, i);
    assert (s.q.pending + addr[i..i + k])[|s.q.pending|..] == addr[i..i + k];
    assert i + k == |addr| ==> addr[i..i + k] == addr[i..];
  }

  ghost predicate NobodyKilled(s: System) {
    forall p :: 0 <= p < |s.procs| ==> !s.procs[p].killed
  }

  lemma {:induction false} RunsForgetNobody(s: System, run: seq<Action>)
    requires Inv(s) && NoneForgotten(s) && NobodyKilled(s) && forall a :: a in run ==> !a.Kill?
    ensures NoneForgotten(Exec(s, run))
    decreases |run|
  {
    if run != [] {
      assert run[0] in run && forall a :: a in run[1..] ==> a in run;
      if Enabled(s, run[0]) {
        StepKeepsInv(s, run[0]);
        StepForgetsIff(s, run[0]);
        assert NobodyKilled(Step(s, run[0]));
        RunsForgetNobody(Step(s, run[0]), run[1..]);
      } else {
        RunsForgetNobody(s, run[1..]);
      }
    }
  }

  /** No missed wakeup: in runs without kill, whenever the lock is free every sleeper's wait condition
      holds. */
  lemma NoMissedWakeup(nproc: nat, run: seq<Action>)
    requires forall a :: a in run ==> !a.Kill?
    ensures Inv(Boot(nproc)) && NoneForgotten(Exec(Boot(nproc), run))
  {
    RunsForgetNobody(Boot(nproc), run);
  }

  /** One enabled action, then the rest of the run. */
  lemma ExecNext(s: System, a: Action, rest: seq<Action>)
    requires Inv(s) && Enabled(s, a)
    ensures Inv(Step(s, a)) && Exec(s, [a] + rest) == Exec(Step(s, a), rest)
  {
    StepKeepsInv(s, a);
    assert ([a] + rest)[1..] == rest;
  }

  lemma LastSegmentForgets(s: System, addr: seq<Byte>)
    requires |addr| > PIPESIZE
    requires s == System(Queue([], true, true),
                         [Proc(Asleep(Reading(1)), false), Proc(Ready(Writing(addr, 0)), true)], [], [])
    ensures Enabled(s, Segment(1))
    ensures var t := Step(s, Segment(1));
            !NoneForgotten(t) && |t.procs| == 2 && Sleeps(t.procs[0], false) && |t.q.pending| == PIPESIZE
  {
    var t := Step(s, Segment(1));
    assert t.procs[0] == s.procs[0] && t.q.pending == addr[..PIPESIZE];
  }

  /** With kill it can fail: a reader sleeps, and a killed writer fills the pipe. */
  lemma KilledWriterForgets(addr: seq<Byte>)
    requires |addr| > PIPESIZE
    ensures Inv(Boot(2))
    ensures var t := Exec(Boot(2), [BeginRead(0, 1), Segment(0), BeginWrite(1, addr), Kill(1), Segment(1)]);
            !NoneForgotten(t) && |t.procs| == 2 && Sleeps(t.procs[0], false) && |t.q.pending| == PIPESIZE
  {
    var asleep, free := Proc(Asleep(Reading(1)), false), Queue([], true, true);
    var s0, idle := Boot(2), Proc(Idle, false);
    var s1 := System(free, [Proc(Ready(Reading(1)), false), idle], [], []);
    var s2 := System(free, [asleep, idle], [], []);
    var s3 := System(free, [asleep, Proc(Ready(Writing(addr, 0)), false)], [], []);
    var s4 := System(free, [asleep, Proc(Ready(Writing(addr, 0)), true)], [], []);
    var run4 := [Segment(1)] + [];
    assert [BeginRead(0, 1), Segment(0), BeginWrite(1, addr), Kill(1), Segment(1)] ==
           [BeginRead(0, 1)] + ([Segment(0)] + ([BeginWrite(1, addr)] + ([Kill(1)] + run4)));
    assert s0.procs == [idle, idle];
    assert Step(s0, BeginRead(0, 1)) == s1;
    ExecNext(s0, BeginRead(0, 1), [Segment(0)] + ([BeginWrite(1, addr)] + ([Kill(1)] + run4)));
    assert Step(s1, Segment(0)) == s2;
    ExecNext(s1, Segment(0), [BeginWrite(1, addr)] + ([Kill(1)] + run4));
    assert Step(s2, BeginWrite(1, addr)) == s3;
    ExecNext(s2, BeginWrite(1, addr), [Kill(1)] + run4);
    assert Step(s3, Kill(1)) == s4;
    ExecNext(s3, Kill(1), run4);
    LastSegmentForgets(s4, addr);
    ExecNext(s4, Segment(1), []);
  }
}
