/** proc.c's sleep and wakeup, instruction by instruction with the two locks, against a machine in which
    each is one step. Every other module takes sleep and wakeup to be such steps. */
module SleepWakeup {
  import opened Options

  // ----- the machine with the two locks -----

  /** Where a process is. In holds lk; owed are the channels whose condition it has made true and not
      yet woken. Waking is inside wakeup1's loop at slot i; the cases from Going on are sleep, line by
      line. */
  datatype Place =
    | Out
    | In(owed: set<nat>)
    | Waking(owed: set<nat>, chan: nat, i: nat)
    | Going(owed: set<nat>, chan: nat)  // before acquire(&ptable.lock)
    | Both(owed: set<nat>, chan: nat)   // before release(lk)
    | Dropped(chan: nat)                // before the store to proc->chan
    | Chosen(chan: nat)                 // before the store to proc->state
    | Marked(chan: nat)                 // before sched
    | Away(chan: nat)                   // switched out; the scheduler has let go of ptable.lock
    | Resumed                           // chosen by the scheduler, which hands it ptable.lock
    | Back                              // before acquire(lk)

  datatype RunState = RUNNING | SLEEPING | RUNNABLE

  datatype Proc = Proc(at: Place, state: RunState, chan: Option<nat>)

  /** ready: the channels whose condition is true, which lk guards. */
  datatype System = System(procs: seq<Proc>, ready: set<nat>, lk: Option<nat>, table: Option<nat>)

  /** Go is the next instruction of sleep or of wakeup; Kill is kill's section under ptable.lock. */
  datatype Action =
    | Acquire(p: nat) | Release(p: nat) | Set(p: nat, chan: nat) | Clear(p: nat, chan: nat)
    | Wakeup(p: nat, chan: nat) | Sleep(p: nat, chan: nat) | Go(p: nat) | Kill(p: nat) | Schedule(p: nat)

  predicate HoldsLk(at: Place) {
    at.In? || at.Waking? || at.Going? || at.Both?
  }

  predicate HoldsTable(at: Place) {
    at.Waking? || at.Both? || at.Dropped? || at.Chosen? || at.Marked? || at.Resumed?
  }

  predicate Enabled(s: System, a: Action) {
    && a.p < |s.procs|
    && match a
       case Acquire(p) => (s.procs[p].at.Out? || s.procs[p].at.Back?) && s.lk == None
       case Wakeup(p, _) => s.procs[p].at.In? && s.table == None
       case Go(p) => HoldsTable(s.procs[p].at) || (s.procs[p].at.Going? && s.table == None)
       case Kill(_) => s.table == None
       case Schedule(p) => s.procs[p].at.Away? && s.procs[p].state == RUNNABLE && s.table == None
       case _ => s.procs[a.p].at.In?
  }

  function At(s: System, p: nat, at: Place): System
    requires p < |s.procs|
  {
    s.(procs := s.procs[p := s.procs[p].(at := at)])
  }

  /** wakeup1's test and store on one slot. */
  function WokenProc(q: Proc, chan: nat): Proc {
    if q.state == SLEEPING && q.chan == Some(chan) then q.(state := RUNNABLE) else q
  }

  function KilledProc(q: Proc): Proc {
    if q.state == SLEEPING then q.(state := RUNNABLE) else q
  }

  function GoStep(s: System, p: nat): System
    requires Enabled(s, Go(p))
  {
    match s.procs[p].at
    case Waking(owed, c, i) =>
      if i < |s.procs| then At(s.(procs := s.procs[i := WokenProc(s.procs[i], c)]), p, Waking(owed, c, i + 1))
      else At(s, p, In(owed)).(table := None)
    case Going(owed, c) => At(s, p, Both(owed, c)).(table := Some(p))
    case Both(_, c) => At(s, p, Dropped(c)).(lk := None)
    case Dropped(c) => s.(procs := s.procs[p := Proc(Chosen(c), s.procs[p].state, Some(c))])
    case Chosen(c) => s.(procs := s.procs[p := Proc(Marked(c), SLEEPING, s.procs[p].chan)])
    case Marked(c) => At(s, p, Away(c)).(table := None)
    case _ => s.(procs := s.procs[p := Proc(Back, s.procs[p].state, None)], table := None)
  }

  function Step(s: System, a: Action): System
    requires Enabled(s, a)
  {
    match a
    case Acquire(p) => At(s, p, In({})).(lk := Some(p))
    case Release(p) => At(s, p, Out).(lk := None)
    case Set(p, c) => At(s, p, In(s.procs[p].at.owed + {c})).(ready := s.ready + {c})
    case Clear(_, c) => s.(ready := s.ready - {c})
    case Wakeup(p, c) => At(s, p, Waking(s.procs[p].at.owed - {c}, c, 0)).(table := Some(p))
    case Sleep(p, c) => At(s, p, Going(s.procs[p].at.owed, c))
    case Go(p) => GoStep(s, p)
    case Kill(p) => s.(procs := s.procs[p := KilledProc(s.procs[p])])
    case Schedule(p) => s.(procs := s.procs[p := Proc(Resumed, RUNNING, s.procs[p].chan)], table := Some(p))
  }

  // ----- the machine with one lock, in which sleep and wakeup are single steps -----

  datatype Task = Outside | Inside(owed: set<nat>) | Asleep(chan: nat) | Woken

  datatype Monitor = Monitor(tasks: seq<Task>, ready: set<nat>, lk: Option<nat>)

  datatype Event =
    | Enter(p: nat) | Leave(p: nat) | MakeTrue(p: nat, chan: nat) | MakeFalse(p: nat, chan: nat)
    | WakeAll(p: nat, chan: nat) | SleepOn(p: nat, chan: nat) | WakeOne(p: nat)

  predicate Possible(m: Monitor, e: Event) {
    && e.p < |m.tasks|
    && match e
       case Enter(p) => (m.tasks[p].Outside? || m.tasks[p].Woken?) && m.lk == None
       case WakeOne(_) => true
       case _ => m.tasks[e.p].Inside? && m.lk == Some(e.p)
  }

  function WokenTasks(tasks: seq<Task>, chan: nat): seq<Task> {
    seq(|tasks|, i requires 0 <= i < |tasks| => if tasks[i] == Asleep(chan) then Woken else tasks[i])
  }

  /** SleepOn lets go of the lock and falls asleep at once; WakeAll wakes every sleeper at once. */
  function Happens(m: Monitor, e: Event): Monitor
    requires Possible(m, e)
  {
    match e
    case Enter(p) => m.(tasks := m.tasks[p := Inside({})], lk := Some(p))
    case Leave(p) => m.(tasks := m.tasks[p := Outside], lk := None)
    case MakeTrue(p, c) => m.(tasks := m.tasks[p := Inside(m.tasks[p].owed + {c})], ready := m.ready + {c})
    case MakeFalse(_, c) => m.(ready := m.ready - {c})
    case WakeAll(p, c) => m.(tasks := WokenTasks(m.tasks[p := Inside(m.tasks[p].owed - {c})], c))
    case SleepOn(p, c) => m.(tasks := m.tasks[p := Asleep(c)], lk := None)
    case WakeOne(p) => m.(tasks := m.tasks[p := if m.tasks[p].Asleep? then Woken else m.tasks[p]])
  }

  // ----- the one refines the other -----

  /** A waker holds ptable.lock and will still come to slot p. */
  predicate WillWake(s: System, c: nat, p: nat) {
    && s.table.Some? && s.table.value < |s.procs|
    && var w := s.procs[s.table.value].at; w.Waking? && w.chan == c && w.i <= p
  }

  /** Asleep from the release of lk on; awake from the moment a waker has ptable.lock. */
  function TaskOf(s: System, p: nat): Task
    requires p < |s.procs|
  {
    match s.procs[p].at
    case Out => Outside
    case In(owed) => Inside(owed)
    case Waking(owed, _, _) => Inside(owed)
    case Going(owed, _) => Inside(owed)
    case Both(owed, _) => Inside(owed)
    case Dropped(c) => Asleep(c)
    case Chosen(c) => Asleep(c)
    case Marked(c) => Asleep(c)
    case Away(c) => if s.procs[p].state == SLEEPING && !WillWake(s, c, p) then Asleep(c) else Woken
    case _ => Woken
  }

  function MonitorOf(s: System): (m: Monitor)
    ensures |m.tasks| == |s.procs|
    ensures forall p: nat :: p < |s.procs| ==> m.tasks[p] == TaskOf(s, p)
  {
    Monitor(seq(|s.procs|, p requires 0 <= p < |s.procs| => TaskOf(s, p)), s.ready, s.lk)
  }

  /** The one step that an action is, if it is one: sleep happens when it lets go of lk, wakeup when it
      gets ptable.lock. */
  function EventOf(s: System, a: Action): Option<Event>
    requires Enabled(s, a)
  {
    match a
    case Acquire(p) => Some(Enter(p))
    case Release(p) => Some(Leave(p))
    case Set(p, c) => Some(MakeTrue(p, c))
    case Clear(p, c) => Some(MakeFalse(p, c))
    case Wakeup(p, c) => Some(WakeAll(p, c))
    case Go(p) => if s.procs[p].at.Both? then Some(SleepOn(p, s.procs[p].at.chan)) else None
    case Kill(p) => Some(WakeOne(p))
    case _ => None
  }

  /** Each lock has the holder it says, and the table entry tells where in sleep its process is. */
  predicate ProcOk(s: System, p: nat)
    requires p < |s.procs|
  {
    var q := s.procs[p];
    && (HoldsLk(q.at) <==> s.lk == Some(p)) && (HoldsTable(q.at) <==> s.table == Some(p))
    && (q.at.Waking? ==> q.at.i <= |s.procs|)
    && (q.state == SLEEPING ==> q.at.Marked? || q.at.Away?)
    && (q.at.Marked? ==> q.state == SLEEPING)
    && (q.at.Chosen? || q.at.Marked? || q.at.Away? ==> q.chan == Some(q.at.chan))
  }

  ghost predicate Inv(s: System) {
    && (s.lk.Some? ==> s.lk.value < |s.procs|) && (s.table.Some? ==> s.table.value < |s.procs|)
    && forall p: nat :: p < |s.procs| ==> ProcOk(s, p)
  }

  lemma StepKeepsInv(s: System, a: Action)
    requires Inv(s) && Enabled(s, a)
    ensures Inv(Step(s, a))
  {
    var t := Step(s, a);
    assert ProcOk(s, a.p);
    forall p: nat | p < |t.procs| ensures ProcOk(t, p) {
      assert ProcOk(s, p);
    }
  }

  lemma EventRefines(s: System, a: Action)
    requires Inv(s) && Enabled(s, a) && EventOf(s, a).Some?
    ensures Possible(MonitorOf(s), EventOf(s, a).value)
    ensures MonitorOf(Step(s, a)) == Happens(MonitorOf(s), EventOf(s, a).value)
  {
    assert ProcOk(s, a.p);
    var t, u := MonitorOf(Step(s, a)), Happens(MonitorOf(s), EventOf(s, a).value);
    forall p: nat | p < |s.procs| ensures t.tasks[p] == u.tasks[p] {
      assert ProcOk(s, p);
    }
    assert t.tasks == u.tasks;
  }

  lemma NoEventRefines(s: System, a: Action)
    requires Inv(s) && Enabled(s, a) && EventOf(s, a) == None
    ensures MonitorOf(Step(s, a)) == MonitorOf(s)
  {
    var t, m := MonitorOf(Step(s, a)), MonitorOf(s);
    assert ProcOk(s, a.p);
    forall p: nat | p < |s.procs| ensures t.tasks[p] == m.tasks[p] {
      assert ProcOk(s, p);
    }
    assert t.tasks == m.tasks;
  }

  /** Each instruction is one step of the monitor or none. */
  lemma StepRefines(s: System, a: Action)
    requires Inv(s) && Enabled(s, a)
    ensures var m, t, e := MonitorOf(s), MonitorOf(Step(s, a)), EventOf(s, a);
            if e == None then t == m else Possible(m, e.value) && t == Happens(m, e.value)
  {
    if EventOf(s, a) == None {
      NoEventRefines(s, a);
    } else {
      EventRefines(s, a);
    }
  }

  /** Whoever holds ptable.lock can go on, so neither lock is waited for in a circle. */
  lemma TableIsReleased(s: System)
    requires Inv(s) && s.table.Some?
    ensures Enabled(s, Go(s.table.value))
  {
    assert ProcOk(s, s.table.value);
  }

  // ----- whole runs -----

  function Boot(nproc: nat): System {
    System(seq(nproc, _ => Proc(Out, RUNNING, None)), {}, None, None)
  }

  lemma BootInv(nproc: nat)
    ensures Inv(Boot(nproc))
  {
  }

  /** A run: actions that are not enabled do not happen. */
  function Exec(s: System, run: seq<Action>): System
    decreases |run|
  {
    if run == [] then s else Exec(if Enabled(s, run[0]) then Step(s, run[0]) else s, run[1..])
  }

  /** The monitor's steps in a run. */
  function Events(s: System, run: seq<Action>): seq<Event>
    decreases |run|
  {
    if run == [] then []
    else if !Enabled(s, run[0]) then Events(s, run[1..])
    else
      var rest := Events(Step(s, run[0]), run[1..]);
      if EventOf(s, run[0]) == None then rest else [EventOf(s, run[0]).value] + rest
  }

  /** es, all of them possible in their turn, lead from m to n. */
  ghost predicate Leads(m: Monitor, es: seq<Event>, n: Monitor)
    decreases |es|
  {
    if es == [] then n == m else Possible(m, es[0]) && Leads(Happens(m, es[0]), es[1..], n)
  }

  lemma {:induction false} ExecRefines(s: System, run: seq<Action>)
    requires Inv(s)
    ensures Inv(Exec(s, run)) && Leads(MonitorOf(s), Events(s, run), MonitorOf(Exec(s, run)))
    decreases |run|
  {
    if run != [] {
      if Enabled(s, run[0]) {
        StepRefines(s, run[0]);
        StepKeepsInv(s, run[0]);
        ExecRefines(Step(s, run[0]), run[1..]);
      } else {
        ExecRefines(s, run[1..]);
      }
    }
  }

  /** sleep gives up the lock and falls asleep as if in one step, and wakeup wakes all sleepers as if in
      one step: every interleaving of their instructions is a run of the machine in which they are. */
  lemma SleepIsAtomic(nproc: nat, run: seq<Action>)
    ensures Leads(MonitorOf(Boot(nproc)), Events(Boot(nproc), run), MonitorOf(Exec(Boot(nproc), run)))
  {
    BootInv(nproc);
    ExecRefines(Boot(nproc), run);
  }

  // ----- no missed wakeup -----

  /** What callers of sleep and wakeup keep to: sleep only after a test that failed, and let go of the
      lock only when every channel made ready has been woken. */
  predicate Careful(s: System, a: Action)
    requires Enabled(s, a)
  {
    match a
    case Release(p) => s.procs[p].at.owed == {}
    case Sleep(p, c) => s.procs[p].at.owed == {} && c !in s.ready
    case _ => true
  }

  predicate CarefulRun(s: System, run: seq<Action>)
    decreases |run|
  {
    run == [] ||
    if Enabled(s, run[0]) then Careful(s, run[0]) && CarefulRun(Step(s, run[0]), run[1..]) else CarefulRun(s, run[1..])
  }

  /** A sleeper whose condition has become true is still to be woken by the holder of the lock. */
  ghost predicate NoneMissed(m: Monitor) {
    forall p: nat :: p < |m.tasks| && m.tasks[p].Asleep? && m.tasks[p].chan in m.ready ==>
      && m.lk.Some? && m.lk.value < |m.tasks| && m.tasks[m.lk.value].Inside?
      && m.tasks[p].chan in m.tasks[m.lk.value].owed
  }

  /** What was tested before the call of sleep still holds when sleep lets go of lk. */
  ghost predicate Tested(s: System) {
    forall p: nat :: p < |s.procs| && (s.procs[p].at.Going? || s.procs[p].at.Both?) ==>
      s.procs[p].at.owed == {} && s.procs[p].at.chan !in s.ready
  }

  predicate CarefulEvent(m: Monitor, e: Event)
    requires Possible(m, e)
  {
    match e
    case Leave(p) => m.tasks[p].owed == {}
    case SleepOn(p, c) => m.tasks[p].owed == {} && c !in m.ready
    case _ => true
  }

  lemma EventMissesNone(m: Monitor, e: Event)
    requires NoneMissed(m) && Possible(m, e) && CarefulEvent(m, e)
    ensures NoneMissed(Happens(m, e))
  {
  }

  lemma StepKeepsTested(s: System, a: Action)
    requires Inv(s) && Tested(s) && Enabled(s, a) && Careful(s, a)
    ensures Tested(Step(s, a))
  {
    var t := Step(s, a);
    assert ProcOk(s, a.p);
    forall p: nat | p < |t.procs| && (t.procs[p].at.Going? || t.procs[p].at.Both?)
      ensures t.procs[p].at.owed == {} && t.procs[p].at.chan !in t.ready
    {
      assert ProcOk(s, p);
    }
  }

  lemma StepMissesNone(s: System, a: Action)
    requires Inv(s) && Tested(s) && NoneMissed(MonitorOf(s)) && Enabled(s, a) && Careful(s, a)
    ensures NoneMissed(MonitorOf(Step(s, a)))
  {
    StepRefines(s, a);
    if EventOf(s, a).Some? {
      EventMissesNone(MonitorOf(s), EventOf(s, a).value);
    }
  }

  lemma {:induction false} RunMissesNone(s: System, run: seq<Action>)
    requires Inv(s) && Tested(s) && NoneMissed(MonitorOf(s)) && CarefulRun(s, run)
    ensures Inv(Exec(s, run)) && NoneMissed(MonitorOf(Exec(s, run)))
    decreases |run|
  {
    if run != [] {
      if Enabled(s, run[0]) {
        StepMissesNone(s, run[0]);
        StepKeepsTested(s, run[0]);
        StepKeepsInv(s, run[0]);
        RunMissesNone(Step(s, run[0]), run[1..]);
      } else {
        RunMissesNone(s, run[1..]);
      }
    }
  }

  /** No wakeup falls between the two locks: in every interleaving, when lk is free no process is in
      sleep, or asleep, with its condition true. */
  lemma NoWakeupLost(nproc: nat, run: seq<Action>, p: nat)
    requires CarefulRun(Boot(nproc), run)
    ensures var s := Exec(Boot(nproc), run);
            p < |s.procs| && s.lk == None ==>
              && (s.procs[p].state == SLEEPING ==> s.procs[p].chan.Some? && s.procs[p].chan.value !in s.ready)
              && (s.procs[p].at.Dropped? || s.procs[p].at.Chosen? ==> s.procs[p].at.chan !in s.ready)
  {
    BootInv(nproc);
    RunMissesNone(Boot(nproc), run);
    var s := Exec(Boot(nproc), run);
    if p < |s.procs| && s.lk == None {
      assert ProcOk(s, p);
      if s.table.Some? {
        assert ProcOk(s, s.table.value);
      }
      assert MonitorOf(s).tasks[p] == TaskOf(s, p);
    }
  }
}
