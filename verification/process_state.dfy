/** proc.c's process table as a state machine. A step is what one process or the scheduler does while it
    holds ptable.lock, or one of fork's stores to its own child's slot; steps interleave freely. */
module ProcessState {
  import opened Options

  datatype State = UNUSED | EMBRYO | SLEEPING | RUNNABLE | RUNNING | ZOMBIE

  /** What a process sleeps on: nothing, a process slot (as in wait), or some other address. */
  datatype Channel = NoChannel | Slot(p: nat) | Other(address: nat)

  /** What a process is doing: its own business, inside wait, or inside fork with its new child. */
  datatype Activity = Running | Waiting | Forking(child: nat)

  datatype Proc = Proc(state: State, pid: nat, parent: Option<nat>, killed: bool, chan: Channel, act: Activity)

  /** Beside the table: the pids that have exited and those that wait has returned, in order. */
  datatype Table = Table(procs: seq<Proc>, init: nat, nextpid: nat, exited: seq<nat>, reaped: seq<nat>)

  // ----- the routines' effects on the table -----

  function WokenProc(p: Proc, chan: Channel): Proc {
    if p.state == SLEEPING && p.chan == chan then p.(state := RUNNABLE) else p
  }

  /** wakeup1. */
  function Woken(procs: seq<Proc>, chan: Channel): (r: seq<Proc>)
    ensures |r| == |procs|
    ensures forall i :: 0 <= i < |r| ==> r[i] == WokenProc(procs[i], chan)
  {
    seq(|procs|, i requires 0 <= i < |procs| => WokenProc(procs[i], chan))
  }

  function AdoptedProc(p: Proc, q: nat, init: nat): Proc {
    if p.parent == Some(q) then p.(parent := Some(init)) else p
  }

  /** exit's loop: q's children become init's. */
  function Adopted(procs: seq<Proc>, q: nat, init: nat): (r: seq<Proc>)
    ensures |r| == |procs|
    ensures forall i :: 0 <= i < |r| ==> r[i] == AdoptedProc(procs[i], q, init)
  {
    seq(|procs|, i requires 0 <= i < |procs| => AdoptedProc(procs[i], q, init))
  }

  predicate ZombieChild(procs: seq<Proc>, c: nat, p: nat) {
    c < |procs| && procs[c].parent == Some(p) && procs[c].state == ZOMBIE
  }

  /** The first zombie child of p at index c or later. */
  function FirstZombie(procs: seq<Proc>, p: nat, c: nat): (r: Option<nat>)
    requires c <= |procs|
    ensures r.Some? ==> c <= r.value && ZombieChild(procs, r.value, p)
    ensures r.Some? ==> forall i: nat :: c <= i < r.value ==> !ZombieChild(procs, i, p)
    ensures r == None ==> forall i: nat :: c <= i < |procs| ==> !ZombieChild(procs, i, p)
    decreases |procs| - c
  {
    if c == |procs| then None else if ZombieChild(procs, c, p) then Some(c) else FirstZombie(procs, p, c + 1)
  }

  function FirstUnused(procs: seq<Proc>, c: nat): (r: Option<nat>)
    requires c <= |procs|
    ensures r.Some? ==> c <= r.value < |procs| && procs[r.value].state == UNUSED
    ensures forall i: nat :: c <= i < (if r.Some? then r.value else |procs|) ==> procs[i].state != UNUSED
    decreases |procs| - c
  {
    if c == |procs| then None else if procs[c].state == UNUSED then Some(c) else FirstUnused(procs, c + 1)
  }

  function FirstPid(procs: seq<Proc>, pid: nat, c: nat): (r: Option<nat>)
    requires c <= |procs|
    ensures r.Some? ==> c <= r.value < |procs| && procs[r.value].pid == pid
    ensures forall i: nat :: c <= i < (if r.Some? then r.value else |procs|) ==> procs[i].pid != pid
    decreases |procs| - c
  {
    if c == |procs| then None else if procs[c].pid == pid then Some(c) else FirstPid(procs, pid, c + 1)
  }

  predicate HasKids(procs: seq<Proc>, p: nat) {
    exists i :: 0 <= i < |procs| && procs[i].parent == Some(p)
  }

  /** allocproc's slot, taken for p's fork. */
  function Allocated(t: Table, p: nat, c: nat): Table
    requires p < |t.procs| && c < |t.procs|
  {
    t.(procs := t.procs[c := t.procs[c].(state := EMBRYO, pid := t.nextpid)][p := t.procs[p].(act := Forking(c))],
       nextpid := t.nextpid + 1)
  }

  /** exit once it has the lock. */
  function Exited(t: Table, p: nat): Table
    requires p < |t.procs| && t.procs[p].parent.Some?
  {
    var woken := Woken(t.procs, Slot(t.procs[p].parent.value));
    var adopted := Adopted(woken, p, t.init);
    var orphaned := exists c :: 0 <= c < |woken| && ZombieChild(woken, c, p);
    var procs := if orphaned then Woken(adopted, Slot(t.init)) else adopted;
    t.(procs := procs[p := procs[p].(state := ZOMBIE)], exited := t.exited + [t.procs[p].pid])
  }

  /** wait's reaping of zombie c by p. */
  function Reaped(t: Table, p: nat, c: nat): Table
    requires p < |t.procs| && c < |t.procs|
  {
    var free := Proc(UNUSED, 0, None, false, t.procs[c].chan, t.procs[c].act);
    t.(procs := t.procs[c := free][p := t.procs[p].(act := Running)],
       reaped := t.reaped + [t.procs[c].pid])
  }

  datatype WaitResult = Pid(pid: nat) | NoChild | Asleep

  /** One round of wait: a zombie child is reaped, or there is nothing to wait for, or p sleeps. */
  function Waited(t: Table, p: nat): (Table, WaitResult)
    requires p < |t.procs|
  {
    var z := FirstZombie(t.procs, p, 0);
    if z.Some? then (Reaped(t, p, z.value), Pid(t.procs[z.value].pid))
    else if !HasKids(t.procs, p) || t.procs[p].killed then
      (t.(procs := t.procs[p := t.procs[p].(act := Running)]), NoChild)
    else (t.(procs := t.procs[p := t.procs[p].(state := SLEEPING, chan := Slot(p), act := Waiting)]), Asleep)
  }

  function Killed(procs: seq<Proc>, c: nat): seq<Proc>
    requires c < |procs|
  {
    procs[c := procs[c].(killed := true, state := if procs[c].state == SLEEPING then RUNNABLE else procs[c].state)]
  }

  // ----- the machine -----

  datatype Action =
    | Alloc(p: nat)            // fork: allocproc
    | Abandon(p: nat)          // fork: no memory, the slot is given back
    | SetParent(p: nat)        // fork: np->parent = proc
    | Start(p: nat)            // fork: the child is RUNNABLE
    | Exit(p: nat)
    | Wait(p: nat)
    | Sleep(p: nat, address: nat)
    | Wakeup(address: nat)
    | Kill(pid: nat)
    | Schedule(p: nat)
    | Yield(p: nat)

  predicate Runs(t: Table, p: nat, act: Activity) {
    p < |t.procs| && t.procs[p].state == RUNNING && t.procs[p].act == act
  }

  predicate Forks(t: Table, p: nat) {
    p < |t.procs| && t.procs[p].state == RUNNING && t.procs[p].act.Forking? && t.procs[p].act.child < |t.procs|
  }

  /** exit of init panics, so it is not a step. */
  predicate Enabled(t: Table, a: Action) {
    match a
    case Alloc(p) => Runs(t, p, Running)
    case Abandon(p) => Forks(t, p) && t.procs[t.procs[p].act.child].parent == None
    case SetParent(p) => Forks(t, p)
    case Start(p) => Forks(t, p) && t.procs[t.procs[p].act.child].parent.Some?
    case Exit(p) => Runs(t, p, Running) && p != t.init && t.procs[p].parent.Some?
    case Wait(p) => Runs(t, p, Running) || Runs(t, p, Waiting)
    case Sleep(p, _) => Runs(t, p, Running)
    case Wakeup(_) => true
    case Kill(_) => true
    case Schedule(p) => p < |t.procs| && t.procs[p].state == RUNNABLE
    case Yield(p) => p < |t.procs| && t.procs[p].state == RUNNING
  }

  function Step(t: Table, a: Action): Table
    requires Enabled(t, a)
  {
    match a
    case Alloc(p) =>
      var c := FirstUnused(t.procs, 0);
      if c == None then t else Allocated(t, p, c.value)
    case Abandon(p) =>
      var c := t.procs[p].act.child;
      t.(procs := t.procs[c := t.procs[c].(state := UNUSED)][p := t.procs[p].(act := Running)])
    case SetParent(p) =>
      var c := t.procs[p].act.child;
      t.(procs := t.procs[c := t.procs[c].(parent := Some(p))])
    case Start(p) =>
      var c := t.procs[p].act.child;
      var child := t.procs[c].(state := RUNNABLE, chan := NoChannel, act := Running);
      t.(procs := t.procs[c := child][p := t.procs[p].(act := Running)])
    case Exit(p) => Exited(t, p)
    case Wait(p) => Waited(t, p).0
    case Sleep(p, address) => t.(procs := t.procs[p := t.procs[p].(state := SLEEPING, chan := Other(address))])
    case Wakeup(address) => t.(procs := Woken(t.procs, Other(address)))
    case Kill(pid) =>
      var c := FirstPid(t.procs, pid, 0);
      if c == None then t else t.(procs := Killed(t.procs, c.value))
    case Schedule(p) => t.(procs := t.procs[p := t.procs[p].(state := RUNNING, chan := NoChannel)])
    case Yield(p) => t.(procs := t.procs[p := t.procs[p].(state := RUNNABLE)])
  }

  // ----- what the steps achieve -----

  /** s and t differ in slots a and b only. */
  predicate SameButAt(s: seq<Proc>, t: seq<Proc>, a: nat, b: nat) {
    |s| == |t| && forall i: nat :: i < |s| && i != a && i != b ==> t[i] == s[i]
  }

  /** allocproc gives a fork the lowest unused slot and the next pid, and fails only when none is unused. */
  lemma AllocFinds(t: Table, p: nat)
    requires Enabled(t, Alloc(p))
    ensures var u := Step(t, Alloc(p));
            if forall i: nat :: i < |t.procs| ==> t.procs[i].state != UNUSED then u == t
            else exists c: nat ::
              && c < |t.procs| && t.procs[c].state == UNUSED && (forall i: nat :: i < c ==> t.procs[i].state != UNUSED)
              && SameButAt(t.procs, u.procs, c, p) && u.procs[c].state == EMBRYO && u.procs[c].pid == t.nextpid
              && u.nextpid == t.nextpid + 1 && u.procs[p].act == Forking(c) && u.procs[p].state == RUNNING
  {
    var c := FirstUnused(t.procs, 0);
    if c.Some? {
      assert SameButAt(t.procs, Step(t, Alloc(p)).procs, c.value, p);
    }
  }

  predicate Alive(s: State) {
    s == SLEEPING || s == RUNNABLE || s == RUNNING
  }

  predicate Makes(t: Table, p: nat) {
    p < |t.procs| && Alive(t.procs[p].state) && t.procs[p].act.Forking?
  }

  /** A child being made is an EMBRYO, and only its maker can be its parent. */
  predicate Making(t: Table, p: nat)
    requires Makes(t, p)
  {
    var c := t.procs[p].act.child;
    && t.procs[p].state != SLEEPING && c < |t.procs| && t.procs[c].state == EMBRYO
    && (t.procs[c].parent == None || t.procs[c].parent == Some(p))
  }

  /** i's parent is alive, and past EMBRYO it has one unless it is init. */
  predicate Family(t: Table, i: nat)
    requires i < |t.procs|
  {
    var q := t.procs[i];
    && (q.parent.Some? ==>
          var p := q.parent.value;
          p < |t.procs| && p != i && Alive(t.procs[p].state) && q.state != UNUSED)
    && (i != t.init && (Alive(q.state) || q.state == ZOMBIE) ==> q.parent.Some?)
  }

  ghost predicate Families(t: Table) {
    && t.init < |t.procs| && Alive(t.procs[t.init].state) && t.procs[t.init].parent == None
    && forall i: nat :: i < |t.procs| ==> Family(t, i)
  }

  /** No child has two makers. */
  ghost predicate Embryos(t: Table) {
    && (forall p: nat :: Makes(t, p) ==> Making(t, p))
    && (forall p: nat, q: nat :: p != q && Makes(t, p) && Makes(t, q) ==> t.procs[p].act.child != t.procs[q].act.child)
  }

  predicate SleepsOnSlot(t: Table, p: nat) {
    p < |t.procs| && t.procs[p].state == SLEEPING && t.procs[p].chan.Slot?
  }

  /** Sleeping on a slot is sleeping in wait, on one's own slot, with no zombie child. */
  ghost predicate NoMissedChild(t: Table) {
    forall p: nat :: SleepsOnSlot(t, p) ==> t.procs[p].chan == Slot(p) && forall c: nat :: !ZombieChild(t.procs, c, p)
  }

  ghost predicate NoRepeats(l: seq<nat>) {
    forall i, j :: 0 <= i < j < |l| ==> l[i] != l[j]
  }

  /** The id of slot i's process: exited exactly when it is a zombie's, and not yet returned by wait. */
  predicate PidOk(t: Table, i: nat)
    requires i < |t.procs|
  {
    t.procs[i].state != UNUSED ==>
      && t.procs[i].pid < t.nextpid && t.procs[i].pid !in t.reaped
      && (t.procs[i].pid in t.exited <==> t.procs[i].state == ZOMBIE)
  }

  ghost predicate UniquePids(t: Table) {
    forall i: nat, j: nat ::
      i < |t.procs| && j < |t.procs| && i != j && t.procs[i].state != UNUSED && t.procs[j].state != UNUSED ==>
        t.procs[i].pid != t.procs[j].pid
  }

  ghost predicate IsZombie(t: Table, pid: nat) {
    exists i: nat :: i < |t.procs| && t.procs[i].state == ZOMBIE && t.procs[i].pid == pid
  }

  ghost predicate Accounted(t: Table, pid: nat) {
    pid < t.nextpid && (pid in t.reaped || IsZombie(t, pid))
  }

  /** Process ids are unique; one that has exited is a zombie's or has been returned by wait, never
      both, and no id is returned twice. */
  ghost predicate Pids(t: Table) {
    && (forall i: nat :: i < |t.procs| ==> PidOk(t, i)) && UniquePids(t)
    && NoRepeats(t.exited) && NoRepeats(t.reaped)
    && (forall x :: x in t.reaped ==> x in t.exited) && (forall x :: x in t.exited ==> Accounted(t, x))
  }

  ghost predicate Inv(t: Table) {
    Families(t) && Embryos(t) && NoMissedChild(t) && Pids(t)
  }

  /** fork's last two stores make the child a runnable child of its maker. */
  lemma ForkCompletes(t: Table, p: nat)
    requires Inv(t) && Forks(t, p)
    ensures Enabled(t, SetParent(p)) && Enabled(Step(t, SetParent(p)), Start(p))
    ensures var c, u := t.procs[p].act.child, Step(Step(t, SetParent(p)), Start(p));
            && SameButAt(t.procs, u.procs, c, p) && u.procs[p].act == Running && u.procs[p].state == RUNNING
            && u.procs[c].state == RUNNABLE && u.procs[c].parent == Some(p) && u.procs[c].pid == t.procs[c].pid
  {
    assert Makes(t, p) && Making(t, p);
  }

  /** wait reaps the lowest zombie child and returns its pid whenever there is one; it gives up exactly when
      there is none and no child at all or a kill, and otherwise sleeps on the caller's slot. */
  lemma WaitAnswers(t: Table, p: nat)
    requires Enabled(t, Wait(p))
    ensures var (u, r) := Waited(t, p);
            var none := forall c: nat :: !ZombieChild(t.procs, c, p);
            && (r.Pid? <==> !none)
            && (r.Pid? ==> exists c: nat ::
                  && ZombieChild(t.procs, c, p) && (forall i: nat :: i < c ==> !ZombieChild(t.procs, i, p))
                  && r.pid == t.procs[c].pid && u.reaped == t.reaped + [r.pid]
                  && SameButAt(t.procs, u.procs, c, p) && u.procs[c].state == UNUSED && u.procs[p].state == RUNNING)
            && (r.NoChild? <==> none && (!HasKids(t.procs, p) || t.procs[p].killed))
            && (!r.Pid? ==> u.reaped == t.reaped && SameButAt(t.procs, u.procs, p, p))
            && (r.Asleep? ==> u.procs[p].state == SLEEPING && u.procs[p].chan == Slot(p))
  {
    var z := FirstZombie(t.procs, p, 0);
    if z.Some? {
      assert ZombieChild(t.procs, z.value, p) && SameButAt(t.procs, Waited(t, p).0.procs, z.value, p);
    }
  }

  /** exit leaves a zombie and gives its children to init. */
  lemma ExitLeaves(t: Table, p: nat)
    requires Inv(t) && Enabled(t, Exit(p))
    ensures var u := Step(t, Exit(p));
            && u.procs[p].state == ZOMBIE && u.exited == t.exited + [t.procs[p].pid]
            && forall i: nat :: i < |t.procs| ==>
                 u.procs[i].parent == if t.procs[i].parent == Some(p) then Some(t.init) else t.procs[i].parent
  {
    assert Family(t, p);
  }

  lemma StillAsleep(t: Table, p: nat, q: nat)
    requires Inv(t) && Enabled(t, Exit(p)) && SleepsOnSlot(Exited(t, p), q)
    ensures SleepsOnSlot(t, q) && Exited(t, p).procs[q].chan == t.procs[q].chan == Slot(q)
            && t.procs[p].parent != Some(q)
    ensures q == t.init ==> forall c: nat :: !ZombieChild(t.procs, c, p)
  {
    var woken := Woken(t.procs, Slot(t.procs[p].parent.value));
    assert SleepsOnSlot(t, q);
    if q == t.init {
      forall c: nat ensures !ZombieChild(t.procs, c, p) {
        assert ZombieChild(t.procs, c, p) ==> ZombieChild(woken, c, p);
      }
    }
  }

  /** exit leaves its parent awake; and init, if one of the children is a zombie. */
  lemma ExitWakes(t: Table, p: nat)
    requires Inv(t) && Enabled(t, Exit(p))
    ensures var u := Step(t, Exit(p));
            && !SleepsOnSlot(u, t.procs[p].parent.value)
            && ((exists c: nat :: ZombieChild(t.procs, c, p)) ==> !SleepsOnSlot(u, t.init))
  {
    var u, q := Step(t, Exit(p)), t.procs[p].parent.value;
    if SleepsOnSlot(u, q) {
      StillAsleep(t, p, q);
    }
    if SleepsOnSlot(u, t.init) {
      StillAsleep(t, p, t.init);
    }
  }

  /** After wakeup nobody sleeps on the channel, and only its sleepers have become runnable. */
  lemma WakeupWakes(procs: seq<Proc>, chan: Channel)
    ensures var r := Woken(procs, chan);
            forall i: nat :: i < |r| ==>
              && (r[i].state == SLEEPING ==> r[i].chan != chan)
              && (r[i] == procs[i] || (procs[i].state == SLEEPING && procs[i].chan == chan
                                       && r[i] == procs[i].(state := RUNNABLE)))
  {
    var r := Woken(procs, chan);
    assert forall i :: 0 <= i < |r| ==> r[i] == WokenProc(procs[i], chan);
  }

  /** kill marks the lowest slot that has the pid, whose process is then not asleep, and nothing else;
      without such a slot nothing happens. */
  lemma KillMarks(t: Table, pid: nat)
    ensures var u := Step(t, Kill(pid));
            if forall i: nat :: i < |t.procs| ==> t.procs[i].pid != pid then u == t
            else exists k: nat ::
              && k < |t.procs| && t.procs[k].pid == pid && (forall i: nat :: i < k ==> t.procs[i].pid != pid)
              && SameButAt(t.procs, u.procs, k, k) && u.procs[k].killed && u.procs[k].state != SLEEPING
              && (t.procs[k].state != SLEEPING ==> u.procs[k].state == t.procs[k].state)
              && (t.procs[k].state == SLEEPING ==> u.procs[k].state == RUNNABLE)
  {
    var c := FirstPid(t.procs, pid, 0);
    if c.Some? {
      assert SameButAt(t.procs, Step(t, Kill(pid)).procs, c.value, c.value);
    }
  }

  // ----- steps that change no family -----

  /** Slot i differs at most in which of the living states it has, its channel, its killed flag, and
      whether it is in wait. */
  predicate QuietSlot(s: Table, t: Table, i: nat)
    requires i < |s.procs| == |t.procs|
  {
    var a, b := s.procs[i], t.procs[i];
    && b.parent == a.parent && b.pid == a.pid && (b.act == a.act || (!a.act.Forking? && !b.act.Forking?))
    && (if Alive(a.state) then Alive(b.state) else b.state == a.state)
    && (b.act.Forking? && b.state == SLEEPING ==> a.state == SLEEPING)
  }

  ghost predicate Quiet(s: Table, t: Table) {
    && |s.procs| == |t.procs| && t.init == s.init && t.nextpid == s.nextpid && t.exited == s.exited
    && t.reaped == s.reaped
    && forall i: nat :: i < |s.procs| ==> QuietSlot(s, t, i)
  }

  lemma QuietFamilies(s: Table, t: Table)
    requires Families(s) && Quiet(s, t)
    ensures Families(t)
  {
    forall i: nat | i < |t.procs| ensures Family(t, i) {
      assert Family(s, i) && QuietSlot(s, t, i);
      if t.procs[i].parent.Some? {
        assert QuietSlot(s, t, t.procs[i].parent.value);
      }
    }
    assert QuietSlot(s, t, t.init);
  }

  lemma QuietEmbryos(s: Table, t: Table)
    requires Embryos(s) && Quiet(s, t)
    ensures Embryos(t)
  {
    forall p: nat | Makes(t, p) ensures Makes(s, p) && t.procs[p].act == s.procs[p].act && Making(t, p) {
      assert QuietSlot(s, t, p);
      assert Making(s, p);
      assert QuietSlot(s, t, s.procs[p].act.child);
    }
  }

  lemma QuietPids(s: Table, t: Table)
    requires Pids(s) && Quiet(s, t)
    ensures Pids(t)
  {
    forall i: nat | i < |t.procs|
      ensures PidOk(t, i) && t.procs[i].pid == s.procs[i].pid
              && (t.procs[i].state == UNUSED <==> s.procs[i].state == UNUSED)
    {
      assert PidOk(s, i) && QuietSlot(s, t, i);
    }
    forall x | x in t.exited ensures Accounted(t, x) {
      assert Accounted(s, x);
      if IsZombie(s, x) {
        var i: nat :| i < |s.procs| && s.procs[i].state == ZOMBIE && s.procs[i].pid == x;
        assert QuietSlot(s, t, i) && t.procs[i].state == ZOMBIE;
      }
    }
  }

  /** Whoever sleeps on a slot in t slept there in s. */
  lemma QuietMissesNone(s: Table, t: Table)
    requires NoMissedChild(s) && Quiet(s, t)
    requires forall p: nat :: SleepsOnSlot(t, p) ==> SleepsOnSlot(s, p) && t.procs[p].chan == s.procs[p].chan
    ensures NoMissedChild(t)
  {
    forall p: nat, c: nat | SleepsOnSlot(t, p) ensures !ZombieChild(t.procs, c, p) {
      assert SleepsOnSlot(s, p) && !ZombieChild(s.procs, c, p);
      if c < |t.procs| {
        assert QuietSlot(s, t, c);
      }
    }
  }

  lemma QuietInv(s: Table, t: Table)
    requires Inv(s) && Quiet(s, t)
    requires forall p: nat :: SleepsOnSlot(t, p) ==> SleepsOnSlot(s, p) && t.procs[p].chan == s.procs[p].chan
    ensures Inv(t)
  {
    QuietFamilies(s, t);
    QuietEmbryos(s, t);
    QuietPids(s, t);
    QuietMissesNone(s, t);
  }

  predicate QuietAction(a: Action) {
    a.Sleep? || a.Wakeup? || a.Kill? || a.Schedule? || a.Yield?
  }

  lemma QuietActionKeepsInv(t: Table, a: Action)
    requires Inv(t) && Enabled(t, a) && QuietAction(a)
    ensures Inv(Step(t, a))
  {
    var u := Step(t, a);
    forall i: nat | i < |t.procs| ensures QuietSlot(t, u, i) {
    }
    QuietInv(t, u);
  }

  // ----- fork's steps -----

  lemma AllocFamilies(t: Table, p: nat, c: nat)
    requires Inv(t) && Enabled(t, Alloc(p)) && c < |t.procs| && t.procs[c].state == UNUSED
    ensures Families(Allocated(t, p, c)) && Embryos(Allocated(t, p, c))
  {
    var u := Allocated(t, p, c);
    assert Family(t, c);
    forall i: nat | i < |u.procs| ensures Family(u, i) {
      assert Family(t, i);
    }
    forall q: nat | Makes(u, q) ensures Making(u, q) && (q != p ==> Makes(t, q) && t.procs[q].act.child != c) {
      assert q != p ==> Makes(t, q) && Making(t, q);
    }
  }

  /** What has exited is still accounted for when zombies stay. */
  lemma SamePids(s: Table, t: Table)
    requires Pids(s) && t.exited == s.exited && t.reaped == s.reaped && t.nextpid >= s.nextpid
    requires |s.procs| == |t.procs| && forall i: nat :: i < |s.procs| && s.procs[i].state == ZOMBIE ==>
               t.procs[i].state == ZOMBIE && t.procs[i].pid == s.procs[i].pid
    ensures forall x :: x in t.exited ==> Accounted(t, x)
  {
    forall x | x in t.exited ensures Accounted(t, x) {
      assert Accounted(s, x);
      if IsZombie(s, x) {
        var i: nat :| i < |s.procs| && s.procs[i].state == ZOMBIE && s.procs[i].pid == x;
        assert t.procs[i].state == ZOMBIE && t.procs[i].pid == x;
      }
    }
  }

  lemma AllocPids(t: Table, p: nat, c: nat)
    requires Inv(t) && Enabled(t, Alloc(p)) && c < |t.procs| && t.procs[c].state == UNUSED
    ensures Pids(Allocated(t, p, c))
  {
    var u := Allocated(t, p, c);
    assert t.nextpid in t.exited ==> Accounted(t, t.nextpid);
    forall i: nat | i < |u.procs|
      ensures PidOk(u, i) && (i != c && u.procs[i].state != UNUSED ==> u.procs[i].pid < t.nextpid)
    {
      assert PidOk(t, i);
    }
    SamePids(t, u);
  }

  /** Sleepers on slots are the same and no new zombie has them as parent. */
  lemma SameSleepers(s: Table, t: Table)
    requires NoMissedChild(s)
    requires forall p: nat :: SleepsOnSlot(t, p) ==> SleepsOnSlot(s, p) && t.procs[p].chan == s.procs[p].chan
    requires forall p: nat, c: nat :: ZombieChild(t.procs, c, p) ==> ZombieChild(s.procs, c, p)
    ensures NoMissedChild(t)
  {
  }

  lemma AllocKeepsInv(t: Table, p: nat, c: nat)
    requires Inv(t) && Enabled(t, Alloc(p)) && c < |t.procs| && t.procs[c].state == UNUSED
    ensures Inv(Allocated(t, p, c))
  {
    AllocFamilies(t, p, c);
    AllocPids(t, p, c);
    SameSleepers(t, Allocated(t, p, c));
  }

  lemma AbandonFamilies(t: Table, p: nat)
    requires Inv(t) && Enabled(t, Abandon(p))
    ensures Families(Step(t, Abandon(p))) && Embryos(Step(t, Abandon(p)))
  {
    var u := Step(t, Abandon(p));
    assert Makes(t, p) && Making(t, p);
    forall i: nat | i < |u.procs| ensures Family(u, i) {
      assert Family(t, i);
    }
    forall q: nat | Makes(u, q) ensures Making(u, q) && Makes(t, q) && q != p {
      assert Makes(t, q) && Making(t, q);
    }
  }

  lemma SetParentFamilies(t: Table, p: nat)
    requires Inv(t) && Enabled(t, SetParent(p))
    ensures Families(Step(t, SetParent(p))) && Embryos(Step(t, SetParent(p)))
  {
    var u := Step(t, SetParent(p));
    assert Makes(t, p) && Making(t, p);
    forall i: nat | i < |u.procs| ensures Family(u, i) {
      assert Family(t, i);
    }
    forall q: nat | Makes(u, q) ensures Making(u, q) && Makes(t, q) {
      assert Makes(t, q) && Making(t, q);
    }
  }

  lemma StartFamilies(t: Table, p: nat)
    requires Inv(t) && Enabled(t, Start(p))
    ensures Families(Step(t, Start(p))) && Embryos(Step(t, Start(p)))
  {
    var u := Step(t, Start(p));
    assert Makes(t, p) && Making(t, p);
    forall i: nat | i < |u.procs| ensures Family(u, i) {
      assert Family(t, i);
    }
    forall q: nat | Makes(u, q) ensures Making(u, q) && Makes(t, q) && q != p {
      assert Makes(t, q) && Making(t, q);
    }
  }

  /** A slot that stays, or ceases to be, an EMBRYO keeps the ids in order. */
  lemma ForkPids(s: Table, t: Table)
    requires Pids(s) && |t.procs| == |s.procs| && t.exited == s.exited && t.reaped == s.reaped && t.nextpid == s.nextpid
    requires forall i: nat :: i < |s.procs| ==>
               && t.procs[i].pid == s.procs[i].pid && (t.procs[i].state == ZOMBIE <==> s.procs[i].state == ZOMBIE)
               && (t.procs[i].state != UNUSED ==> s.procs[i].state != UNUSED)
    ensures Pids(t)
  {
    forall i: nat | i < |t.procs| ensures PidOk(t, i) {
      assert PidOk(s, i);
    }
    SamePids(s, t);
  }

  lemma ForkStepKeepsInv(t: Table, a: Action)
    requires Inv(t) && Enabled(t, a) && (a.Abandon? || a.SetParent? || a.Start?)
    ensures Inv(Step(t, a))
  {
    assert Makes(t, a.p) && Making(t, a.p);
    match a {
      case Abandon(p) => AbandonFamilies(t, p);
      case SetParent(p) => SetParentFamilies(t, p);
      case Start(p) => StartFamilies(t, p);
    }
    ForkPids(t, Step(t, a));
    SameSleepers(t, Step(t, a));
  }

  // ----- wait -----

  lemma ReapFamilies(t: Table, p: nat, c: nat)
    requires Inv(t) && Enabled(t, Wait(p)) && ZombieChild(t.procs, c, p)
    ensures Families(Reaped(t, p, c)) && Embryos(Reaped(t, p, c))
  {
    var u := Reaped(t, p, c);
    forall i: nat | i < |u.procs| ensures Family(u, i) {
      assert Family(t, i);
    }
    forall q: nat | Makes(u, q) ensures Making(u, q) && Makes(t, q) {
      assert Makes(t, q) && Making(t, q);
    }
  }

  /** Reaping moves one id from the zombies to those returned, for the first time. */
  lemma ReapPids(t: Table, p: nat, c: nat)
    requires Inv(t) && Enabled(t, Wait(p)) && ZombieChild(t.procs, c, p)
    ensures Pids(Reaped(t, p, c))
  {
    var u := Reaped(t, p, c);
    assert PidOk(t, c);
    forall i: nat | i < |u.procs| ensures PidOk(u, i) {
      assert PidOk(t, i);
    }
    forall x | x in u.exited ensures Accounted(u, x) {
      assert Accounted(t, x);
      if x !in u.reaped {
        var i: nat :| i < |t.procs| && t.procs[i].state == ZOMBIE && t.procs[i].pid == x;
        assert u.procs[i].state == ZOMBIE && u.procs[i].pid == x;
      }
    }
  }

  lemma WaitKeepsInv(t: Table, p: nat)
    requires Inv(t) && Enabled(t, Wait(p))
    ensures Inv(Waited(t, p).0)
  {
    var u, z := Waited(t, p).0, FirstZombie(t.procs, p, 0);
    if z.Some? {
      ReapFamilies(t, p, z.value);
      ReapPids(t, p, z.value);
      SameSleepers(t, u);
    } else {
      forall i: nat | i < |t.procs| ensures QuietSlot(t, u, i) {
      }
      QuietFamilies(t, u);
      QuietEmbryos(t, u);
      QuietPids(t, u);
      forall q: nat | SleepsOnSlot(u, q)
        ensures u.procs[q].chan == Slot(q) && forall c: nat :: !ZombieChild(u.procs, c, q)
      {
        assert q != p ==> SleepsOnSlot(t, q);
        forall c: nat ensures !ZombieChild(u.procs, c, q) {
          assert ZombieChild(u.procs, c, q) <==> ZombieChild(t.procs, c, q);
        }
      }
    }
  }

  // ----- exit -----

  lemma WakeIsQuiet(t: Table, chan: Channel)
    requires Inv(t)
    ensures var u := t.(procs := Woken(t.procs, chan)); Quiet(t, u) && Inv(u)
  {
    var u := t.(procs := Woken(t.procs, chan));
    forall i: nat | i < |t.procs| ensures QuietSlot(t, u, i) {
    }
    QuietInv(t, u);
  }

  /** The table once p's children are init's; init may sleep although it now has a zombie child. */
  function AdoptedTable(t: Table, p: nat): Table {
    t.(procs := Adopted(t.procs, p, t.init))
  }

  lemma AdoptFamilies(t: Table, p: nat)
    requires Inv(t) && Enabled(t, Exit(p))
    ensures var u := AdoptedTable(t, p);
            Families(u) && Embryos(u) && forall i: nat :: i < |u.procs| ==> u.procs[i].parent != Some(p)
  {
    var u := AdoptedTable(t, p);
    forall i: nat | i < |u.procs| ensures Family(u, i) {
      assert Family(t, i);
    }
    forall q: nat | Makes(u, q) ensures Making(u, q) && Makes(t, q) && u.procs[q].act == t.procs[q].act {
      assert Makes(t, q) && Making(t, q);
    }
  }

  lemma AdoptPids(t: Table, p: nat)
    requires Inv(t) && Enabled(t, Exit(p))
    ensures Pids(AdoptedTable(t, p))
  {
    ForkPids(t, AdoptedTable(t, p));
  }

  /** p's slot, with no children left, turned into a zombie whose parent is not asleep in wait. */
  lemma ZombieFamilies(t: Table, p: nat)
    requires Families(t) && Embryos(t) && Runs(t, p, Running) && p != t.init
    requires forall i: nat :: i < |t.procs| ==> t.procs[i].parent != Some(p)
    ensures var u := t.(procs := t.procs[p := t.procs[p].(state := ZOMBIE)]); Families(u) && Embryos(u)
  {
    var u := t.(procs := t.procs[p := t.procs[p].(state := ZOMBIE)]);
    forall i: nat | i < |u.procs| ensures Family(u, i) {
      assert Family(t, i) && Family(t, p);
    }
    forall q: nat | Makes(u, q) ensures Making(u, q) && Makes(t, q) {
      assert Makes(t, q) && Making(t, q);
    }
  }

  lemma ZombiePids(t: Table, p: nat)
    requires Pids(t) && p < |t.procs| && Alive(t.procs[p].state)
    ensures Pids(t.(procs := t.procs[p := t.procs[p].(state := ZOMBIE)], exited := t.exited + [t.procs[p].pid]))
  {
    var u := t.(procs := t.procs[p := t.procs[p].(state := ZOMBIE)], exited := t.exited + [t.procs[p].pid]);
    assert PidOk(t, p);
    forall i: nat | i < |u.procs| ensures PidOk(u, i) {
      assert PidOk(t, i);
    }
    forall x | x in u.exited ensures Accounted(u, x) {
      if x == t.procs[p].pid {
        assert u.procs[p].state == ZOMBIE;
      } else {
        assert Accounted(t, x);
        if IsZombie(t, x) {
          var i: nat :| i < |t.procs| && t.procs[i].state == ZOMBIE && t.procs[i].pid == x;
          assert u.procs[i].state == ZOMBIE && u.procs[i].pid == x;
        }
      }
    }
  }

  /** A zombie child of q after p's exit was one before, or is p, or has been adopted by init. */
  lemma NewZombies(t: Table, p: nat, c: nat, q: nat)
    requires Inv(t) && Enabled(t, Exit(p))
    ensures ZombieChild(Exited(t, p).procs, c, q) ==>
              ZombieChild(t.procs, c, q) || (c == p && t.procs[p].parent == Some(q))
                || (q == t.init && ZombieChild(t.procs, c, p))
  {
    assert Family(t, p);
  }

  /** Whoever sleeps in wait after an exit has neither the new zombie nor an adopted one as a child. */
  lemma ExitMissesNone(t: Table, p: nat)
    requires Inv(t) && Enabled(t, Exit(p))
    ensures NoMissedChild(Exited(t, p))
  {
    var u := Exited(t, p);
    forall q: nat | SleepsOnSlot(u, q)
      ensures u.procs[q].chan == Slot(q) && forall c: nat :: !ZombieChild(u.procs, c, q)
    {
      StillAsleep(t, p, q);
      forall c: nat ensures !ZombieChild(u.procs, c, q) {
        NewZombies(t, p, c, q);
      }
    }
  }

  lemma SameFamilies(s: Table, t: Table)
    requires Families(s) && Embryos(s) && t.procs == s.procs && t.init == s.init
    ensures Families(t) && Embryos(t)
  {
    forall i: nat | i < |t.procs| ensures Family(t, i) {
      assert Family(s, i);
    }
    forall q: nat | Makes(t, q) ensures Making(t, q) && Makes(s, q) {
      assert Makes(s, q) && Making(s, q);
    }
  }

  lemma ExitKeepsInv(t: Table, p: nat)
    requires Inv(t) && Enabled(t, Exit(p))
    ensures Inv(Exited(t, p))
  {
    var woken := t.(procs := Woken(t.procs, Slot(t.procs[p].parent.value)));
    WakeIsQuiet(t, Slot(t.procs[p].parent.value));
    var adopted := AdoptedTable(woken, p);
    AdoptFamilies(woken, p);
    AdoptPids(woken, p);
    var again := adopted.(procs := Woken(adopted.procs, Slot(t.init)));
    forall i: nat | i < |t.procs| ensures QuietSlot(adopted, again, i) && QuietSlot(adopted, adopted, i) {
    }
    var last := if exists c :: 0 <= c < |woken.procs| && ZombieChild(woken.procs, c, p) then again else adopted;
    QuietFamilies(adopted, last);
    QuietEmbryos(adopted, last);
    QuietPids(adopted, last);
    ZombieFamilies(last, p);
    ZombiePids(last, p);
    var zombie := last.(procs := last.procs[p := last.procs[p].(state := ZOMBIE)]);
    var u := Exited(t, p);
    assert u == zombie.(exited := t.exited + [t.procs[p].pid]);
    SameFamilies(zombie, u);
    ExitMissesNone(t, p);
  }

  // ----- whole runs -----

  lemma StepKeepsInv(t: Table, a: Action)
    requires Inv(t) && Enabled(t, a)
    ensures Inv(Step(t, a))
  {
    match a {
      case Alloc(p) =>
        var c := FirstUnused(t.procs, 0);
        if c.Some? {
          AllocKeepsInv(t, p, c.value);
        }
      case Abandon(_) => ForkStepKeepsInv(t, a);
      case SetParent(_) => ForkStepKeepsInv(t, a);
      case Start(_) => ForkStepKeepsInv(t, a);
      case Exit(p) => ExitKeepsInv(t, p);
      case Wait(p) => WaitKeepsInv(t, p);
      case _ => QuietActionKeepsInv(t, a);
    }
  }

  /** After userinit: init is runnable in slot 0, every other slot is unused. */
  function Boot(nproc: nat): Table
    requires nproc > 0
  {
    var unused := Proc(UNUSED, 0, None, false, NoChannel, Running);
    Table(seq(nproc, i => if i == 0 then unused.(state := RUNNABLE, pid := 1) else unused), 0, 2, [], [])
  }

  lemma BootInv(nproc: nat)
    requires nproc > 0
    ensures Inv(Boot(nproc))
  {
    var t := Boot(nproc);
    forall i: nat | i < |t.procs| ensures Family(t, i) && PidOk(t, i) {
    }
  }

  /** A run: actions that are not enabled do not happen. */
  ghost function Exec(t: Table, run: seq<Action>): (u: Table)
    requires Inv(t)
    ensures Inv(u)
    decreases |run|
  {
    if run == [] then t
    else if Enabled(t, run[0]) then
      StepKeepsInv(t, run[0]);
      Exec(Step(t, run[0]), run[1..])
    else Exec(t, run[1..])
  }

  /** Safety of exit and wait over every run: whenever the lock is free, no process sleeps in wait with
      a zombie child, and every process past EMBRYO but init has a parent that is neither UNUSED nor
      ZOMBIE. */
  lemma ExitWaitSafety(nproc: nat, run: seq<Action>)
    requires nproc > 0
    ensures Inv(Boot(nproc))
    ensures var t := Exec(Boot(nproc), run);
            && (forall p: nat, c: nat ::
                  p < |t.procs| && t.procs[p].state == SLEEPING && t.procs[p].chan == Slot(p) ==>
                    !ZombieChild(t.procs, c, p))
            && (forall i: nat ::
                 i < |t.procs| && i != t.init && t.procs[i].state != UNUSED && t.procs[i].state != EMBRYO ==>
                 && t.procs[i].parent.Some? && t.procs[i].parent.value < |t.procs|
                 && t.procs[t.procs[i].parent.value].state != UNUSED
                 && t.procs[t.procs[i].parent.value].state != ZOMBIE)
  {
    BootInv(nproc);
    var t := Exec(Boot(nproc), run);
    forall p: nat, c: nat | p < |t.procs| && t.procs[p].state == SLEEPING && t.procs[p].chan == Slot(p)
      ensures !ZombieChild(t.procs, c, p)
    {
      assert SleepsOnSlot(t, p);
    }
    forall i: nat | i < |t.procs| && i != t.init && t.procs[i].state != UNUSED && t.procs[i].state != EMBRYO
      ensures t.procs[i].parent.Some? && t.procs[i].parent.value < |t.procs|
              && Alive(t.procs[t.procs[i].parent.value].state)
    {
      assert Family(t, i);
    }
  }

  /** Each exit is returned by wait at most once, and until then its process is a zombie. */
  lemma ReapedOnce(nproc: nat, run: seq<Action>)
    requires nproc > 0
    ensures Inv(Boot(nproc))
    ensures var t := Exec(Boot(nproc), run);
            && NoRepeats(t.exited) && NoRepeats(t.reaped) && (forall x :: x in t.reaped ==> x in t.exited)
            && forall x :: x in t.exited ==> (x !in t.reaped <==> IsZombie(t, x))
  {
    BootInv(nproc);
    var t := Exec(Boot(nproc), run);
    forall x | x in t.exited ensures x !in t.reaped <==> IsZombie(t, x) {
      assert Accounted(t, x);
      if IsZombie(t, x) {
        var i: nat :| i < |t.procs| && t.procs[i].state == ZOMBIE && t.procs[i].pid == x;
        assert PidOk(t, i);
      }
    }
  }

  /** Only its current parent reaps a zombie. */
  lemma ParentReaps(t: Table, a: Action)
    requires Inv(t) && Enabled(t, a) && Step(t, a).reaped != t.reaped
    ensures a.Wait? && exists c: nat :: ZombieChild(t.procs, c, a.p) && Step(t, a).reaped == t.reaped + [t.procs[c].pid]
                                        && t.procs[c].pid !in t.reaped && Step(t, a).procs[c].state == UNUSED
  {
    var z := FirstZombie(t.procs, a.p, 0).value;
    assert PidOk(t, z) && ZombieChild(t.procs, z, a.p);
  }
}
