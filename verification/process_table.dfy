/** proc.c's routines as loops over ptable.proc, each for the time it holds ptable.lock. */
module ProcessTable {
  import opened Options
  import opened ProcessState

  /** Slot contents during exit's loop: `passed` it or not, init `woken` or not. */
  function Reparented(q: Proc, p: nat, init: nat, passed: bool, woken: bool): Proc {
    var a := if passed then AdoptedProc(q, p, init) else q;
    if woken then WokenProc(a, Slot(init)) else a
  }

  class Ptable {
    const procs: array<Proc>
    const initproc: nat
    var nextpid: nat
    ghost var exited: seq<nat>
    ghost var reaped: seq<nat>

    ghost function T(): Table
      reads this, procs
    {
      Table(procs[..], initproc, nextpid, exited, reaped)
    }

    /** userinit on a zeroed table. */
    constructor (nproc: nat)
      requires nproc > 0
      ensures fresh(procs) && T() == Boot(nproc) && Inv(T())
    {
      procs := new Proc[nproc](i => Proc(UNUSED, 0, None, false, NoChannel, Running));
      initproc, nextpid, exited, reaped := 0, 1, [], [];
      new;
      procs[0] := procs[0].(state := EMBRYO, pid := nextpid);
      nextpid := nextpid + 1;
      procs[0] := procs[0].(state := RUNNABLE);
      assert procs[..] == Boot(nproc).procs;
      BootInv(nproc);
    }

    /** wakeup1. */
    method Wakeup1(chan: Channel)
      modifies procs
      ensures procs[..] == Woken(old(procs[..]), chan)
    {
      var p := 0;
      while p < procs.Length
        invariant 0 <= p <= procs.Length
        invariant forall i :: 0 <= i < procs.Length ==>
                    procs[i] == if i < p then WokenProc(old(procs[i]), chan) else old(procs[i])
      {
        if procs[p].state == SLEEPING && procs[p].chan == chan {
          procs[p] := procs[p].(state := RUNNABLE);
        }
        p := p + 1;
      }
    }

    /** allocproc up to the release of the lock, for a fork by p. */
    method Allocproc(p: nat) returns (child: Option<nat>)
      requires Inv(T()) && Enabled(T(), Alloc(p))
      modifies this, procs
      ensures Inv(T()) && T() == Step(old(T()), Alloc(p))
      ensures child.Some? ==> child.value < procs.Length && procs[p].act == Forking(child.value)
    {
      StepKeepsInv(T(), Alloc(p));
      ghost var before := T();
      var c := 0;
      while c < procs.Length
        invariant c <= procs.Length && FirstUnused(procs[..], 0) == FirstUnused(procs[..], c)
      {
        if procs[c].state == UNUSED {
          procs[c] := procs[c].(state := EMBRYO, pid := nextpid);
          procs[p] := procs[p].(act := Forking(c));
          nextpid := nextpid + 1;
          assert T() == Allocated(before, p, c);
          return Some(c);
        }
        c := c + 1;
      }
      child := None;
    }

    /** fork's way out when there is no memory. */
    method Abandon(p: nat)
      requires Inv(T()) && Enabled(T(), Action.Abandon(p))
      modifies procs
      ensures Inv(T()) && T() == Step(old(T()), Action.Abandon(p))
    {
      StepKeepsInv(T(), Action.Abandon(p));
      assert Makes(T(), p) && Making(T(), p);
      var c := procs[p].act.child;
      procs[c] := procs[c].(state := UNUSED);
      procs[p] := procs[p].(act := Running);
      assert T() == Step(old(T()), Action.Abandon(p));
    }

    /** np->parent = proc, outside the lock. */
    method SetParent(p: nat)
      requires Inv(T()) && Enabled(T(), Action.SetParent(p))
      modifies procs
      ensures Inv(T()) && T() == Step(old(T()), Action.SetParent(p))
    {
      StepKeepsInv(T(), Action.SetParent(p));
      var c := procs[p].act.child;
      procs[c] := procs[c].(parent := Some(p));
    }

    /** The end of fork: the child can run. */
    method Start(p: nat) returns (pid: nat)
      requires Inv(T()) && Enabled(T(), Action.Start(p))
      modifies procs
      ensures Inv(T()) && T() == Step(old(T()), Action.Start(p)) && pid == old(procs[procs[p].act.child].pid)
    {
      StepKeepsInv(T(), Action.Start(p));
      assert Makes(T(), p) && Making(T(), p);
      var c := procs[p].act.child;
      pid := procs[c].pid;
      procs[c] := procs[c].(state := RUNNABLE, chan := NoChannel, act := Running);
      procs[p] := procs[p].(act := Running);
      assert T() == Step(old(T()), Action.Start(p));
    }

    /** exit's loop: p's children become init's, and init is woken if one is a zombie. */
    method Reparent(p: nat)
      modifies procs
      ensures var kids := old(procs[..]);
              procs[..] == if exists c :: 0 <= c < |kids| && ZombieChild(kids, c, p)
                           then Woken(Adopted(kids, p, initproc), Slot(initproc))
                           else Adopted(kids, p, initproc)
    {
      ghost var kids := procs[..];
      var c := 0;
      ghost var woke := false;
      while c < procs.Length
        invariant 0 <= c <= procs.Length
        invariant woke <==> exists i :: 0 <= i < c && ZombieChild(kids, i, p)
        invariant forall i :: 0 <= i < procs.Length ==> procs[i] == Reparented(kids[i], p, initproc, i < c, woke)
      {
        assert procs[c] == Reparented(kids[c], p, initproc, false, woke);
        assert ZombieChild(kids, c, p) <==> procs[c].parent == Some(p) && procs[c].state == ZOMBIE;
        if procs[c].parent == Some(p) {
          procs[c] := procs[c].(parent := Some(initproc));
          if procs[c].state == ZOMBIE {
            Wakeup1(Slot(initproc));
            woke := true;
          }
        }
        c := c + 1;
      }
      assert woke ==> procs[..] == Woken(Adopted(kids, p, initproc), Slot(initproc));
      assert !woke ==> procs[..] == Adopted(kids, p, initproc);
    }

    /** exit once it has the lock; exit of init would be a panic. */
    method Exit(p: nat)
      requires Inv(T()) && Enabled(T(), Action.Exit(p))
      modifies procs, `exited
      ensures Inv(T()) && T() == Step(old(T()), Action.Exit(p))
    {
      StepKeepsInv(T(), Action.Exit(p));
      ghost var before := T();
      Wakeup1(Slot(procs[p].parent.value));
      Reparent(p);
      procs[p] := procs[p].(state := ZOMBIE);
      exited := exited + [before.procs[p].pid];
      assert T() == Exited(before, p);
    }

    /** One round of wait: scan for an exited child, give up, or go to sleep. */
    method Wait(p: nat) returns (r: WaitResult)
      requires Inv(T()) && Enabled(T(), Action.Wait(p))
      modifies procs, `reaped
      ensures Inv(T()) && (T(), r) == Waited(old(T()), p)
    {
      StepKeepsInv(T(), Action.Wait(p));
      ghost var before := T();
      var havekids := false;
      var c := 0;
      while c < procs.Length
        invariant 0 <= c <= procs.Length
        invariant FirstZombie(procs[..], p, 0) == FirstZombie(procs[..], p, c)
        invariant havekids <==> exists i :: 0 <= i < c && procs[i].parent == Some(p)
      {
        if procs[c].parent == Some(p) {
          havekids := true;
          if procs[c].state == ZOMBIE {
            r := Pid(procs[c].pid);
            reaped := reaped + [procs[c].pid];
            procs[c] := procs[c].(pid := 0, parent := None, killed := false, state := UNUSED);
            procs[p] := procs[p].(act := Running);
            assert T() == Reaped(before, p, c);
            return;
          }
        }
        c := c + 1;
      }
      assert havekids <==> HasKids(procs[..], p);
      if !havekids || procs[p].killed {
        procs[p] := procs[p].(act := Running);
        r := NoChild;
      } else {
        procs[p] := procs[p].(state := SLEEPING, chan := Slot(p), act := Waiting);
        r := Asleep;
      }
    }

    /** kill: the first process with that pid; a sleeper is made runnable. */
    method Kill(pid: nat) returns (r: int)
      requires Inv(T())
      modifies procs
      ensures Inv(T()) && T() == Step(old(T()), Action.Kill(pid))
      ensures r == if FirstPid(old(procs[..]), pid, 0).Some? then 0 else -1
    {
      StepKeepsInv(T(), Action.Kill(pid));
      ghost var before := T();
      var p := 0;
      while p < procs.Length
        invariant p <= procs.Length && FirstPid(procs[..], pid, 0) == FirstPid(procs[..], pid, p)
      {
        if procs[p].pid == pid {
          procs[p] := procs[p].(killed := true);
          if procs[p].state == SLEEPING {
            procs[p] := procs[p].(state := RUNNABLE);
          }
          assert procs[..] == Killed(before.procs, p);
          return 0;
        }
        p := p + 1;
      }
      r := -1;
    }

    /** scheduler's loop from slot `from` on, up to its next switch to a process. */
    method Schedule(from: nat) returns (p: nat)
      requires Inv(T()) && from <= procs.Length
      modifies procs
      ensures from <= p <= procs.Length && Inv(T())
      ensures forall i :: from <= i < p ==> old(procs[i].state) != RUNNABLE
      ensures p < procs.Length ==> Enabled(old(T()), Action.Schedule(p)) && T() == Step(old(T()), Action.Schedule(p))
      ensures p == procs.Length ==> T() == old(T())
    {
      p := from;
      while p < procs.Length
        invariant from <= p <= procs.Length
        invariant forall i :: from <= i < p ==> procs[i].state != RUNNABLE
      {
        if procs[p].state == RUNNABLE {
          StepKeepsInv(T(), Action.Schedule(p));
          procs[p] := procs[p].(state := RUNNING, chan := NoChannel);
          return;
        }
        p := p + 1;
      }
    }
  }
}
