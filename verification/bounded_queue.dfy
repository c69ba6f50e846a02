/** lab4's server with a bounded queue: main accepts sockets and queues them, workers take them; a
    thread's action is what it does from locking q_lock to unlocking it or waiting. */
module BoundedQueue {
  /** A worker waits on `empty`, or is about to lock (again), or serves a socket. */
  datatype Worker = Waiting | Ready | Serving(sock: int)

  /** main waits in accept, or holds a socket that it is about to queue, or waits on `full` with it. */
  datatype Main = Accepting | Holding(sock: int) | Blocked(sock: int)

  /** req_q and the threads; arrived and taken are the sockets accepted and taken out of the queue so far. */
  datatype Server = Server(qsize: nat, q: seq<int>, main: Main, workers: seq<Worker>, arrived: seq<int>,
                           taken: seq<int>)

  predicate WorkerWaits(workers: seq<Worker>, w: nat) {
    w < |workers| && workers[w].Waiting?
  }

  /** What a signal on `empty` may choose: a waiting worker, if there is one. */
  ghost predicate Signals(workers: seq<Worker>, w: nat) {
    WorkerWaits(workers, w) || forall v: nat :: !WorkerWaits(workers, v)
  }

  /** pthread_cond_signal(&empty), waking worker w if it waits. */
  function Signalled(s: Server, w: nat): Server {
    if WorkerWaits(s.workers, w) then s.(workers := s.workers[w := Ready]) else s
  }

  /** enqueue: only the push onto an empty queue signals; w is the worker that the signal wakes. */
  function Enqueued(s: Server, sock: int, w: nat): Server {
    var t := s.(q := s.q + [sock]);
    if s.q == [] then Signalled(t, w) else t
  }

  /** dequeue: only the pop from a full queue signals main. */
  function Dequeued(s: Server): Server
    requires s.q != []
  {
    var t := s.(q := s.q[1..], taken := s.taken + [s.q[0]]);
    if |s.q| == s.qsize && s.main.Blocked? then t.(main := Holding(s.main.sock)) else t
  }

  datatype Action =
    | Accept(sock: int)
    | Produce(woken: nat)   // main takes the lock
    | Consume(w: nat)       // worker w takes the lock
    | Finish(w: nat)        // worker w has served its socket
    | Spurious(w: nat)      // a wait may return without a signal
    | SpuriousMain

  ghost predicate Enabled(s: Server, a: Action) {
    match a
    case Accept(_) => s.main.Accepting?
    case Produce(woken) => s.main.Holding? && (s.q == [] ==> Signals(s.workers, woken))
    case Consume(w) => w < |s.workers| && s.workers[w].Ready?
    case Finish(w) => w < |s.workers| && s.workers[w].Serving?
    case Spurious(w) => WorkerWaits(s.workers, w)
    case SpuriousMain => s.main.Blocked?
  }

  function Step(s: Server, a: Action): Server {
    match a
    case Accept(sock) => s.(main := Holding(sock), arrived := s.arrived + [sock])
    case Produce(woken) =>
      if !s.main.Holding? then s
      else if |s.q| == s.qsize then s.(main := Blocked(s.main.sock))
      else Enqueued(s.(main := Accepting), s.main.sock, woken)
    case Consume(w) =>
      if w >= |s.workers| then s
      else if s.q == [] then s.(workers := s.workers[w := Waiting])
      else
        var t := Dequeued(s);
        t.(workers := t.workers[w := Serving(s.q[0])])
    case Finish(w) => if w < |s.workers| then s.(workers := s.workers[w := Ready]) else s
    case Spurious(w) => Signalled(s, w)
    case SpuriousMain => if s.main.Blocked? then s.(main := Holding(s.main.sock)) else s
  }

  ghost predicate SomeoneAwake(s: Server) {
    exists w: nat :: w < |s.workers| && !s.workers[w].Waiting?
  }

  /** The socket that main has accepted and not yet queued. */
  function InHand(main: Main): seq<int> {
    if main.Accepting? then [] else [main.sock]
  }

  /** The queue is bounded and in arrival order, and no accepted socket is missing; when it is not empty some worker
      is not waiting; main
      waits only while it is full. */
  ghost predicate Inv(s: Server) {
    && s.qsize > 0 && |s.workers| > 0 && |s.q| <= s.qsize && s.arrived == s.taken + s.q + InHand(s.main)
    && (s.q != [] ==> SomeoneAwake(s))
    && (s.main.Blocked? ==> |s.q| == s.qsize)
  }

  lemma StillAwake(s: Server, t: Server)
    requires SomeoneAwake(s) && |t.workers| == |s.workers|
    requires forall w: nat :: w < |s.workers| && !s.workers[w].Waiting? ==> !t.workers[w].Waiting?
    ensures SomeoneAwake(t)
  {
    var w: nat :| w < |s.workers| && !s.workers[w].Waiting?;
    assert !t.workers[w].Waiting?;
  }

  /** The push onto an empty queue wakes a worker unless all are awake. */
  lemma EnqueueWakes(s: Server, sock: int, woken: nat)
    requires |s.workers| > 0 && if s.q == [] then Signals(s.workers, woken) else SomeoneAwake(s)
    ensures SomeoneAwake(Enqueued(s, sock, woken))
  {
    var t := Enqueued(s, sock, woken);
    if s.q == [] {
      assert WorkerWaits(s.workers, woken) || !WorkerWaits(s.workers, 0);
      assert !t.workers[if WorkerWaits(s.workers, woken) then woken else 0].Waiting?;
    } else {
      StillAwake(s, t);
    }
  }

  lemma StepKeepsInv(s: Server, a: Action)
    requires Inv(s) && Enabled(s, a)
    ensures Inv(Step(s, a))
  {
    var t := Step(s, a);
    match a
    case Produce(woken) =>
      if |s.q| < s.qsize {
        EnqueueWakes(s.(main := Accepting), s.main.sock, woken);
      }
    case Consume(w) =>
      if s.q != [] {
        assert !t.workers[w].Waiting?;
        assert s.q == [s.q[0]] + s.q[1..];
      }
    case _ =>
      if s.q != [] {
        StillAwake(s, t);
      }
  }

  // ----- whole runs -----

  function Boot(qsize: nat, nthread: nat): Server {
    Server(qsize, [], Accepting, seq(nthread, _ => Ready), [], [])
  }

  /** A run: actions that are not enabled do not happen. */
  ghost function Exec(s: Server, run: seq<Action>): (t: Server)
    requires Inv(s)
    ensures Inv(t) && t.qsize == s.qsize && |t.workers| == |s.workers|
    decreases |run|
  {
    if run == [] then s
    else if Enabled(s, run[0]) then
      StepKeepsInv(s, run[0]);
      Exec(Step(s, run[0]), run[1..])
    else Exec(s, run[1..])
  }

  /** In every interleaving the queue holds at most QSIZE sockets, and every accepted socket is, in the
      order they came, taken, queued, or in main's hand, once. */
  lemma BoundedFifo(qsize: nat, nthread: nat, run: seq<Action>)
    requires qsize > 0 && nthread > 0
    ensures Inv(Boot(qsize, nthread))
    ensures var s := Exec(Boot(qsize, nthread), run);
            && |s.q| <= qsize && s.arrived == s.taken + s.q + InHand(s.main) && |s.taken| <= |s.arrived|
            && s.taken == s.arrived[..|s.taken|] && s.q == s.arrived[|s.taken|..|s.taken| + |s.q|]
  {
    var s := Exec(Boot(qsize, nthread), run);
    assert s.arrived == s.taken + s.q + InHand(s.main);
  }

  /** main, holding a socket, queues it behind the others and goes back to accepting, exactly when the queue
      is not full; otherwise it waits with it. */
  lemma MainQueues(qsize: nat, nthread: nat, run: seq<Action>, woken: nat)
    requires qsize > 0 && nthread > 0
    ensures Inv(Boot(qsize, nthread))
    ensures var s := Exec(Boot(qsize, nthread), run);
            Enabled(s, Produce(woken)) ==>
              var t := Step(s, Produce(woken));
              if |s.q| < qsize then t.q == s.q + [s.main.sock] && t.main == Accepting
              else t.q == s.q && t.main == Blocked(s.main.sock)
  {
  }

  /** Worker w's own next actions take the first socket out of the queue, and if the queue was full, main
      can go on. */
  ghost predicate TakesFirst(s: Server, w: nat)
    requires w < |s.workers| && s.q != []
  {
    var r := if s.workers[w].Serving? then Step(s, Finish(w)) else s;
    && Enabled(r, Consume(w))
    && var t := Step(r, Consume(w));
       t.taken == s.taken + [s.q[0]] && t.workers[w] == Serving(s.q[0]) && !(|s.q| == s.qsize && t.main.Blocked?)
  }

  /** Signalling only at the empty and full edges cannot deadlock: a waiting main means a full queue, a
      queue with sockets means a worker that is not waiting, and such a worker takes the first socket. */
  lemma NoDeadlock(qsize: nat, nthread: nat, run: seq<Action>)
    requires qsize > 0 && nthread > 0
    ensures Inv(Boot(qsize, nthread))
    ensures var s := Exec(Boot(qsize, nthread), run);
            && (s.main.Blocked? ==> |s.q| == qsize)
            && (s.q != [] ==> exists w: nat :: w < nthread && !s.workers[w].Waiting? && TakesFirst(s, w))
  {
    var s := Exec(Boot(qsize, nthread), run);
    if s.q != [] {
      var w: nat :| w < |s.workers| && !s.workers[w].Waiting?;
      assert TakesFirst(s, w);
    }
  }

  lemma ExecNext(s: Server, a: Action, rest: seq<Action>)
    requires Inv(s) && Enabled(s, a)
    ensures Inv(Step(s, a)) && Exec(s, [a] + rest) == Exec(Step(s, a), rest)
  {
    StepKeepsInv(s, a);
    assert ([a] + rest)[1..] == rest;
  }

  // ----- when a worker idles beside a queued socket -----

  /** No worker waits beside a queued socket that no other worker is about to take. */
  ghost predicate NoIdle(s: Server) {
    (exists w: nat :: WorkerWaits(s.workers, w)) && s.q != [] ==>
      exists w: nat :: w < |s.workers| && s.workers[w].Ready?
  }

  /** With one place in the queue every push is onto an empty queue, and wakes a worker. */
  lemma OnePlaceStep(s: Server, a: Action)
    requires Inv(s) && NoIdle(s) && s.qsize == 1 && Enabled(s, a)
    ensures NoIdle(Step(s, a))
  {
    var t := Step(s, a);
    match a
    case Produce(woken) =>
      if s.q == [] && WorkerWaits(s.workers, woken) {
        assert t.workers[woken].Ready?;
      }
    case Consume(w) =>
    case Finish(w) => assert t.workers[w].Ready?;
    case Spurious(w) => assert t.workers[w].Ready?;
    case _ =>
  }

  /** With one worker, a queue that is not empty leaves nobody to wait. */
  lemma OneWorkerNoIdle(s: Server)
    requires Inv(s) && |s.workers| == 1
    ensures NoIdle(s)
  {
    if s.q != [] {
      var w: nat :| w < |s.workers| && !s.workers[w].Waiting?;
      assert w == 0;
    }
  }

  lemma {:induction false} OnePlaceRuns(s: Server, run: seq<Action>)
    requires Inv(s) && NoIdle(s) && s.qsize == 1
    ensures NoIdle(Exec(s, run))
    decreases |run|
  {
    if run != [] {
      if Enabled(s, run[0]) {
        StepKeepsInv(s, run[0]);
        OnePlaceStep(s, run[0]);
        OnePlaceRuns(Step(s, run[0]), run[1..]);
      } else {
        OnePlaceRuns(s, run[1..]);
      }
    }
  }

  /** Workers 0, ..., k-1 find the queue empty, one after the other. */
  function AllWait(k: nat): seq<Action> {
    if k == 0 then [] else AllWait(k - 1) + [Consume(k - 1)]
  }

  function WaitingUpTo(n: nat, k: nat): seq<Worker> {
    seq(n, i => if i < k then Waiting else Ready)
  }

  lemma {:induction false} ExecJoin(s: Server, r1: seq<Action>, r2: seq<Action>)
    requires Inv(s)
    ensures Exec(s, r1 + r2) == Exec(Exec(s, r1), r2)
    decreases |r1|
  {
    if r1 == [] {
      assert r1 + r2 == r2;
    } else {
      assert (r1 + r2)[0] == r1[0] && (r1 + r2)[1..] == r1[1..] + r2;
      if Enabled(s, r1[0]) {
        StepKeepsInv(s, r1[0]);
        ExecJoin(Step(s, r1[0]), r1[1..], r2);
      } else {
        ExecJoin(s, r1[1..], r2);
      }
    }
  }

  lemma ExecOne(s: Server, a: Action)
    requires Inv(s) && Enabled(s, a)
    ensures Inv(Step(s, a)) && Exec(s, [a]) == Step(s, a)
  {
    StepKeepsInv(s, a);
    assert [a][1..] == [];
  }

  lemma {:induction false} AllWaitRun(qsize: nat, nthread: nat, k: nat)
    requires qsize > 0 && nthread > 0 && k <= nthread
    ensures Inv(Boot(qsize, nthread))
    ensures Exec(Boot(qsize, nthread), AllWait(k)) == Server(qsize, [], Accepting, WaitingUpTo(nthread, k), [], [])
  {
    if k == 0 {
      assert Boot(qsize, nthread).workers == WaitingUpTo(nthread, 0);
    } else {
      AllWaitRun(qsize, nthread, k - 1);
      var s := Exec(Boot(qsize, nthread), AllWait(k - 1));
      ExecJoin(Boot(qsize, nthread), AllWait(k - 1), [Consume(k - 1)]);
      ExecOne(s, Consume(k - 1));
      assert WaitingUpTo(nthread, k - 1)[k - 1 := Waiting] == WaitingUpTo(nthread, k);
    }
  }

  /** A socket is accepted and queued; then the rest. */
  function OneSocket(rest: seq<Action>): seq<Action> {
    [Accept(0)] + ([Produce(0)] + rest)
  }

  /** Two sockets come while all workers wait: the second push finds the queue not empty and wakes
      nobody, so once the first is taken the second is queued beside waiting workers. */
  function IdlingRun(nthread: nat): seq<Action> {
    AllWait(nthread) + (OneSocket([]) + OneSocket([Consume(0)]))
  }

  lemma FirstSocketQueued(s: Server)
    requires Inv(s) && |s.workers| > 0
    requires s == Server(s.qsize, [], Accepting, WaitingUpTo(|s.workers|, |s.workers|), [], [])
    ensures Exec(s, OneSocket([])) == s.(q := [0], arrived := [0], workers := s.workers[0 := Ready])
  {
    ExecNext(s, Accept(0), [Produce(0)] + []);
    ExecNext(s.(main := Holding(0), arrived := [0]), Produce(0), []);
  }

  lemma SecondSocketQueued(s: Server)
    requires Inv(s) && s.qsize >= 2 && |s.workers| >= 2 && s.workers[0].Ready?
    requires s == Server(s.qsize, [0], Accepting, s.workers, [0], [])
    ensures Exec(s, OneSocket([Consume(0)])) ==
            Server(s.qsize, [0], Accepting, s.workers[0 := Serving(0)], [0, 0], [0])
  {
    ExecNext(s, Accept(0), [Produce(0)] + [Consume(0)]);
    ExecNext(s.(main := Holding(0), arrived := [0, 0]), Produce(0), [Consume(0)]);
    ExecOne(s.(q := [0, 0], arrived := [0, 0]), Consume(0));
  }

  lemma LeftIdle(s: Server, w: seq<Worker>)
    requires |w| >= 2 && w == WaitingUpTo(|w|, |w|) && s.workers == w[0 := Ready][0 := Serving(0)] && s.q != []
    ensures !NoIdle(s)
  {
    assert s.workers[1] == w[1] == Waiting;
    assert WorkerWaits(s.workers, 1);
  }

  lemma IdlingSteps(s: Server)
    requires Inv(s) && s.qsize >= 2 && |s.workers| >= 2
    requires s == Server(s.qsize, [], Accepting, WaitingUpTo(|s.workers|, |s.workers|), [], [])
    ensures !NoIdle(Exec(s, OneSocket([]) + OneSocket([Consume(0)])))
  {
    ExecJoin(s, OneSocket([]), OneSocket([Consume(0)]));
    FirstSocketQueued(s);
    var t := Exec(s, OneSocket([]));
    SecondSocketQueued(t);
    LeftIdle(Exec(t, OneSocket([Consume(0)])), s.workers);
  }

  /** No worker ever idles beside a queued socket, in any interleaving, exactly when the server is started
      with one place in the queue or one worker. */
  lemma NoIdleIff(qsize: nat, nthread: nat)
    requires qsize > 0 && nthread > 0
    ensures Inv(Boot(qsize, nthread))
    ensures (forall run :: NoIdle(Exec(Boot(qsize, nthread), run))) <==> qsize == 1 || nthread == 1
  {
    var s := Boot(qsize, nthread);
    if qsize == 1 || nthread == 1 {
      forall run ensures NoIdle(Exec(s, run)) {
        if nthread == 1 {
          OneWorkerNoIdle(Exec(s, run));
        } else {
          OnePlaceRuns(s, run);
        }
      }
    } else {
      AllWaitRun(qsize, nthread, nthread);
      ExecJoin(s, AllWait(nthread), OneSocket([]) + OneSocket([Consume(0)]));
      IdlingSteps(Exec(s, AllWait(nthread)));
      assert !NoIdle(Exec(s, IdlingRun(nthread)));
    }
  }

  // ----- the code between locking and unlocking -----

  class Monitor {
    const qsize: nat
    var q: seq<int>
    var main: Main
    var workers: seq<Worker>
    ghost var arrived: seq<int>
    ghost var taken: seq<int>

    ghost function S(): Server
      reads this
    {
      Server(qsize, q, main, workers, arrived, taken)
    }

    /** pthread_cond_signal(&empty): some waiting worker, if there is one, becomes ready. */
    method SignalEmpty() returns (woken: nat)
      modifies `workers
      ensures S() == Signalled(old(S()), woken)
      ensures Signals(old(workers), woken)
    {
      woken := 0;
      while woken < |workers| && !workers[woken].Waiting?
        invariant woken <= |workers| && forall w: nat :: w < woken ==> !WorkerWaits(workers, w)
      {
        woken := woken + 1;
      }
      if woken < |workers| {
        workers := workers[woken := Ready];
      }
    }

    /** enqueue. */
    method Enqueue(sockfd: int) returns (woken: nat)
      modifies `q, `workers
      ensures S() == Enqueued(old(S()), sockfd, woken)
      ensures old(q) == [] ==> Signals(old(workers), woken)
    {
      var wasEmpty := q == [];
      q := q + [sockfd];
      woken := 0;
      if wasEmpty {
        woken := SignalEmpty();
      }
    }

    /** dequeue. */
    method Dequeue() returns (sock: int)
      requires q != []
      modifies `q, `main, `taken
      ensures S() == Dequeued(old(S())) && sock == old(q[0])
    {
      var sz := |q|;
      sock := q[0];
      q := q[1..];
      taken := taken + [sock];
      if qsize != 0 && sz == qsize && main.Blocked? {
        main := Holding(main.sock);
      }
    }

    /** One turn of a worker's loop under the lock: wait, or take a socket. */
    method WorkerTurn(w: nat)
      requires Inv(S()) && Enabled(S(), Consume(w))
      modifies this
      ensures Inv(S()) && S() == Step(old(S()), Consume(w))
    {
      StepKeepsInv(S(), Consume(w));
      if q == [] {
        workers := workers[w := Waiting];
        return;
      }
      var sock := Dequeue();
      workers := workers[w := Serving(sock)];
    }

    /** One turn of main's loop under the lock: wait while the queue is full, or queue the socket. */
    method MainTurn() returns (woken: nat)
      requires Inv(S()) && main.Holding?
      modifies this
      ensures Inv(S()) && Enabled(old(S()), Produce(woken)) && S() == Step(old(S()), Produce(woken))
    {
      ghost var s := S();
      if |q| == qsize {
        main := Blocked(main.sock);
        woken := 0;
      } else {
        var sock := main.sock;
        main := Accepting;
        woken := Enqueue(sock);
      }
      StepKeepsInv(s, Produce(woken));
    }
  }
}
