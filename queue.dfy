/** The state the acceptor and the workers share: the FIFO `clientQueue` of
    accepted sockets and the `isRunning` flag. Each step below runs while
    holding `queueMutex` (or is a single assignment), so an execution of the
    server is an arbitrary sequence of these atomic steps. */
module ConnectionQueue {
  import opened Text

  datatype Shared = Shared(queue: seq<int>, running: bool)

  /** Where a worker thread is in `threadWorker`. */
  datatype Worker =
    | AtGuard               // about to test `while (isRunning)`
    | Waiting               // inside `condition.wait` for `!clientQueue.empty() || !isRunning`
    | Serving(socket: int)  // inside `handleClient(clientSocket)`
    | Exited                // returned from `threadWorker`

  /** The acceptor's step after `accept` returned `clientSocket`: a failed accept
      (negative result) is skipped, a socket is pushed at the tail. */
  function AcceptStep(s: Shared, clientSocket: int): (s': Shared)
    ensures s'.running == s.running
    ensures clientSocket < 0 <==> s'.queue == s.queue
    ensures clientSocket >= 0 ==> |s'.queue| == |s.queue| + 1 && s'.queue[|s.queue|] == clientSocket
    ensures s'.queue[..|s.queue|] == s.queue
  {
    if clientSocket < 0 then s else Shared(s.queue + [clientSocket], s.running)
  }

  /** The destructor's `isRunning = false`. */
  function ShutdownStep(s: Shared): (s': Shared)
    ensures !s'.running && s'.queue == s.queue
  {
    Shared(s.queue, false)
  }

  /** The shared state, the worker's next position, and the socket it dequeued, if any. */
  datatype Transition = Transition(shared: Shared, worker: Worker, taken: Option<int>)

  /** One step of a worker thread. */
  function WorkerTransition(s: Shared, w: Worker): (t: Transition)
    ensures t.shared.running == s.running
    ensures t.taken.None? ==> t.shared.queue == s.queue
    ensures t.taken.Some? ==> w == Waiting && s.queue != []
                              && t.taken.value == s.queue[0] && t.shared.queue == s.queue[1..]
                              && t.worker == Serving(s.queue[0])
    // a waiting worker stays blocked exactly when the wait predicate is false
    ensures w == Waiting ==> (t.worker == Waiting <==> s.queue == [] && s.running)
    // a waiting worker dequeues whenever the queue is non-empty, even after shutdown
    ensures w == Waiting ==> (t.taken.Some? <==> s.queue != [])
    // a worker terminates only from the loop guard after shutdown, or when
    // woken after shutdown with nothing queued
    ensures w != Exited && t.worker == Exited ==>
              !s.running && (w == AtGuard || (w == Waiting && s.queue == []))
    // the loop guard: go on to wait while the flag is set, return once it is clear
    ensures w == AtGuard ==> t == Transition(s, if s.running then Waiting else Exited, None)
    // woken with the flag clear and nothing queued, the worker returns
    ensures w == Waiting && !s.running && s.queue == [] ==> t.worker == Exited
    ensures w == Exited ==> t.worker == Exited
    ensures w.Serving? ==> t.worker == AtGuard
  {
    match w
    case AtGuard =>
      if s.running then Transition(s, Waiting, None) else Transition(s, Exited, None)
    case Waiting =>
      if !(s.queue != [] || !s.running) then Transition(s, Waiting, None)
      else if !s.running && s.queue == [] then Transition(s, Exited, None)
      else Transition(Shared(s.queue[1..], s.running), Serving(s.queue[0]), Some(s.queue[0]))
    case Serving(_) => Transition(s, AtGuard, None)
    case Exited => Transition(s, Exited, None)
  }

  /** Shutting down twice is the same as shutting down once. */
  lemma ShutdownIdempotent(s: Shared)
    ensures ShutdownStep(ShutdownStep(s)) == ShutdownStep(s)
  {
  }

  // ---------------------------------------------------------------------------
  // Executions: arbitrary interleavings of the steps of the acceptor, of the
  // workers and of the shutdown.

  datatype Event =
    | Accepted(clientSocket: int)  // the acceptor's `accept` returned
    | Schedule(worker: nat)        // the worker with this index takes a step
    | Shutdown

  datatype System = System(shared: Shared, workers: seq<Worker>)

  /** A socket dequeued by a worker. */
  datatype Served = Served(worker: nat, socket: int)

  datatype Outcome = Outcome(final: System, served: seq<Served>)

  function Apply(sys: System, e: Event): (o: Outcome)
    ensures |o.final.workers| == |sys.workers|
  {
    match e
    case Accepted(c) => Outcome(System(AcceptStep(sys.shared, c), sys.workers), [])
    case Shutdown => Outcome(System(ShutdownStep(sys.shared), sys.workers), [])
    case Schedule(i) =>
      if i < |sys.workers| then
        var t := WorkerTransition(sys.shared, sys.workers[i]);
        Outcome(System(t.shared, sys.workers[i := t.worker]),
                if t.taken.Some? then [Served(i, t.taken.value)] else [])
      else Outcome(sys, [])
  }

  /** The state after the events, in order, and the sockets dequeued on the way. */
  function Run(sys: System, events: seq<Event>): (o: Outcome)
    ensures |o.final.workers| == |sys.workers|
    decreases |events|
  {
    if events == [] then Outcome(sys, [])
    else
      var first := Apply(sys, events[0]);
      var rest := Run(first.final, events[1..]);
      Outcome(rest.final, first.served + rest.served)
  }

  /** The sockets the acceptor pushed, in order of acceptance. */
  function AcceptedSockets(events: seq<Event>): seq<int>
  {
    if events == [] then [] else Pushed(events[0]) + AcceptedSockets(events[1..])
  }

  /** The socket an event pushes on the queue, if any. */
  function Pushed(e: Event): seq<int>
  {
    if e.Accepted? && e.clientSocket >= 0 then [e.clientSocket] else []
  }

  function Sockets(served: seq<Served>): seq<int>
  {
    if served == [] then [] else [served[0].socket] + Sockets(served[1..])
  }

  /** How many sockets the worker with index `i` dequeued. */
  function CountFor(i: nat, served: seq<Served>): nat
  {
    if served == [] then 0 else (if served[0].worker == i then 1 else 0) + CountFor(i, served[1..])
  }

  lemma {:induction false} SocketsAppend(a: seq<Served>, b: seq<Served>)
    ensures Sockets(a + b) == Sockets(a) + Sockets(b)
  {
    if a != [] {
      assert (a + b)[1..] == a[1..] + b;
      SocketsAppend(a[1..], b);
    } else {
      assert a + b == b;
    }
  }

  lemma {:induction false} CountForAppend(i: nat, a: seq<Served>, b: seq<Served>)
    ensures CountFor(i, a + b) == CountFor(i, a) + CountFor(i, b)
  {
    if a != [] {
      assert (a + b)[1..] == a[1..] + b;
      CountForAppend(i, a[1..], b);
    } else {
      assert a + b == b;
    }
  }

  /** The flag is still set after an execution exactly when it was set before and
      the execution contains no shutdown: nothing but the shutdown changes it, and
      nothing sets it again. */
  lemma {:induction false} RunningUntilShutdown(sys: System, events: seq<Event>)
    ensures Run(sys, events).final.shared.running <==> sys.shared.running && Shutdown !in events
    decreases |events|
  {
    if events != [] {
      var first := Apply(sys, events[0]);
      RunningUntilShutdown(first.final, events[1..]);
      assert events == [events[0]] + events[1..];
    }
  }

  lemma ApplyIsFifo(sys: System, e: Event)
    ensures Sockets(Apply(sys, e).served) + Apply(sys, e).final.shared.queue == sys.shared.queue + Pushed(e)
  {
    if e.Schedule? && e.worker < |sys.workers| {
      var t := WorkerTransition(sys.shared, sys.workers[e.worker]);
      if t.taken.Some? {
        assert sys.shared.queue == [t.taken.value] + t.shared.queue;
      }
    }
  }

  /** No socket is lost, duplicated or reordered: the sockets dequeued, in order,
      followed by those still queued, are the sockets queued at the start followed
      by those accepted. */
  lemma {:induction false} QueueIsFifo(sys: System, events: seq<Event>)
    ensures Sockets(Run(sys, events).served) + Run(sys, events).final.shared.queue
         == sys.shared.queue + AcceptedSockets(events)
    decreases |events|
  {
    if events != [] {
      var first := Apply(sys, events[0]);
      var rest := Run(first.final, events[1..]);
      QueueIsFifo(first.final, events[1..]);
      SocketsAppend(first.served, rest.served);
      ApplyIsFifo(sys, events[0]);
      Regroup(Sockets(first.served), Sockets(rest.served), rest.final.shared.queue,
              first.final.shared.queue, sys.shared.queue, Pushed(events[0]), AcceptedSockets(events[1..]));
    }
  }

  lemma Regroup<T>(done: seq<T>, later: seq<T>, left: seq<T>, mid: seq<T>, start: seq<T>, pushed: seq<T>, more: seq<T>)
    requires later + left == mid + more
    requires done + mid == start + pushed
    ensures (done + later) + left == start + (pushed + more)
  {
    calc {
      (done + later) + left;
      done + (later + left);
      done + (mid + more);
      (done + mid) + more;
      (start + pushed) + more;
    }
  }

  /** How many more sockets a worker can still dequeue once the flag is clear:
      one if it is already past the loop guard and waiting, none otherwise. */
  function Allowance(w: Worker): nat
  {
    if w == Waiting then 1 else 0
  }

  lemma ApplyAfterShutdown(sys: System, e: Event, i: nat)
    requires !sys.shared.running && i < |sys.workers|
    ensures !Apply(sys, e).final.shared.running
    ensures CountFor(i, Apply(sys, e).served) + Allowance(Apply(sys, e).final.workers[i])
         <= Allowance(sys.workers[i])
  {
  }

  /** Once the flag is clear, a worker dequeues at most one more socket before the
      loop guard lets it exit, whatever is still queued. */
  lemma {:induction false} AtMostOneAfterShutdown(sys: System, events: seq<Event>, i: nat)
    requires !sys.shared.running && i < |sys.workers|
    ensures CountFor(i, Run(sys, events).served) <= Allowance(sys.workers[i]) <= 1
    decreases |events|
  {
    if events != [] {
      var first := Apply(sys, events[0]);
      var rest := Run(first.final, events[1..]);
      ApplyAfterShutdown(sys, events[0], i);
      AtMostOneAfterShutdown(first.final, events[1..], i);
      CountForAppend(i, first.served, rest.served);
    }
  }

  /** While the flag stays set, no worker exits. */
  lemma {:induction false} NoExitWhileRunning(sys: System, events: seq<Event>, i: nat)
    requires sys.shared.running && Shutdown !in events
    requires i < |sys.workers| && sys.workers[i] != Exited
    ensures Run(sys, events).final.workers[i] != Exited
    decreases |events|
  {
    if events != [] {
      var first := Apply(sys, events[0]);
      assert events == [events[0]] + events[1..];
      NoExitWhileRunning(first.final, events[1..], i);
    }
  }

  /** Shutdown does not drain the queue: a waiting worker takes one socket after
      the flag is cleared, then exits at the loop guard, leaving the other queued. */
  lemma ShutdownMayLeaveQueued()
    ensures Run(System(Shared([5, 6], true), [Waiting]), [Shutdown, Schedule(0), Schedule(0), Schedule(0)])
         == Outcome(System(Shared([6], false), [Exited]), [Served(0, 5)])
  {
  }

  // ---------------------------------------------------------------------------
  // The server object's shared fields and the steps that update them in place.

  class Server {
    var clientQueue: seq<int>
    var isRunning: bool

    function State(): Shared
      reads this
    {
      Shared(clientQueue, isRunning)
    }

    /** `Server(port, threadPoolSize)`: running, with an empty queue. */
    constructor ()
      ensures clientQueue == [] && isRunning
    {
      clientQueue := [];
      isRunning := true;
    }

    /** The body of the acceptor loop in `start`, after `accept` returned `clientSocket`. */
    method Accept(clientSocket: int)
      modifies this
      ensures State() == AcceptStep(old(State()), clientSocket)
      ensures isRunning == old(isRunning)
      ensures clientSocket < 0 ==> clientQueue == old(clientQueue)
      ensures clientSocket >= 0 ==> clientQueue == old(clientQueue) + [clientSocket]
    {
      if clientSocket < 0 {
        return;
      }
      clientQueue := clientQueue + [clientSocket];
    }

    /** One step of `threadWorker` for a worker at `w`. */
    method Step(w: Worker) returns (next: Worker, taken: Option<int>)
      modifies this
      ensures Transition(State(), next, taken) == WorkerTransition(old(State()), w)
      ensures isRunning == old(isRunning)
    {
      next, taken := w, None;
      match w {
        case AtGuard =>
          next := if isRunning then Waiting else Exited;
        case Waiting =>
          if clientQueue != [] || !isRunning {
            if !isRunning && clientQueue == [] {
              next := Exited;
            } else {
              var clientSocket := clientQueue[0];
              clientQueue := clientQueue[1..];
              next, taken := Serving(clientSocket), Some(clientSocket);
            }
          }
        case Serving(_) =>
          next := AtGuard;
        case Exited =>
      }
    }

    /** `~Server`: clear the flag; nothing else changes. */
    method Shutdown()
      modifies this
      ensures State() == ShutdownStep(old(State()))
      ensures !isRunning && clientQueue == old(clientQueue)
    {
      isRunning := false;
    }
  }
}
