/** The worker pool of include/thread_pool.h and src/thread_pool.cpp: a bounded FIFO, a stop flag, one
    mutex and one condition variable. */
module ThreadPooling {
  import opened Common

  type Task = int

  // ---- what the mutex protects ----

  datatype Queue = Queue(tasks: seq<Task>, stop: bool, maxQueueSize: int)

  datatype Taken = Sleep | Leave | Run(task: Task)

  /** (size_t)max_queue_size: a negative limit wraps around. */
  function Capacity(max: int): int {
    if max < 0 then max + 0x1_0000_0000_0000_0000 else max
  }

  predicate Accepts(q: Queue) {
    !q.stop && |q.tasks| < Capacity(q.maxQueueSize)
  }

  function Pushed(q: Queue, t: Task): Queue {
    q.(tasks := q.tasks + [t])
  }

  /** What a worker does once it holds the lock: wait if its predicate is false, leave, or pop. */
  function Take(q: Queue): (Queue, Taken) {
    if q.tasks == [] then (q, if q.stop then Leave else Sleep)
    else (q.(tasks := q.tasks[1..]), Run(q.tasks[0]))
  }

  /** The critical sections, as the code has them. */
  class ThreadPool {
    var tasks: seq<Task>
    var stop: bool
    var maxQueueSize: int

    ghost function View(): Queue
      reads this
    {
      Queue(tasks, stop, maxQueueSize)
    }

    constructor (max: int)
      ensures View() == Queue([], false, max)
    {
      tasks := [];
      stop := false;
      maxQueueSize := max;
    }

    /** ok is false where the code throws. */
    method Enqueue(t: Task) returns (ok: bool)
      modifies this`tasks
      ensures ok == Accepts(old(View()))
      ensures maxQueueSize >= 0 ==> (ok <==> !old(stop) && |old(tasks)| < maxQueueSize)
      ensures View() == if ok then Pushed(old(View()), t) else old(View())
    {
      if stop {
        return false;
      }
      var limit := if maxQueueSize < 0 then maxQueueSize + 0x1_0000_0000_0000_0000 else maxQueueSize;
      if |tasks| >= limit {
        return false;
      }
      tasks := tasks + [t];
      return true;
    }

    method Dequeue() returns (r: Taken)
      modifies this`tasks
      ensures (View(), r) == Take(old(View()))
    {
      if !(stop || |tasks| > 0) {
        return Sleep;
      }
      if stop && |tasks| == 0 {
        return Leave;
      }
      r := Run(tasks[0]);
      tasks := tasks[1..];
    }

    method Shutdown()
      modifies this`stop
      ensures View() == old(View()).(stop := true)
    {
      stop := true;
    }

    method TaskCount() returns (n: nat)
      ensures n == |View().tasks|
    {
      return |tasks|;
    }
  }

  // ---- the pool as a transition system ----

  /** Awake: about to lock the mutex and look, whether new, woken or done with a task. */
  datatype Worker = Awake | Asleep | Running(task: Task) | Exited

  /** `pending`: enqueues that have released the lock and not yet called notify_one; `stopping`: the
      destructor has set stop and not yet called notify_all. `accepted` and `started` are history. */
  datatype Pool = Pool(queue: Queue, workers: seq<Worker>, pending: nat, stopping: bool,
                       accepted: seq<Task>, started: seq<Task>)

  datatype Event =
    | Enqueue(t: Task)
    | NotifyOne(w: nat)   // wakes w
    | NotifyNobody        // nobody sleeps
    | Look(w: nat)        // lock, test the predicate, then wait, leave or pop
    | Finish(w: nat)      // the task returns or throws a std::exception
    | Spurious(w: nat)
    | SetStop
    | NotifyAll

  predicate Enabled(p: Pool, e: Event) {
    match e
    case Enqueue(_) => Accepts(p.queue)
    case NotifyOne(w) => p.pending > 0 && w < |p.workers| && p.workers[w] == Asleep
    case NotifyNobody => p.pending > 0 && Asleep !in p.workers
    case Look(w) => w < |p.workers| && p.workers[w] == Awake
    case Finish(w) => w < |p.workers| && p.workers[w].Running?
    case Spurious(w) => w < |p.workers| && p.workers[w] == Asleep
    case SetStop => !p.queue.stop
    case NotifyAll => p.stopping
  }

  function WakeAll(workers: seq<Worker>): seq<Worker> {
    seq(|workers|, i requires 0 <= i < |workers| => if workers[i] == Asleep then Awake else workers[i])
  }

  function After(p: Pool, e: Event): Pool
    requires Enabled(p, e)
  {
    match e
    case Enqueue(t) => p.(queue := Pushed(p.queue, t), pending := p.pending + 1, accepted := p.accepted + [t])
    case NotifyOne(w) => p.(pending := p.pending - 1, workers := p.workers[w := Awake])
    case NotifyNobody => p.(pending := p.pending - 1)
    case Look(w) =>
      var (q, r) := Take(p.queue);
      (match r
       case Sleep => p.(workers := p.workers[w := Asleep])
       case Leave => p.(workers := p.workers[w := Exited])
       case Run(t) => p.(queue := q, workers := p.workers[w := Running(t)], started := p.started + [t]))
    case Finish(w) => p.(workers := p.workers[w := Awake])
    case Spurious(w) => p.(workers := p.workers[w := Awake])
    case SetStop => p.(queue := p.queue.(stop := true), stopping := true)
    case NotifyAll => p.(stopping := false, workers := WakeAll(p.workers))
  }

  function Initial(threads: nat, max: int): Pool {
    Pool(Queue([], false, max), seq(threads, _ => Awake), 0, false, [], [])
  }

  ghost predicate Ran(p: Pool, events: seq<Event>, p': Pool)
    decreases |events|
  {
    if events == [] then p == p' else Enabled(p, events[0]) && Ran(After(p, events[0]), events[1..], p')
  }

  ghost function IsAwake(): Worker -> nat {
    w => if w == Awake then 1 else 0
  }

  /** Workers that are about to look at the queue. */
  ghost function Lookers(p: Pool): nat {
    SumBy(p.workers, IsAwake())
  }

  ghost predicate Inv(p: Pool) {
    && |p.queue.tasks| <= Capacity(p.queue.maxQueueSize)
    && p.accepted == p.started + p.queue.tasks
    // while anyone sleeps, every queued task has its own notify on the way or worker about to look
    && (Asleep in p.workers ==> |p.queue.tasks| <= p.pending + Lookers(p))
    && (Exited in p.workers ==> p.queue.stop && p.queue.tasks == [])
    && (p.queue.stop && !p.stopping ==> Asleep !in p.workers)
    && (p.stopping ==> p.queue.stop)
  }

  lemma UpdateMembers(workers: seq<Worker>, w: nat, x: Worker, y: Worker)
    requires w < |workers|
    ensures y in workers[w := x] ==> y == x || y in workers
    ensures x in workers[w := x]
  {
    assert workers[w := x][w] == x;
  }

  lemma InitialInv(threads: nat, max: int)
    requires Capacity(max) >= 0
    ensures Inv(Initial(threads, max))
  {
  }

  lemma StepKeepsInv(p: Pool, e: Event)
    requires Inv(p) && Enabled(p, e)
    ensures Inv(After(p, e))
  {
    var p' := After(p, e);
    if e.NotifyOne? || e.Look? || e.Finish? || e.Spurious? {
      SumByUpdate(p.workers, e.w, p'.workers[e.w], IsAwake());
      UpdateMembers(p.workers, e.w, p'.workers[e.w], Asleep);
      UpdateMembers(p.workers, e.w, p'.workers[e.w], Exited);
    }
  }

  lemma {:induction false} RunKeepsInv(p: Pool, events: seq<Event>, p': Pool)
    requires Inv(p) && Ran(p, events, p')
    ensures Inv(p') && |p'.workers| == |p.workers| && p'.queue.maxQueueSize == p.queue.maxQueueSize
    decreases |events|
  {
    if events != [] {
      StepKeepsInv(p, events[0]);
      RunKeepsInv(After(p, events[0]), events[1..], p');
    }
  }

  // ---- main theorems ----

  /** No lost wakeup: in every reachable state a non-empty queue has an awake worker or a notify on the
      way, and a worker sleeps only while there are at least as many of these as queued tasks. */
  lemma NoLostWakeup(threads: nat, max: int, events: seq<Event>, p: Pool)
    requires Capacity(max) >= 0 && Ran(Initial(threads, max), events, p)
    ensures p.queue.tasks != [] && threads > 0 ==>
              p.pending > 0 || exists w | w in p.workers :: w.Awake? || w.Running?
    ensures Asleep in p.workers ==> |p.queue.tasks| <= p.pending + Lookers(p)
  {
    InitialInv(threads, max);
    RunKeepsInv(Initial(threads, max), events, p);
    if threads > 0 {
      assert p.workers[0] in p.workers;
    }
    if Lookers(p) > 0 {
      var i := SumByWitness(p.workers, IsAwake());
      assert p.workers[i] in p.workers;
    }
  }

  /** The queue never exceeds its limit, and the started tasks followed by the queued ones are the
      accepted tasks in the order of acceptance: each is started once, in that order. */
  lemma RunsWhatItAccepts(threads: nat, max: int, events: seq<Event>, p: Pool)
    requires Capacity(max) >= 0 && Ran(Initial(threads, max), events, p)
    ensures |p.queue.tasks| <= Capacity(max)
    ensures p.accepted == p.started + p.queue.tasks
    ensures p.started <= p.accepted && |p.accepted| == |p.started| + |p.queue.tasks|
  {
    InitialInv(threads, max);
    RunKeepsInv(Initial(threads, max), events, p);
  }

  // ---- when a task is accepted ----

  /** The tasks of the enqueues that did not throw, in order. */
  function Enqueued(events: seq<Event>): seq<Task> {
    if events == [] then [] else (if events[0].Enqueue? then [events[0].t] else []) + Enqueued(events[1..])
  }

  lemma {:induction false} HistoryIsTrue(p: Pool, events: seq<Event>, p': Pool)
    requires Ran(p, events, p')
    ensures p'.accepted == p.accepted + Enqueued(events)
    ensures p'.queue.stop <==> p.queue.stop || SetStop in events
    decreases |events|
  {
    if events != [] {
      var p1 := After(p, events[0]);
      HistoryIsTrue(p1, events[1..], p');
      assert events == [events[0]] + events[1..];
      assert p1.accepted == p.accepted + if events[0].Enqueue? then [events[0].t] else [];
    }
  }

  /** An enqueue is accepted, in every reachable pool, exactly when the destructor has not set stop and
      fewer accepted tasks than the limit are still to be started. A negative limit is as good as none:
      it converts to a huge unsigned number. */
  lemma AcceptedIff(threads: nat, max: int, events: seq<Event>, p: Pool, t: Task)
    requires -0x8000_0000 <= max < 0x8000_0000 && Ran(Initial(threads, max), events, p)
    ensures p.accepted == Enqueued(events)
    ensures Enabled(p, Event.Enqueue(t)) <==>
            && SetStop !in events
            && |p.accepted| - |p.started| < if max >= 0 then max else 18446744073709551616 + max
  {
    InitialInv(threads, max);
    RunKeepsInv(Initial(threads, max), events, p);
    HistoryIsTrue(Initial(threads, max), events, p);
  }

  function Enqueues(ts: seq<Task>): seq<Event> {
    if ts == [] then [] else [Event.Enqueue(ts[0])] + Enqueues(ts[1..])
  }

  /** The tasks can be enqueued one after the other, with nothing in between. */
  ghost predicate GoIn(p: Pool, ts: seq<Task>) {
    exists p' :: Ran(p, Enqueues(ts), p')
  }

  lemma GoInStep(p: Pool, ts: seq<Task>)
    requires ts != []
    ensures GoIn(p, ts) <==> Enabled(p, Event.Enqueue(ts[0])) && GoIn(After(p, Event.Enqueue(ts[0])), ts[1..])
  {
    assert Enqueues(ts)[0] == Event.Enqueue(ts[0]) && Enqueues(ts)[1..] == Enqueues(ts[1..]);
    forall p' ensures Ran(p, Enqueues(ts), p') <==>
      Enabled(p, Event.Enqueue(ts[0])) && Ran(After(p, Event.Enqueue(ts[0])), Enqueues(ts[1..]), p')
    {
    }
  }

  lemma {:induction false} RoomFor(p: Pool, ts: seq<Task>)
    requires p.queue.maxQueueSize >= 0 && !p.queue.stop && |p.queue.tasks| <= p.queue.maxQueueSize
    ensures GoIn(p, ts) <==> |p.queue.tasks| + |ts| <= p.queue.maxQueueSize
    decreases |ts|
  {
    if ts == [] {
      assert Ran(p, Enqueues(ts), p);
    } else {
      GoInStep(p, ts);
      if Enabled(p, Event.Enqueue(ts[0])) {
        RoomFor(After(p, Event.Enqueue(ts[0])), ts[1..]);
      }
    }
  }

  /** With nothing else happening, exactly `max` enqueues in a row succeed on a new pool. */
  lemma FillsToItsLimit(threads: nat, max: int, ts: seq<Task>)
    requires max >= 0
    ensures GoIn(Initial(threads, max), ts) <==> |ts| <= max
  {
    RoomFor(Initial(threads, max), ts);
  }

  // ---- shutdown ----

  ghost predicate Draining(p: Pool) {
    p.queue.stop && !p.stopping
  }

  ghost function Work(): Worker -> nat {
    (w: Worker) => match w { case Awake => 1 case Running(_) => 2 case Asleep => 0 case Exited => 0 }
  }

  /** How many steps a draining pool still has before it. */
  ghost function Measure(p: Pool): nat {
    p.pending + 2 * |p.queue.tasks| + SumBy(p.workers, Work())
  }

  lemma DrainingStepDecreases(p: Pool, e: Event)
    requires Inv(p) && Draining(p) && Enabled(p, e)
    ensures Draining(After(p, e)) && Measure(After(p, e)) < Measure(p)
  {
    var p' := After(p, e);
    if e.Look? || e.Finish? {
      SumByUpdate(p.workers, e.w, p'.workers[e.w], Work());
    }
  }

  /** After stop and notify_all the pool takes at most Measure more steps. */
  lemma {:induction false} DrainIsBounded(p: Pool, events: seq<Event>, p': Pool)
    requires Inv(p) && Draining(p) && Ran(p, events, p')
    ensures Inv(p') && Draining(p') && |events| + Measure(p') <= Measure(p)
    ensures p'.accepted == p.accepted && |p'.workers| == |p.workers|
    decreases |events|
  {
    if events != [] {
      StepKeepsInv(p, events[0]);
      DrainingStepDecreases(p, events[0]);
      DrainIsBounded(After(p, events[0]), events[1..], p');
    }
  }

  /** A pool that can take no step has all its workers exited; it has started every task it accepted
      unless it never had a worker. */
  lemma StuckMeansDone(p: Pool)
    requires Inv(p) && Draining(p) && forall e :: !Enabled(p, e)
    ensures p.pending == 0 && forall w | w in p.workers :: w == Exited
    ensures p.workers != [] ==> p.queue.tasks == [] && p.started == p.accepted
  {
    assert !Enabled(p, NotifyNobody);
    forall i | 0 <= i < |p.workers| ensures p.workers[i] == Exited {
      assert !Enabled(p, Look(i)) && !Enabled(p, Finish(i));
      assert p.workers[i] in p.workers;
    }
    if p.workers != [] {
      assert p.workers[0] in p.workers;
    }
  }

  /** Shutdown drains: from any reachable state in which the destructor has notified everyone, nobody
      sleeps, every continuation is finite, and one that cannot go on has run every accepted task and
      let every worker exit. */
  lemma ShutdownDrains(threads: nat, max: int, before: seq<Event>, p: Pool, after: seq<Event>, p': Pool)
    requires Capacity(max) >= 0 && threads > 0
    requires Ran(Initial(threads, max), before, p) && Draining(p) && Ran(p, after, p')
    ensures Asleep !in p.workers && |after| <= Measure(p)
    ensures (forall e :: !Enabled(p', e)) ==>
              && (forall w | w in p'.workers :: w == Exited)
              && p'.queue.tasks == [] && p'.started == p.accepted
  {
    InitialInv(threads, max);
    RunKeepsInv(Initial(threads, max), before, p);
    DrainIsBounded(p, after, p');
    if forall e :: !Enabled(p', e) {
      StuckMeansDone(p');
    }
  }

  /** Without workers an accepted task is never started. */
  lemma {:induction false} NoWorkersNoWork(p: Pool, events: seq<Event>, p': Pool)
    requires p.workers == [] && Ran(p, events, p')
    ensures p'.started == p.started && p.queue.tasks <= p'.queue.tasks
    decreases |events|
  {
    if events != [] {
      NoWorkersNoWork(After(p, events[0]), events[1..], p');
    }
  }
}
