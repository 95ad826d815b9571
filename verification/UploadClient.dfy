/** One attempt of the browser client to upload a large file (uploadLargeFile in static/app.js): up to
    three asynchronous workers over a shared queue. JavaScript runs one worker at a time between
    awaits, so a step is a worker's code from one await to the next. */
module UploadClient {
  import opened Common

  const CHUNK_CONCURRENCY: nat := 3

  /** Looping: at the head of the while loop; Threw: its promise was rejected. */
  datatype Worker = Looping | Sending(index: int) | Finished | Threw

  /** `already`, `acked`, `failed` and `sent` record the history the code does not keep. */
  datatype Attempt = Attempt(file: seq<byte>, uploadId: string, total: nat, queue: seq<int>, workers: seq<Worker>,
                             uploaded: int, already: set<int>, acked: set<int>, failed: set<int>, sent: seq<int>)

  /** Array.from({length: n}, (_, i) => i).filter(i => !completed.has(i)). */
  function Remaining(n: nat, completed: set<int>): seq<int> {
    if n == 0 then [] else Remaining(n - 1, completed) + if n - 1 in completed then [] else [n - 1]
  }

  function WorkerCount(queued: nat): nat {
    var wanted := if queued == 0 then 1 else queued;
    if wanted < CHUNK_CONCURRENCY then wanted else CHUNK_CONCURRENCY
  }

  function Start(file: seq<byte>, uploadId: string, total: nat, completed: set<int>): Attempt {
    var queue := Remaining(total, completed);
    Attempt(file, uploadId, total, queue, seq(WorkerCount(|queue|), _ => Looping), |completed|, completed, {}, {}, [])
  }

  datatype Event = Next(w: nat) | Answer(w: nat, ok: bool)

  predicate Enabled(a: Attempt, e: Event) {
    && e.w < |a.workers|
    && match e
       case Next(w) => a.workers[w].Looping?
       case Answer(w, _) => a.workers[w].Sending?
  }

  /** Next: chunkQueue.shift() and start the request, or leave the loop. Answer: the request was
      acknowledged, or it failed in any way and the worker throws. The other workers go on. */
  function Advance(a: Attempt, e: Event): Attempt
    requires Enabled(a, e)
  {
    match e
    case Next(w) =>
      if a.queue == [] then a.(workers := a.workers[w := Finished])
      else a.(workers := a.workers[w := Sending(a.queue[0])], queue := a.queue[1..], sent := a.sent + [a.queue[0]])
    case Answer(w, ok) =>
      var i := a.workers[w].index;
      if ok then a.(workers := a.workers[w := Looping], uploaded := a.uploaded + 1, acked := a.acked + {i})
      else a.(workers := a.workers[w := Threw], failed := a.failed + {i})
  }

  // ---- the partition ----

  function One(b: bool): nat {
    if b then 1 else 0
  }

  ghost function Carries(i: int): Worker -> nat {
    w => One(w == Sending(i))
  }

  /** How many workers have chunk i in flight. */
  ghost function Flying(workers: seq<Worker>, i: int): nat {
    SumBy(workers, Carries(i))
  }

  /** In how many places chunk i is: already on the server, queued, in flight, acknowledged, failed. */
  ghost function Places(a: Attempt, i: int): nat {
    One(i in a.already) + multiset(a.queue)[i] + Flying(a.workers, i) + One(i in a.acked) + One(i in a.failed)
  }

  /** The five places partition [0, total), and what was sent is what is in the last three. */
  ghost predicate Partitioned(a: Attempt) {
    && (forall i :: Places(a, i) == One(0 <= i < a.total))
    && (forall i :: multiset(a.sent)[i] == Flying(a.workers, i) + One(i in a.acked) + One(i in a.failed))
    && a.uploaded == |a.already| + |a.acked|
  }

  /** A worker leaves the loop only when the queue is empty, and a failure leaves a rejected worker. */
  ghost predicate Tidy(a: Attempt) {
    && a.workers != []
    && (Finished in a.workers ==> a.queue == [])
    && (a.failed != {} ==> Threw in a.workers)
  }

  lemma {:induction false} RemainingCounts(n: nat, completed: set<int>, i: int)
    ensures multiset(Remaining(n, completed))[i] == One(0 <= i < n && i !in completed)
  {
    if n > 0 {
      RemainingCounts(n - 1, completed, i);
    }
  }

  /** The queue is in ascending order, as filter leaves it. */
  lemma {:induction false} RemainingAscends(n: nat, completed: set<int>)
    ensures forall i, j | 0 <= i < j < |Remaining(n, completed)| :: Remaining(n, completed)[i] < Remaining(n, completed)[j]
    ensures forall i | 0 <= i < |Remaining(n, completed)| :: Remaining(n, completed)[i] < n
  {
    if n > 0 {
      RemainingAscends(n - 1, completed);
    }
  }

  lemma {:induction false} IdleCarryNothing(workers: seq<Worker>, i: int)
    requires forall w | w in workers :: !w.Sending?
    ensures Flying(workers, i) == 0
  {
    if workers != [] {
      assert workers[0] in workers;
      IdleCarryNothing(workers[1..], i);
    }
  }

  lemma StartPartitions(file: seq<byte>, uploadId: string, total: nat, completed: set<int>)
    requires completed <= Below(total)
    ensures Partitioned(Start(file, uploadId, total, completed)) && Tidy(Start(file, uploadId, total, completed))
  {
    var a := Start(file, uploadId, total, completed);
    forall i
      ensures Places(a, i) == One(0 <= i < a.total)
      ensures multiset(a.sent)[i] == Flying(a.workers, i) + One(i in a.acked) + One(i in a.failed)
    {
      StartPlaces(file, uploadId, total, completed, i);
    }
  }

  lemma StartPlaces(file: seq<byte>, uploadId: string, total: nat, completed: set<int>, i: int)
    requires completed <= Below(total)
    ensures var a := Start(file, uploadId, total, completed);
            Places(a, i) == One(0 <= i < total) && multiset(a.sent)[i] == 0 && Flying(a.workers, i) == 0
  {
    RemainingCounts(total, completed, i);
    IdleCarryNothing(Start(file, uploadId, total, completed).workers, i);
  }

  /** A piece in flight is in no other place. */
  lemma FlyingIsNowhereElse(a: Attempt, w: nat)
    requires Partitioned(a) && w < |a.workers| && a.workers[w].Sending?
    ensures a.workers[w].index in Below(a.total)
    ensures a.workers[w].index !in a.acked && a.workers[w].index !in a.failed && a.workers[w].index !in a.already
  {
    var i := a.workers[w].index;
    SumByElement(a.workers, w, Carries(i));
    assert Places(a, i) == One(0 <= i < a.total);
  }

  lemma AdvanceMovesOnePiece(a: Attempt, e: Event, i: int)
    requires Partitioned(a) && Enabled(a, e)
    ensures Places(Advance(a, e), i) == Places(a, i)
    ensures multiset(Advance(a, e).sent)[i] - multiset(a.sent)[i] ==
            Flying(Advance(a, e).workers, i) + One(i in Advance(a, e).acked) + One(i in Advance(a, e).failed)
            - Flying(a.workers, i) - One(i in a.acked) - One(i in a.failed)
  {
    var a' := Advance(a, e);
    SumByUpdate(a.workers, e.w, a'.workers[e.w], Carries(i));
    match e
    case Next(w) =>
      if a.queue != [] {
        assert a.queue == [a.queue[0]] + a.queue[1..];
      }
    case Answer(w, ok) => FlyingIsNowhereElse(a, w);
  }

  lemma AdvanceKeepsPartition(a: Attempt, e: Event)
    requires Partitioned(a) && Enabled(a, e)
    ensures Partitioned(Advance(a, e))
  {
    var a' := Advance(a, e);
    forall i
      ensures Places(a', i) == One(0 <= i < a'.total)
      ensures multiset(a'.sent)[i] == Flying(a'.workers, i) + One(i in a'.acked) + One(i in a'.failed)
    {
      AdvanceMovesOnePiece(a, e, i);
      assert Places(a, i) == One(0 <= i < a.total);
    }
    if e.Answer? {
      FlyingIsNowhereElse(a, e.w);
    }
  }

  lemma AdvanceKeepsTidy(a: Attempt, e: Event)
    requires Tidy(a) && Enabled(a, e)
    ensures Tidy(Advance(a, e))
  {
    var a' := Advance(a, e);
    assert a'.workers[e.w] in a'.workers;
    if Threw in a.workers {
      var j :| 0 <= j < |a.workers| && a.workers[j] == Threw;
      assert a'.workers[j] == Threw;
    }
    if Finished in a'.workers && a'.workers[e.w] != Finished {
      var j :| 0 <= j < |a'.workers| && a'.workers[j] == Finished;
      assert a.workers[j] == Finished;
    }
  }

  lemma PartitionedSendsOnce(a: Attempt, j: nat, k: nat)
    requires Partitioned(a) && j < k < |a.sent|
    ensures a.sent[j] != a.sent[k]
  {
    var i := a.sent[j];
    assert Places(a, i) <= 1;
    assert a.sent == a.sent[..k] + [a.sent[k]] + a.sent[k + 1..];
    assert i == a.sent[..k][j];
  }

  ghost predicate NothingOutstanding(a: Attempt) {
    a.queue == [] && (forall w | w in a.workers :: !w.Sending?) && a.failed == {}
  }

  lemma PartitionedCounts(a: Attempt)
    requires Partitioned(a)
    ensures a.uploaded <= a.total
    ensures a.uploaded == a.total <==> a.already + a.acked == Below(a.total)
    ensures a.uploaded == a.total <==> NothingOutstanding(a)
  {
    var done := a.already + a.acked;
    forall i ensures i in done ==> i in Below(a.total) && !(i in a.already && i in a.acked) {
      assert Places(a, i) == One(0 <= i < a.total);
    }
    assert |done| == |a.already| + |a.acked|;
    FullCount(done, a.total);
    if done == Below(a.total) {
      DoneLeavesNothing(a);
    }
    if NothingOutstanding(a) {
      forall i | i in Below(a.total) ensures i in done {
        IdleCarryNothing(a.workers, i);
        assert Places(a, i) == One(0 <= i < a.total);
      }
    }
  }

  lemma DoneIsNowhereElse(a: Attempt, i: int)
    requires Partitioned(a) && a.already + a.acked == Below(a.total)
    ensures i !in a.queue && i !in a.failed && Flying(a.workers, i) == 0
  {
    assert Places(a, i) == One(0 <= i < a.total);
    assert i in a.already + a.acked <==> 0 <= i < a.total;
  }

  lemma DoneLeavesNothing(a: Attempt)
    requires Partitioned(a) && a.already + a.acked == Below(a.total)
    ensures NothingOutstanding(a)
  {
    if a.queue != [] {
      DoneIsNowhereElse(a, a.queue[0]);
    }
    forall k | 0 <= k < |a.workers| ensures !a.workers[k].Sending? {
      if a.workers[k].Sending? {
        SumByElement(a.workers, k, Carries(a.workers[k].index));
        DoneIsNowhereElse(a, a.workers[k].index);
      }
    }
    forall i ensures i !in a.failed {
      DoneIsNowhereElse(a, i);
    }
  }

  ghost predicate AllFinished(a: Attempt) {
    forall w | w in a.workers :: w == Finished
  }

  lemma FinishedHasAll(a: Attempt)
    requires Partitioned(a) && Tidy(a) && AllFinished(a)
    ensures a.uploaded == a.total && a.already + a.acked == Below(a.total)
  {
    assert a.workers[0] in a.workers;
    PartitionedCounts(a);
  }

  ghost predicate Ran(a: Attempt, events: seq<Event>, b: Attempt)
    decreases |events|
  {
    if events == [] then a == b else Enabled(a, events[0]) && Ran(Advance(a, events[0]), events[1..], b)
  }

  ghost function InHand(): Worker -> nat {
    (w: Worker) => if w.Sending? then 1 else 0
  }

  lemma {:induction false} NoMoreThanWorkers(workers: seq<Worker>)
    ensures SumBy(workers, InHand()) <= |workers|
  {
    if workers != [] {
      NoMoreThanWorkers(workers[1..]);
    }
  }

  lemma {:induction false} WorkersBoundFlights(a: Attempt, events: seq<Event>, b: Attempt)
    requires Ran(a, events, b)
    ensures SumBy(b.workers, InHand()) <= |a.workers|
    decreases |events|
  {
    if events == [] {
      NoMoreThanWorkers(b.workers);
    } else {
      WorkersBoundFlights(Advance(a, events[0]), events[1..], b);
    }
  }

  /** At no moment of any interleaving are more than three requests of an attempt in flight. */
  lemma AtMostThreeInFlight(file: seq<byte>, uploadId: string, total: nat, completed: set<int>, events: seq<Event>, b: Attempt)
    requires Ran(Start(file, uploadId, total, completed), events, b)
    ensures SumBy(b.workers, InHand()) <= 3
  {
    WorkersBoundFlights(Start(file, uploadId, total, completed), events, b);
  }

  /** Both invariants hold in every interleaving of the workers. */
  lemma {:induction false} EveryInterleavingKeepsPartition(a: Attempt, events: seq<Event>, b: Attempt)
    requires Partitioned(a) && Tidy(a) && Ran(a, events, b)
    ensures Partitioned(b) && Tidy(b) && b.total == a.total && b.already == a.already
    decreases |events|
  {
    if events != [] {
      AdvanceKeepsPartition(a, events[0]);
      AdvanceKeepsTidy(a, events[0]);
      EveryInterleavingKeepsPartition(Advance(a, events[0]), events[1..], b);
    }
  }

  // ---- over every run of an attempt ----

  lemma AttemptIsPartitioned(file: seq<byte>, uploadId: string, total: nat, completed: set<int>, events: seq<Event>, b: Attempt)
    requires completed <= Below(total) && Ran(Start(file, uploadId, total, completed), events, b)
    ensures Partitioned(b) && Tidy(b) && b.total == total && b.already == completed
  {
    StartPartitions(file, uploadId, total, completed);
    EveryInterleavingKeepsPartition(Start(file, uploadId, total, completed), events, b);
  }

  /** No index is sent twice in one attempt. */
  lemma NothingSentTwice(file: seq<byte>, uploadId: string, total: nat, completed: set<int>, events: seq<Event>, b: Attempt,
                         j: nat, k: nat)
    requires completed <= Below(total) && Ran(Start(file, uploadId, total, completed), events, b)
    requires j < k < |b.sent|
    ensures b.sent[j] != b.sent[k] && b.sent[j] in Below(total) - completed
  {
    AttemptIsPartitioned(file, uploadId, total, completed, events, b);
    PartitionedSendsOnce(b, j, k);
    assert Places(b, b.sent[j]) == One(0 <= b.sent[j] < total);
    assert multiset(b.sent)[b.sent[j]] >= 1;
  }

  /** At every moment of an attempt uploadedChunks is the total exactly when every index was on the
      server or acknowledged, and exactly when nothing is queued, in flight or failed. */
  lemma UploadedCountsExactly(file: seq<byte>, uploadId: string, total: nat, completed: set<int>, events: seq<Event>, b: Attempt)
    requires completed <= Below(total) && Ran(Start(file, uploadId, total, completed), events, b)
    ensures b.uploaded <= total
    ensures b.uploaded == total <==> completed + b.acked == Below(total)
    ensures b.uploaded == total <==> NothingOutstanding(b)
  {
    AttemptIsPartitioned(file, uploadId, total, completed, events, b);
    PartitionedCounts(b);
  }

  // ---- an attempt ends ----

  /** Steps that a worker can take on its own, on top of two for every queued index. */
  ghost function Steps(): Worker -> nat {
    (w: Worker) => match w case Looping => 1 case Sending(_) => 2 case _ => 0
  }

  ghost function Ahead(a: Attempt): nat {
    2 * |a.queue| + SumBy(a.workers, Steps())
  }

  lemma AdvanceGetsAhead(a: Attempt, e: Event)
    requires Enabled(a, e)
    ensures Ahead(Advance(a, e)) == Ahead(a) - if e.Answer? && !e.ok then 2 else 1
  {
    var a' := Advance(a, e);
    SumByUpdate(a.workers, e.w, a'.workers[e.w], Steps());
  }

  ghost predicate NoFailure(events: seq<Event>) {
    forall i | 0 <= i < |events| && events[i].Answer? :: events[i].ok
  }

  lemma {:induction false} RunsAreBounded(a: Attempt, events: seq<Event>, b: Attempt)
    requires Ran(a, events, b)
    ensures |events| + Ahead(b) <= Ahead(a)
    ensures |events| + Ahead(b) == Ahead(a) <==> NoFailure(events)
    ensures |a.workers| == |b.workers|
    ensures Threw in b.workers <==> Threw in a.workers || !NoFailure(events)
    decreases |events|
  {
    if events != [] {
      var e := events[0];
      var a' := Advance(a, e);
      AdvanceGetsAhead(a, e);
      RunsAreBounded(a', events[1..], b);
      assert NoFailure(events) <==> (e.Answer? ==> e.ok) && NoFailure(events[1..]);
      AdvanceThrows(a, e);
    }
  }

  lemma AdvanceThrows(a: Attempt, e: Event)
    requires Enabled(a, e)
    ensures Threw in Advance(a, e).workers <==> Threw in a.workers || (e.Answer? && !e.ok)
  {
    var a' := Advance(a, e);
    assert a'.workers[e.w] in a'.workers;
    if Threw in a.workers {
      var j :| 0 <= j < |a.workers| && a.workers[j] == Threw;
      assert a'.workers[j] == Threw;
    }
  }

  lemma {:induction false} AllAtTheHead(n: nat)
    ensures SumBy(seq(n, _ => Looping), Steps()) == n
  {
    if n > 0 {
      assert seq(n, _ => Looping)[1..] == seq(n - 1, _ => Looping);
      AllAtTheHead(n - 1);
    }
  }

  /** Every attempt ends: it takes at most two steps for each index it has to send and one for each
      worker. Once no step is left, all workers finished exactly when no request failed, and then every
      chunk is on the server as far as the client was told: Promise.all resolves exactly in this case. */
  lemma EveryAttemptEnds(file: seq<byte>, uploadId: string, total: nat, completed: set<int>, events: seq<Event>, b: Attempt)
    requires completed <= Below(total) && Ran(Start(file, uploadId, total, completed), events, b)
    ensures var queued := |Remaining(total, completed)|;
            |events| <= 2 * queued + WorkerCount(queued)
    ensures (forall e :: !Enabled(b, e)) ==> (AllFinished(b) <==> NoFailure(events))
    ensures AllFinished(b) ==> b.uploaded == total && completed + b.acked == Below(total)
  {
    var a := Start(file, uploadId, total, completed);
    StartIsAhead(file, uploadId, total, completed);
    RunsAreBounded(a, events, b);
    AttemptIsPartitioned(file, uploadId, total, completed, events, b);
    if AllFinished(b) {
      FinishedHasAll(b);
    }
    if forall e :: !Enabled(b, e) {
      NoStepLeft(b);
    }
  }

  lemma StartIsAhead(file: seq<byte>, uploadId: string, total: nat, completed: set<int>)
    ensures var a := Start(file, uploadId, total, completed);
            Ahead(a) == 2 * |a.queue| + WorkerCount(|a.queue|) && Threw !in a.workers
  {
    var a := Start(file, uploadId, total, completed);
    AllAtTheHead(|a.workers|);
    assert a.workers == seq(|a.workers|, _ => Looping);
  }

  lemma NoStepLeft(b: Attempt)
    requires forall e :: !Enabled(b, e)
    ensures AllFinished(b) <==> Threw !in b.workers
  {
    forall w | w in b.workers ensures w.Finished? || w.Threw? {
      var i :| 0 <= i < |b.workers| && b.workers[i] == w;
      assert !Enabled(b, Next(i)) && !Enabled(b, Answer(i, true));
    }
  }

  // ---- order and concurrency ----

  lemma {:induction false} QueueIsTakenInOrder(a: Attempt, events: seq<Event>, b: Attempt)
    requires Ran(a, events, b)
    ensures b.sent + b.queue == a.sent + a.queue
    decreases |events|
  {
    if events != [] {
      var a1 := Advance(a, events[0]);
      assert a1.sent + a1.queue == a.sent + a.queue;
      QueueIsTakenInOrder(a1, events[1..], b);
    }
  }

  /** The missing chunks are sent in ascending order: what was sent, and then what is queued, is the list
      of indices that were not complete at the start. */
  lemma SentInOrder(file: seq<byte>, uploadId: string, total: nat, completed: set<int>, events: seq<Event>, b: Attempt)
    requires Ran(Start(file, uploadId, total, completed), events, b)
    ensures b.sent + b.queue == Remaining(total, completed)
    ensures forall i, j | 0 <= i < j < |b.sent| :: b.sent[i] < b.sent[j]
    ensures forall i :: i in b.sent + b.queue <==> 0 <= i < total && i !in completed
  {
    QueueIsTakenInOrder(Start(file, uploadId, total, completed), events, b);
    assert [] + Remaining(total, completed) == Remaining(total, completed);
    RemainingCovers(total, completed);
    RemainingAscends(total, completed);
    PrefixAscends(b.sent, b.queue);
  }

  lemma {:induction false} RemainingCovers(n: nat, completed: set<int>)
    ensures forall i :: i in Remaining(n, completed) <==> 0 <= i < n && i !in completed
  {
    if n > 0 {
      RemainingCovers(n - 1, completed);
    }
  }

  lemma PrefixAscends(a: seq<int>, b: seq<int>)
    requires forall i, j | 0 <= i < j < |a + b| :: (a + b)[i] < (a + b)[j]
    ensures forall i, j | 0 <= i < j < |a| :: a[i] < a[j]
  {
    forall i, j | 0 <= i < j < |a| ensures a[i] < a[j] {
      assert (a + b)[i] == a[i] && (a + b)[j] == a[j];
    }
  }

  ghost predicate BusyUpTo(a: Attempt, k: nat) {
    && k <= |a.workers| && |a.workers| - k <= |a.queue|
    && (forall j | 0 <= j < k :: a.workers[j].Sending?) && (forall j | k <= j < |a.workers| :: a.workers[j].Looping?)
  }

  lemma {:induction false} AllGetBusy(a: Attempt, k: nat) returns (events: seq<Event>, b: Attempt)
    requires BusyUpTo(a, k)
    ensures Ran(a, events, b) && |b.workers| == |a.workers| && forall w | w in b.workers :: w.Sending?
    decreases |a.workers| - k
  {
    if k == |a.workers| {
      return [], a;
    }
    var rest;
    rest, b := AllGetBusy(Advance(a, Next(k)), k + 1);
    events := [Next(k)] + rest;
    assert events[1..] == rest;
  }

  lemma {:induction false} AllInHand(workers: seq<Worker>)
    requires forall w | w in workers :: w.Sending?
    ensures SumBy(workers, InHand()) == |workers|
  {
    if workers != [] {
      assert workers[0] in workers;
      AllInHand(workers[1..]);
    }
  }

  /** The bound of three is reached: an attempt with three or more missing chunks can have three requests
      in flight at once, one with fewer as many as it has chunks to send. */
  lemma ThreeCanBeInFlight(file: seq<byte>, uploadId: string, total: nat, completed: set<int>)
      returns (events: seq<Event>, b: Attempt)
    requires completed <= Below(total)
    ensures Ran(Start(file, uploadId, total, completed), events, b)
    ensures var missing := |Remaining(total, completed)|;
            SumBy(b.workers, InHand()) == if missing < 3 then missing else 3
  {
    var a := Start(file, uploadId, total, completed);
    if a.queue == [] {
      events, b := [], a;
      assert b.workers == [Looping];
      assert b.workers[1..] == [];
      return;
    }
    events, b := AllGetBusy(a, 0);
    AllInHand(b.workers);
  }
}
