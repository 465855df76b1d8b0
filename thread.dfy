/**
 * The two-stage thread pool of `src/thread.rs`: workers run submitted jobs,
 * each job forwards its `JobResult` to a second pool of watchers, and
 * dropping the pool stops and joins the workers first, then the watchers.
 *
 * Threads, locks and blocking are not modelled. The state a thread keeps is
 * whether it is still inside its receive loop (`Channel.running`) and, for a
 * worker, the job it has taken and not yet run (`ThreadPool.inFlight`). A step
 * is one `recv`, or one run of a job taken; which thread steps next is up to
 * the schedule the caller gives.
 */
module Thread {
  import opened Wrappers
  import opened Mpsc

  /** What a job hands to the watchers (`JobResult::new(request, response)`). */
  datatype JobResult = JobResult(request: string, response: string)

  /** A boxed one-shot callback (`F: FnOnce() -> JobResult`). */
  datatype Job = Job(callback: () -> JobResult)

  /** `Message`: `NewJob(job)` is `New(job)`, and `Terminate`. */
  type Message = Envelope<Job>

  /** `WatcherMessage`: `NewJobResult(result)` is `New(result)`, and `Terminate`. */
  type WatcherMessage = Envelope<JobResult>

  /** The handle `thread::spawn` returned for the thread numbered `thread`. */
  datatype JoinHandle = JoinHandle(thread: nat)

  datatype Worker = Worker(id: nat, thread: Option<JoinHandle>)

  datatype Watcher = Watcher(id: nat, thread: Option<JoinHandle>)

  /** The observable steps of the shutdown sequence in `drop`. */
  datatype Side = Workers | Watchers
  datatype ShutdownStep = TerminateSent(side: Side) | Joined(side: Side, id: nat)

  /** A turn of the scheduler: one iteration of the loop of thread `id` on `side`. */
  datatype Turn = Turn(side: Side, id: nat)

  /** What one turn of a worker did: nothing (it blocks or has left), take a message, or run its job. */
  datatype WorkerAction = Idle | Took(message: Message) | Ran(job: Job)

  /** `Worker::new(id, receiver)`: spawn a thread on the shared receiver and keep its handle. */
  function NewWorker(id: nat, receiver: Channel<Job>): (r: (Worker, Channel<Job>))
    ensures r.0.id == id && r.0.thread.Some?
    ensures Serving(receiver, id) ==> Serving(r.1, id + 1)
  {
    (Worker(id, Some(JoinHandle(id))), Spawn(receiver, id))
  }

  /** `Watcher::new(id, receiver)`, likewise. */
  function NewWatcher(id: nat, receiver: Channel<JobResult>): (r: (Watcher, Channel<JobResult>))
    ensures r.0.id == id && r.0.thread.Some?
    ensures Serving(receiver, id) ==> Serving(r.1, id + 1)
  {
    (Watcher(id, Some(JoinHandle(id))), Spawn(receiver, id))
  }

  /**
   * Running the wrapper `execute` boxes (`call_box`): call the callback once
   * and send its result to the watchers; a failed send is ignored.
   */
  function CallBox(job: Job, results: Channel<JobResult>): (r: Channel<JobResult>)
    ensures r.running == results.running && r.received == results.received
    ensures Connected(results) ==> r.queue == results.queue + [New(job.callback())]
    ensures Connected(results) ==> r.sent == results.sent + [New(job.callback())]
    ensures !Connected(results) ==> r == results
  {
    Send(results, New(job.callback()))
  }

  /** The results forwarded by running, in order, the jobs among `ms`. */
  ghost function ResultsOf(ms: seq<Message>): seq<WatcherMessage>
  {
    if |ms| == 0 then []
    else ResultsOf(ms[..|ms| - 1]) + (if ms[|ms| - 1].New? then [New(ms[|ms| - 1].payload.callback())] else [])
  }

  lemma ResultsOfAppend(ms: seq<Message>, m: Message)
    ensures ResultsOf(ms + [m]) == ResultsOf(ms) + (if m.New? then [New(m.payload.callback())] else [])
  {
    assert (ms + [m])[..|ms|] == ms;
  }

  /** `Terminate`s forward nothing. */
  lemma {:induction false} ResultsOfTerminates(ms: seq<Message>, n: nat)
    ensures ResultsOf(ms + Terminates(n)) == ResultsOf(ms)
  {
    if n == 0 {
      assert ms + Terminates(0) == ms;
    } else {
      ResultsOfTerminates(ms, n - 1);
      assert Terminates<Job>(n - 1) + [Terminate] == Terminates(n);
      assert ms + Terminates(n) == (ms + Terminates(n - 1)) + [Terminate];
      ResultsOfAppend(ms + Terminates(n - 1), Terminate);
    }
  }

  /** Jobs whose callbacks return `rs`, in order, forward exactly `rs`, in order. */
  lemma {:induction false} ResultsOfJobs(ms: seq<Message>, rs: seq<JobResult>)
    requires |ms| == |rs|
    requires forall i :: 0 <= i < |ms| ==> ms[i].New? && ms[i].payload.callback() == rs[i]
    ensures |ResultsOf(ms)| == |rs|
    ensures forall i :: 0 <= i < |rs| ==> ResultsOf(ms)[i] == New(rs[i])
  {
    if |ms| > 0 {
      var k := |ms| - 1;
      ResultsOfJobs(ms[..k], rs[..k]);
    }
  }

  ghost function Repeat<T>(x: T, n: nat): (s: seq<T>)
    ensures |s| == n && forall i :: 0 <= i < n ==> s[i] == x
  {
    seq(n, _ => x)
  }

  /** Joining the handles of `side` once each, by id. */
  ghost function JoinAll(side: Side, n: nat): (s: seq<ShutdownStep>)
    ensures |s| == n && forall i :: 0 <= i < n ==> s[i] == Joined(side, i)
  {
    seq(n, i requires 0 <= i < n => Joined(side, i))
  }

  lemma JoinAllNext(side: Side, i: nat)
    ensures JoinAll(side, i) + [Joined(side, i)] == JoinAll(side, i + 1)
  {
    assert JoinAll(side, i) + [Joined(side, i)] == JoinAll(side, i + 1);
  }

  lemma RepeatNext<T>(x: T, i: nat)
    ensures Repeat(x, i) + [x] == Repeat(x, i + 1)
  {
    assert Repeat(x, i) + [x] == Repeat(x, i + 1);
  }

  /** The whole shutdown sequence of a pool with `n` workers and `m` watchers. */
  ghost function ShutdownTrace(n: nat, m: nat): seq<ShutdownStep>
  {
    Repeat(TerminateSent(Workers), n) + JoinAll(Workers, n) + Repeat(TerminateSent(Watchers), m) + JoinAll(Watchers, m)
  }

  /** Step `i` of the shutdown sequence, by position. */
  lemma ShutdownAt(n: nat, m: nat, i: nat)
    requires i < 2 * n + 2 * m
    ensures |ShutdownTrace(n, m)| == 2 * n + 2 * m
    ensures ShutdownTrace(n, m)[i] ==
              if i < n then TerminateSent(Workers)
              else if i < 2 * n then Joined(Workers, i - n)
              else if i < 2 * n + m then TerminateSent(Watchers)
              else Joined(Watchers, i - 2 * n - m)
  {
    var a, b := Repeat(TerminateSent(Workers), n), JoinAll(Workers, n);
    var c, d := Repeat(TerminateSent(Watchers), m), JoinAll(Watchers, m);
    assert ShutdownTrace(n, m) == a + b + c + d;
    if i < 2 * n + m {
      assert ShutdownTrace(n, m)[i] == (a + b + c)[i];
      if i < 2 * n {
        assert (a + b + c)[i] == (a + b)[i];
      }
    }
  }

  /**
   * The order `drop` stops the pool in: every step on the workers comes
   * before any step on the watchers; on each side every `Terminate` is sent
   * before the first join; and each worker and each watcher is joined exactly
   * once.
   */
  lemma ShutdownOrder(n: nat, m: nat)
    ensures var t := ShutdownTrace(n, m);
            && (forall i, j :: 0 <= i < j < |t| && t[j].side == Workers ==> t[i].side == Workers)
            && (forall i, j :: 0 <= i < j < |t| && t[i].Joined? && t[j].TerminateSent? ==> t[i].side != t[j].side)
            && (forall i, j :: 0 <= i < j < |t| && t[i].Joined? && t[j].Joined? ==> t[i] != t[j])
            && (forall k :: 0 <= k < n ==> Joined(Workers, k) in t)
            && (forall k :: 0 <= k < m ==> Joined(Watchers, k) in t)
  {
    var t := ShutdownTrace(n, m);
    forall i | 0 <= i < |t|
      ensures t[i] == if i < n then TerminateSent(Workers)
                      else if i < 2 * n then Joined(Workers, i - n)
                      else if i < 2 * n + m then TerminateSent(Watchers)
                      else Joined(Watchers, i - 2 * n - m)
    {
      ShutdownAt(n, m, i);
    }
    forall k | 0 <= k < n
      ensures Joined(Workers, k) in t
    {
      assert t[n + k] == Joined(Workers, k);
    }
    forall k | 0 <= k < m
      ensures Joined(Watchers, k) in t
    {
      assert t[2 * n + m + k] == Joined(Watchers, k);
    }
  }

  // ---------------------------------------------------------------------
  // The pool's invariants, on values

  /** Worker ids are 0 .. n-1 in vector order, and a handle left in a slot is that worker's. */
  ghost predicate WorkerRecords(ws: seq<Worker>)
  {
    forall i :: 0 <= i < |ws| ==> ws[i].id == i && (ws[i].thread.Some? ==> ws[i].thread.value == JoinHandle(i))
  }

  ghost predicate WatcherRecords(ws: seq<Watcher>)
  {
    forall i :: 0 <= i < |ws| ==> ws[i].id == i && (ws[i].thread.Some? ==> ws[i].thread.value == JoinHandle(i))
  }

  ghost predicate WorkersSpawned(ws: seq<Worker>)
  {
    forall i :: 0 <= i < |ws| ==> ws[i] == Worker(i, Some(JoinHandle(i)))
  }

  ghost predicate WatchersSpawned(ws: seq<Watcher>)
  {
    forall i :: 0 <= i < |ws| ==> ws[i] == Watcher(i, Some(JoinHandle(i)))
  }

  /** Worker slots 0 .. i-1 have had their handles taken, slots i .. are as spawned. */
  ghost predicate WorkersJoinedBelow(ws: seq<Worker>, i: nat)
  {
    forall k :: 0 <= k < i && k < |ws| ==> ws[k] == Worker(k, None)
  }

  ghost predicate WorkersSpawnedFrom(ws: seq<Worker>, i: nat)
  {
    forall k :: i <= k < |ws| ==> ws[k] == Worker(k, Some(JoinHandle(k)))
  }

  lemma WorkerJoinedStep(ws: seq<Worker>, i: nat)
    requires WorkersJoinedBelow(ws, i) && WorkersSpawnedFrom(ws, i) && i < |ws|
    ensures ws[i] == Worker(i, Some(JoinHandle(i)))
    ensures WorkersJoinedBelow(ws[i := Worker(i, None)], i + 1) && WorkersSpawnedFrom(ws[i := Worker(i, None)], i + 1)
  {
  }

  /** The same for watcher slots. */
  ghost predicate WatchersJoinedBelow(ws: seq<Watcher>, i: nat)
  {
    forall k :: 0 <= k < i && k < |ws| ==> ws[k] == Watcher(k, None)
  }

  ghost predicate WatchersSpawnedFrom(ws: seq<Watcher>, i: nat)
  {
    forall k :: i <= k < |ws| ==> ws[k] == Watcher(k, Some(JoinHandle(k)))
  }

  lemma WatcherJoinedStep(ws: seq<Watcher>, i: nat)
    requires WatchersJoinedBelow(ws, i) && WatchersSpawnedFrom(ws, i) && i < |ws|
    ensures ws[i] == Watcher(i, Some(JoinHandle(i)))
    ensures WatchersJoinedBelow(ws[i := Watcher(i, None)], i + 1) && WatchersSpawnedFrom(ws[i := Watcher(i, None)], i + 1)
  {
  }

  /** No thread with an id below `i` is still in its loop. */
  ghost predicate StoppedBelow(running: set<nat>, i: nat)
  {
    forall k :: k in running ==> i <= k
  }

  lemma StoppedStep(running: set<nat>, later: set<nat>, i: nat)
    requires StoppedBelow(running, i) && later <= running && i !in later
    ensures StoppedBelow(later, i + 1)
  {
  }

  lemma StoppedAll(running: set<nat>, n: nat)
    requires StoppedBelow(running, n) && forall k :: k in running ==> k < n
    ensures running == {}
  {
  }

  /** `worker.thread.take()` on slot `i` keeps the records well formed. */
  lemma TakeWorkerHandle(ws: seq<Worker>, i: nat)
    requires WorkerRecords(ws) && i < |ws|
    ensures WorkerRecords(ws[i := ws[i].(thread := None)])
  {
  }

  lemma TakeWatcherHandle(ws: seq<Watcher>, i: nat)
    requires WatcherRecords(ws) && i < |ws|
    ensures WatcherRecords(ws[i := ws[i].(thread := None)])
  {
  }

  // ---------------------------------------------------------------------
  // Jobs in flight
  /**
   * A worker runs the job it took after it has released the lock on the
   * receiver (the guard of `receiver.lock()` is dropped at the end of the
   * `let`), so between taking a job and forwarding its result other workers
   * proceed. `slots[w]` is the job worker `w` has taken and not yet finished.
   * Results are then forwarded in no fixed order, and are compared by how
   * often each occurs.
   */

  /** How many times `x` occurs in `s`. */
  ghost function Count(s: seq<WatcherMessage>, x: WatcherMessage): nat
  {
    if |s| == 0 then 0 else Count(s[..|s| - 1], x) + (if s[|s| - 1] == x then 1 else 0)
  }

  lemma CountAppend(s: seq<WatcherMessage>, y: WatcherMessage, x: WatcherMessage)
    ensures Count(s + [y], x) == Count(s, x) + (if y == x then 1 else 0)
  {
    assert (s + [y])[..|s|] == s;
  }

  /** `Count` is the multiplicity of `x` in the multiset of `s`'s elements. */
  lemma {:induction false} CountIsMultiplicity(s: seq<WatcherMessage>, x: WatcherMessage)
    ensures Count(s, x) == multiset(s)[x]
  {
    if |s| > 0 {
      var k := |s| - 1;
      CountIsMultiplicity(s[..k], x);
      assert s == s[..k] + [s[k]];
    }
  }

  /** `a` and `b` hold the same messages, each as often: one is a reordering of the other. */
  ghost predicate Permutes(a: seq<WatcherMessage>, b: seq<WatcherMessage>)
  {
    forall x :: SameCount(a, b, x)
  }

  ghost predicate SameCount(a: seq<WatcherMessage>, b: seq<WatcherMessage>, x: WatcherMessage)
  {
    Count(a, x) == Count(b, x)
  }

  lemma PermutesMultiset(a: seq<WatcherMessage>, b: seq<WatcherMessage>)
    requires Permutes(a, b)
    ensures multiset(a) == multiset(b)
  {
    forall x
      ensures multiset(a)[x] == multiset(b)[x]
    {
      assert SameCount(a, b, x);
      CountIsMultiplicity(a, x);
      CountIsMultiplicity(b, x);
    }
  }

  lemma PermutesLength(a: seq<WatcherMessage>, b: seq<WatcherMessage>)
    requires Permutes(a, b)
    ensures |a| == |b|
  {
    PermutesMultiset(a, b);
    assert |multiset(a)| == |a| && |multiset(b)| == |b|;
  }

  /** 1 when `slot` holds a job whose result is `x`. */
  ghost function Holds(slot: Option<Job>, x: WatcherMessage): nat
  {
    if slot.Some? && New(slot.value.callback()) == x then 1 else 0
  }

  /** How many jobs in flight will forward `x`. */
  ghost function InFlight(slots: seq<Option<Job>>, x: WatcherMessage): nat
  {
    if |slots| == 0 then 0 else InFlight(slots[..|slots| - 1], x) + Holds(slots[|slots| - 1], x)
  }

  /** Changing one slot changes the count in flight by that slot's contribution only. */
  lemma {:induction false} InFlightUpdate(slots: seq<Option<Job>>, i: nat, y: Option<Job>, x: WatcherMessage)
    requires i < |slots|
    ensures InFlight(slots[i := y], x) + Holds(slots[i], x) == InFlight(slots, x) + Holds(y, x)
  {
    var k := |slots| - 1;
    var t := slots[i := y];
    if i == k {
      assert t[..k] == slots[..k];
    } else {
      assert t[..k] == slots[..k][i := y];
      InFlightUpdate(slots[..k], i, y, x);
    }
  }

  /** With every slot empty, nothing is in flight. */
  lemma {:induction false} InFlightIdle(slots: seq<Option<Job>>, x: WatcherMessage)
    requires forall i :: 0 <= i < |slots| ==> slots[i].None?
    ensures InFlight(slots, x) == 0
  {
    if |slots| > 0 {
      InFlightIdle(slots[..|slots| - 1], x);
    }
  }

  /** `n` slots, and only a worker still in its loop holds a job. */
  ghost predicate SlotsHeld(slots: seq<Option<Job>>, running: set<nat>, n: nat)
  {
    |slots| == n && forall w :: 0 <= w < |slots| && slots[w].Some? ==> w in running
  }

  /** What taking message `m` leaves in worker `id`'s slot: the job, or nothing on `Terminate`. */
  function TakeSlot(slots: seq<Option<Job>>, id: nat, m: Message): (r: seq<Option<Job>>)
    requires id < |slots|
    ensures |r| == |slots|
  {
    if m.New? then slots[id := Some(m.payload)] else slots
  }

  /**
   * Every job a worker has taken has either forwarded its one result or is
   * still in flight; results reach the watchers in no particular order.
   */
  ghost predicate Forwarded(received: seq<Receipt<Job>>, sent: seq<WatcherMessage>, slots: seq<Option<Job>>)
  {
    forall x :: Tallied(received, sent, slots, x)
  }

  /** Result `x` was forwarded, or is in flight, as often as the workers took a job yielding it. */
  ghost predicate Tallied(received: seq<Receipt<Job>>, sent: seq<WatcherMessage>, slots: seq<Option<Job>>,
                          x: WatcherMessage)
  {
    Count(ResultsOf(Messages(received)), x) == Count(sent, x) + InFlight(slots, x)
  }

  /** Taking a job puts its result in flight; taking `Terminate` forwards nothing. */
  lemma ForwardedTake(received: seq<Receipt<Job>>, sent: seq<WatcherMessage>, slots: seq<Option<Job>>,
                      id: nat, m: Message)
    requires Forwarded(received, sent, slots) && id < |slots| && slots[id].None?
    ensures Forwarded(received + [Receipt(id, m)], sent, TakeSlot(slots, id, m))
  {
    var before := ResultsOf(Messages(received));
    MessagesAppend(received, Receipt(id, m));
    ResultsOfAppend(Messages(received), m);
    assert ResultsOf(Messages(received + [Receipt(id, m)]))
        == before + (if m.New? then [New(m.payload.callback())] else []);
    forall x
      ensures Tallied(received + [Receipt(id, m)], sent, TakeSlot(slots, id, m), x)
    {
      assert Tallied(received, sent, slots, x);
      if m.New? {
        CountAppend(before, New(m.payload.callback()), x);
        InFlightUpdate(slots, id, Some(m.payload), x);
      } else {
        assert before + [] == before;
      }
    }
  }

  /** Running the job in flight at `id` moves its result from the jobs in flight to the sent ones. */
  lemma ForwardedFinish(received: seq<Receipt<Job>>, sent: seq<WatcherMessage>, slots: seq<Option<Job>>, id: nat)
    requires Forwarded(received, sent, slots) && id < |slots| && slots[id].Some?
    ensures Forwarded(received, sent + [New(slots[id].value.callback())], slots[id := None])
  {
    var result := New(slots[id].value.callback());
    var (sent', slots') := (sent + [result], slots[id := None]);
    forall x
      ensures Tallied(received, sent', slots', x)
    {
      assert Tallied(received, sent, slots, x);
      CountAppend(sent, result, x);
      InFlightUpdate(slots, id, None, x);
    }
  }

  /**
   * Workers may still run (`n` of them, and `n` watchers): the work queue is in
   * service or shutting down, every watcher is in its loop, only running
   * workers hold jobs, and results are forwarded.
   */
  ghost predicate WorkersMayRun(work: Channel<Job>, results: Channel<JobResult>, slots: seq<Option<Job>>, n: nat)
  {
    && (Serving(work, n) || Closing(work, n))
    && Serving(results, n)
    && SlotsHeld(slots, work.running, n)
    && Forwarded(work.received, results.sent, slots)
  }

  /** `s` holds the results `rs`, each exactly once and in some order, followed by `m` `Terminate`s. */
  ghost predicate DeliveredOnce(s: seq<WatcherMessage>, rs: seq<WatcherMessage>, m: nat)
  {
    && |s| == |rs| + m
    && Permutes(s[..|rs|], rs)
    && s[|rs|..] == Terminates(m)
  }

  /** Two results count as delivered once in either order: deliveries need not follow submission. */
  lemma DeliveredEitherOrder(a: WatcherMessage, b: WatcherMessage, m: nat)
    ensures DeliveredOnce([a, b] + Terminates(m), [a, b], m)
    ensures DeliveredOnce([b, a] + Terminates(m), [a, b], m)
  {
    forall x
      ensures SameCount([b, a], [a, b], x)
    {
      assert [b, a][..1] == [b] && [a, b][..1] == [a];
      assert [b][..0] == [] && [a][..0] == [];
    }
    assert ([a, b] + Terminates(m))[..2] == [a, b];
    assert ([b, a] + Terminates(m))[..2] == [b, a];
  }

  /**
   * Once the work channel is closing and no worker is left in its loop, the
   * queue is drained, every message was received once, each worker took one
   * `Terminate`, and no job is in flight.
   */
  lemma WorkersStopped(work: Channel<Job>, slots: seq<Option<Job>>, n: nat)
    requires Consumers(work, n) && Closing(work, n) && work.running == {}
    requires SlotsHeld(slots, work.running, n)
    ensures |work.queue| == 0 && Messages(work.received) == work.sent
    ensures forall w: nat :: w < n ==> TerminateCount(TakenBy(work.received, w)) == 1
    ensures forall w :: 0 <= w < |slots| ==> slots[w].None?
  {
    DrainedChannel(work, n);
    NothingHeld(slots, work.running, n);
  }

  /** With no worker in its loop, no worker holds a job. */
  lemma NothingHeld(slots: seq<Option<Job>>, running: set<nat>, n: nat)
    requires SlotsHeld(slots, running, n) && running == {}
    ensures forall w :: 0 <= w < |slots| ==> slots[w].None?
  {
  }

  /** What the workers forwarded, once nothing is in flight and they took the jobs `submitted` and `n` `Terminate`s. */
  lemma ResultsForwarded(received: seq<Receipt<Job>>, sent: seq<WatcherMessage>, slots: seq<Option<Job>>,
                         submitted: seq<Message>, n: nat)
    requires Forwarded(received, sent, slots)
    requires forall w :: 0 <= w < |slots| ==> slots[w].None?
    requires Messages(received) == submitted + Terminates(n)
    ensures Permutes(sent, ResultsOf(submitted))
  {
    ResultsOfTerminates(submitted, n);
    ForwardedIdle(received, sent, slots);
  }

  /** With no job in flight, every taken job's result has been sent. */
  lemma ForwardedIdle(received: seq<Receipt<Job>>, sent: seq<WatcherMessage>, slots: seq<Option<Job>>)
    requires Forwarded(received, sent, slots)
    requires forall w :: 0 <= w < |slots| ==> slots[w].None?
    ensures Permutes(sent, ResultsOf(Messages(received)))
  {
    forall x
      ensures SameCount(sent, ResultsOf(Messages(received)), x)
    {
      assert Tallied(received, sent, slots, x);
      InFlightIdle(slots, x);
    }
  }

  /**
   * A worker holding no job takes the oldest message: a job goes into its
   * slot (its result is now in flight), `Terminate` ends its loop. Both
   * channels keep their discipline and the work channel its phase.
   */
  lemma TakeKeeps(work: Channel<Job>, results: Channel<JobResult>, slots: seq<Option<Job>>, n: nat, id: nat)
    requires Consumers(work, n) && WorkersMayRun(work, results, slots, n)
    requires id in work.running && |work.queue| > 0 && id < |slots| && slots[id].None?
    ensures Consumers(Recv(work, id), n)
    ensures WorkersMayRun(Recv(work, id), results, TakeSlot(slots, id, work.queue[0]), n)
    ensures Serving(work, n) ==> Serving(Recv(work, id), n)
    ensures Closing(work, n) ==> Closing(Recv(work, id), n)
  {
    var m := work.queue[0];
    RecvKeepsInvariant(work, id, n);
    ForwardedTake(work.received, results.sent, slots, id, m);
    SlotsHeldTake(slots, work, id, n);
    if Serving(work, n) {
      ServingRecv(work, id, n);
    }
    if Closing(work, n) {
      ClosingRecv(work, id, n);
    }
  }

  /** After a take, only running workers hold jobs: the taker keeps running on a job and holds none on `Terminate`. */
  lemma SlotsHeldTake(slots: seq<Option<Job>>, work: Channel<Job>, id: nat, n: nat)
    requires SlotsHeld(slots, work.running, n)
    requires id in work.running && |work.queue| > 0 && id < |slots| && slots[id].None?
    ensures SlotsHeld(TakeSlot(slots, id, work.queue[0]), Recv(work, id).running, n)
  {
  }

  /**
   * A worker holding a job runs it (`call_box`): its result leaves the jobs
   * in flight and is sent to the watchers, which are all still in service.
   */
  lemma FinishKeeps(work: Channel<Job>, results: Channel<JobResult>, slots: seq<Option<Job>>, n: nat, id: nat)
    requires Consumers(results, n) && WorkersMayRun(work, results, slots, n)
    requires id < |slots| && slots[id].Some?
    ensures CallBox(slots[id].value, results).sent == results.sent + [New(slots[id].value.callback())]
    ensures Consumers(CallBox(slots[id].value, results), n)
    ensures WorkersMayRun(work, CallBox(slots[id].value, results), slots[id := None], n)
  {
    var job := slots[id].value;
    assert id in results.running;
    SendKeepsInvariant(results, New(job.callback()), n);
    SendPayloadServing(results, New(job.callback()), n);
    ForwardedFinish(work.received, results.sent, slots, id);
  }

  /** The first loop of `ThreadPool::new`: `size` workers on a fresh work channel. */
  method SpawnWorkers(size: nat) returns (ws: seq<Worker>, receiver: Channel<Job>)
    ensures |ws| == size && WorkersSpawned(ws)
    ensures receiver == Open().(running := Ids(size))
  {
    ws, receiver := [], Open();
    for id := 0 to size
      invariant |ws| == id && WorkersSpawned(ws)
      invariant receiver == Open().(running := Ids(id))
    {
      var (worker, r) := NewWorker(id, receiver);
      SpawnNext<Job>(id);
      ws, receiver := ws + [worker], r;
    }
  }

  /** The second loop of `ThreadPool::new`: `size` watchers on a fresh result channel. */
  method SpawnWatchers(size: nat) returns (ws: seq<Watcher>, receiver: Channel<JobResult>)
    ensures |ws| == size && WatchersSpawned(ws)
    ensures receiver == Open().(running := Ids(size))
  {
    ws, receiver := [], Open();
    for id := 0 to size
      invariant |ws| == id && WatchersSpawned(ws)
      invariant receiver == Open().(running := Ids(id))
    {
      var (watcher, r) := NewWatcher(id, receiver);
      SpawnNext<JobResult>(id);
      ws, receiver := ws + [watcher], r;
    }
  }

  class ThreadPool {
    var workers: seq<Worker>
    var watchers: seq<Watcher>
    /** `sender`, with the receiver the workers share. */
    var work: Channel<Job>
    /** `job_result_sender`, with the receiver the watchers share. */
    var jobResults: Channel<JobResult>
    /** The job each worker has taken and is running, by worker id (the local `job` of its loop). */
    var inFlight: seq<Option<Job>>
    /** The shutdown steps taken so far. */
    ghost var shutdown: seq<ShutdownStep>

    /** Both vectors of records and both channels' consumer discipline. */
    ghost predicate Records()
      reads this
    {
      && |workers| == |watchers|
      && WorkerRecords(workers) && WatcherRecords(watchers)
      && Consumers(work, |workers|) && Consumers(jobResults, |watchers|)
    }

    ghost predicate Working()
      reads this
    {
      Records() && WorkersMayRun(work, jobResults, inFlight, |workers|)
    }

    /** The pool between `new` and `drop`. */
    ghost predicate Valid()
      reads this
    {
      && Working()
      && Serving(work, |workers|)
      && WorkersSpawned(workers) && WatchersSpawned(watchers)
      && shutdown == []
    }

    /**
     * `ThreadPool::new(size)`, which always returns `Ok`. Its guard
     * `if size == 0 { let size = 1; }` binds a new local and changes
     * nothing, so a size of 0 yields two empty pools.
     */
    constructor (size: nat)
      ensures Valid()
      ensures |workers| == size && |watchers| == size
      ensures WorkersSpawned(workers) && WatchersSpawned(watchers)
      ensures work == Open().(running := Ids(size))
      ensures jobResults == Open().(running := Ids(size))
      ensures |inFlight| == size && forall w :: 0 <= w < size ==> inFlight[w].None?
    {
      var ws, receiver := SpawnWorkers(size);
      var watch, resultReceiver := SpawnWatchers(size);
      OpenServing<Job>(size);
      OpenServing<JobResult>(size);
      workers, watchers := ws, watch;
      work, jobResults := receiver, resultReceiver;
      var idle: seq<Option<Job>> := seq(size, _ => None);
      forall x
        ensures Tallied(receiver.received, resultReceiver.sent, idle, x)
      {
        InFlightIdle(idle, x);
      }
      inFlight := idle;
      shutdown := [];
    }

    /**
     * `execute(callback)`: queue one `NewJob` wrapping the callback. `sent`
     * is false exactly where `send(job).unwrap()` panics: no worker holds
     * the receiver, which happens only for a pool of size 0.
     */
    method Execute(callback: () -> JobResult) returns (sent: bool)
      requires Valid()
      modifies this
      ensures Valid()
      ensures sent <==> |workers| > 0
      ensures work.queue == old(work.queue) + (if sent then [New(Job(callback))] else [])
      ensures work.sent == old(work.sent) + (if sent then [New(Job(callback))] else [])
      ensures work.running == old(work.running) && work.received == old(work.received)
      ensures jobResults == old(jobResults) && inFlight == old(inFlight)
      ensures workers == old(workers) && watchers == old(watchers) && shutdown == old(shutdown)
    {
      assert |workers| > 0 ==> 0 in work.running;
      SendKeepsInvariant(work, New(Job(callback)), |workers|);
      sent := Connected(work);
      work := Send(work, New(Job(callback)));
    }

    /**
     * The threads running while the pool is in service, as far as the model
     * sees them: `schedule` says, turn by turn, which thread takes the next
     * iteration of its loop (turns naming no thread of the pool do nothing).
     * Messages are only ever added to the logs, and no job is submitted.
     */
    method Run(schedule: seq<Turn>)
      requires Valid()
      modifies this
      ensures Valid()
      ensures work.sent == old(work.sent) && old(work.received) <= work.received
      ensures old(jobResults.sent) <= jobResults.sent && old(jobResults.received) <= jobResults.received
      ensures workers == old(workers) && watchers == old(watchers)
    {
      for j := 0 to |schedule|
        invariant Valid() && work.sent == old(work.sent) && old(work.received) <= work.received
        invariant old(jobResults.sent) <= jobResults.sent && old(jobResults.received) <= jobResults.received
        invariant workers == old(workers) && watchers == old(watchers)
      {
        var turn := schedule[j];
        if turn.side == Workers && turn.id < |workers| {
          var action := WorkerStep(turn.id);
        } else if turn.side == Watchers && turn.id < |watchers| {
          var taken := WatcherStep(turn.id);
        }
      }
    }

    /**
     * One iteration of the loop of worker `id`. Holding a job, it runs it
     * (`call_box`), which forwards the job's result. Otherwise, while in its
     * loop, it takes the oldest message: `NewJob` becomes its job in flight,
     * `Terminate` ends its loop. It blocks in `recv` on an empty queue.
     */
    method WorkerStep(id: nat) returns (action: WorkerAction)
      requires Working() && id < |workers|
      modifies this
      ensures Working()
      ensures old(Serving(work, |workers|)) ==> Serving(work, |workers|)
      ensures old(Closing(work, |workers|)) ==> Closing(work, |workers|)
      ensures action.Ran? <==> old(inFlight)[id].Some?
      ensures action.Took? <==> old(inFlight)[id].None? && id in old(work.running) && |old(work.queue)| > 0
      ensures action.Ran? ==>
                && action.job == old(inFlight)[id].value
                && work == old(work) && inFlight == old(inFlight)[id := None]
                && jobResults == CallBox(action.job, old(jobResults))
                && jobResults.sent == old(jobResults.sent) + [New(action.job.callback())]
      ensures action.Took? ==>
                && action.message == old(work.queue)[0]
                && work == Recv(old(work), id) && inFlight == TakeSlot(old(inFlight), id, action.message)
                && jobResults == old(jobResults)
      ensures action.Idle? ==> work == old(work) && jobResults == old(jobResults) && inFlight == old(inFlight)
      ensures workers == old(workers) && watchers == old(watchers) && shutdown == old(shutdown)
    {
      if inFlight[id].Some? {
        var job := Finish(id);
        action := Ran(job);
      } else if id in work.running && |work.queue| > 0 {
        var message := Take(id);
        action := Took(message);
      } else {
        action := Idle;
      }
    }

    /** `call_box` on the job worker `id` holds, which sends the job's result to the watchers. */
    method Finish(id: nat) returns (job: Job)
      requires Working() && id < |workers| && inFlight[id].Some?
      modifies this
      ensures Working()
      ensures job == old(inFlight)[id].value
      ensures work == old(work) && inFlight == old(inFlight)[id := None]
      ensures jobResults == CallBox(job, old(jobResults))
      ensures jobResults.sent == old(jobResults.sent) + [New(job.callback())]
      ensures workers == old(workers) && watchers == old(watchers) && shutdown == old(shutdown)
    {
      job := inFlight[id].value;
      FinishKeeps(work, jobResults, inFlight, |workers|, id);
      jobResults := CallBox(job, jobResults);
      inFlight := inFlight[id := None];
    }

    /** `receiver.lock().unwrap().recv()` by worker `id`, which holds no job. */
    method Take(id: nat) returns (message: Message)
      requires Working() && id < |workers| && inFlight[id].None?
      requires id in work.running && |work.queue| > 0
      modifies this
      ensures Working()
      ensures old(Serving(work, |workers|)) ==> Serving(work, |workers|)
      ensures old(Closing(work, |workers|)) ==> Closing(work, |workers|)
      ensures message == old(work.queue)[0]
      ensures work == Recv(old(work), id) && inFlight == TakeSlot(old(inFlight), id, message)
      ensures jobResults == old(jobResults)
      ensures workers == old(workers) && watchers == old(watchers) && shutdown == old(shutdown)
    {
      message := work.queue[0];
      TakeKeeps(work, jobResults, inFlight, |workers|, id);
      work := Recv(work, id);
      inFlight := TakeSlot(inFlight, id, message);
    }

    /**
     * One iteration of the loop of watcher `id`: while in its loop it takes
     * the oldest message; on `NewJobResult` it reports the result (output not
     * modelled), on `Terminate` it leaves its loop. It blocks on an empty queue.
     */
    method WatcherStep(id: nat) returns (taken: Option<WatcherMessage>)
      requires Records() && id < |watchers|
      requires Serving(jobResults, |watchers|) || Closing(jobResults, |watchers|)
      modifies this
      ensures Records()
      ensures old(Serving(jobResults, |watchers|)) ==> Serving(jobResults, |watchers|)
      ensures old(Closing(jobResults, |watchers|)) ==> Closing(jobResults, |watchers|)
      ensures taken.Some? <==> id in old(jobResults.running) && |old(jobResults.queue)| > 0
      ensures taken.Some? ==> taken.value == old(jobResults.queue)[0] && jobResults == Recv(old(jobResults), id)
      ensures taken.None? ==> jobResults == old(jobResults)
      ensures work == old(work) && inFlight == old(inFlight)
      ensures workers == old(workers) && watchers == old(watchers) && shutdown == old(shutdown)
    {
      if id in jobResults.running && |jobResults.queue| > 0 {
        var message := Receive(id);
        taken := Some(message);
      } else {
        taken := None;
      }
    }

    /** `receiver.lock().unwrap().recv()` by watcher `id`, which is in its loop. */
    method Receive(id: nat) returns (message: WatcherMessage)
      requires Records() && id < |watchers| && id in jobResults.running && |jobResults.queue| > 0
      modifies this
      ensures Records()
      ensures old(Serving(jobResults, |watchers|)) ==> Serving(jobResults, |watchers|)
      ensures old(Closing(jobResults, |watchers|)) ==> Closing(jobResults, |watchers|)
      ensures message == old(jobResults.queue)[0] && jobResults == Recv(old(jobResults), id)
      ensures work == old(work) && inFlight == old(inFlight)
      ensures workers == old(workers) && watchers == old(watchers) && shutdown == old(shutdown)
    {
      message := jobResults.queue[0];
      RecvKeepsPhase(jobResults, id, |watchers|);
      jobResults := Recv(jobResults, id);
    }

    /** `drop`: stop and join every worker, then every watcher. */
    method Drop()
      requires Valid()
      modifies this
      ensures |workers| == old(|workers|) && |watchers| == old(|watchers|)
      ensures forall i :: 0 <= i < |workers| ==> workers[i] == Worker(i, None)
      ensures forall i :: 0 <= i < |watchers| ==> watchers[i] == Watcher(i, None)
      ensures work.running == {} && |work.queue| == 0
      ensures jobResults.running == {} && |jobResults.queue| == 0
      // every job submitted, then one Terminate per worker, was received exactly once, in order
      ensures work.sent == old(work.sent) + Terminates(|workers|)
      ensures Messages(work.received) == work.sent
      ensures forall w: nat :: w < |workers| ==> TerminateCount(TakenBy(work.received, w)) == 1
      // no job is left in flight; the watchers received every submitted job's result exactly
      // once, in the order the workers finished them, then one Terminate each
      ensures forall w :: 0 <= w < |inFlight| ==> inFlight[w].None?
      ensures DeliveredOnce(Messages(jobResults.received), ResultsOf(old(work.sent)), |watchers|)
      ensures Messages(jobResults.received) == jobResults.sent
      ensures forall w: nat :: w < |watchers| ==> TerminateCount(TakenBy(jobResults.received, w)) == 1
      ensures shutdown == ShutdownTrace(|workers|, |watchers|)
    {
      ghost var submitted := work.sent;
      StopWorkers();
      ghost var finished := jobResults.sent;
      StopWatchers();
      assert Messages(jobResults.received) == finished + Terminates(|watchers|);
      assert |finished| == |ResultsOf(submitted)| by {
        PermutesLength(finished, ResultsOf(submitted));
      }
      assert Messages(jobResults.received)[..|finished|] == finished;
    }

    /** The first two loops of `drop`: every worker is sent `Terminate` and joined. */
    method StopWorkers()
      requires Valid()
      modifies this
      ensures Records() && Serving(jobResults, |watchers|) && WatchersSpawned(watchers)
      ensures |workers| == old(|workers|) && watchers == old(watchers)
      ensures forall i :: 0 <= i < |workers| ==> workers[i] == Worker(i, None)
      ensures work.running == {} && |work.queue| == 0
      ensures work.sent == old(work.sent) + Terminates(|workers|)
      ensures Messages(work.received) == work.sent
      ensures forall w: nat :: w < |workers| ==> TerminateCount(TakenBy(work.received, w)) == 1
      ensures forall w :: 0 <= w < |inFlight| ==> inFlight[w].None?
      ensures Permutes(jobResults.sent, ResultsOf(old(work.sent)))
      ensures shutdown == Repeat(TerminateSent(Workers), |workers|) + JoinAll(Workers, |workers|)
    {
      ghost var submitted := work.sent;
      TerminateWorkers();
      ghost var terminated := shutdown;
      assert terminated == Repeat(TerminateSent(Workers), |workers|);
      JoinWorkers();
      WorkersStopped(work, inFlight, |workers|);
      ResultsForwarded(work.received, jobResults.sent, inFlight, submitted, |workers|);
    }

    /** The last two loops of `drop`: every watcher is sent `Terminate` and joined. */
    method StopWatchers()
      requires Records() && Serving(jobResults, |watchers|) && WatchersSpawned(watchers)
      modifies this
      ensures |watchers| == old(|watchers|) && work == old(work) && workers == old(workers)
      ensures inFlight == old(inFlight)
      ensures forall i :: 0 <= i < |watchers| ==> watchers[i] == Watcher(i, None)
      ensures jobResults.running == {} && |jobResults.queue| == 0
      ensures Messages(jobResults.received) == old(jobResults.sent) + Terminates(|watchers|)
      ensures Messages(jobResults.received) == jobResults.sent
      ensures forall w: nat :: w < |watchers| ==> TerminateCount(TakenBy(jobResults.received, w)) == 1
      ensures shutdown == old(shutdown) + Repeat(TerminateSent(Watchers), |watchers|) + JoinAll(Watchers, |watchers|)
    {
      TerminateWatchers();
      JoinWatchers();
      DrainedChannel(jobResults, |watchers|);
    }

    /** The first loop of `drop`: one `Terminate` per worker; `unwrap` cannot fail. */
    method TerminateWorkers()
      requires Valid()
      modifies this
      ensures Working() && Closing(work, |workers|)
      ensures work.sent == old(work.sent) + Terminates(|workers|)
      ensures work.received == old(work.received)
      ensures jobResults == old(jobResults) && workers == old(workers) && watchers == old(watchers)
      ensures inFlight == old(inFlight)
      ensures WorkersSpawned(workers) && WatchersSpawned(watchers)
      ensures shutdown == old(shutdown) + Repeat(TerminateSent(Workers), |workers|)
    {
      ghost var start := work;
      ghost var steps: seq<ShutdownStep> := [];
      TerminatesClose(work, |workers|);
      for i := 0 to |workers|
        invariant work == SendTerminates(start, i)
        invariant jobResults == old(jobResults) && workers == old(workers) && watchers == old(watchers)
        invariant inFlight == old(inFlight)
        invariant shutdown == old(shutdown)
        invariant steps == Repeat(TerminateSent(Workers), i)
      {
        assert 0 in start.running;
        SendTerminatesShape(start, i);
        assert Connected(work);
        work := Send(work, Terminate);
        RepeatNext(TerminateSent(Workers), i);
        steps := steps + [TerminateSent(Workers)];
      }
      if |workers| > 0 {
        assert 0 in start.running;
        SendTerminatesShape(start, |workers|);
      }
      shutdown := shutdown + steps;
    }

    /** The second loop of `drop`: take and join every worker handle, by id. */
    method JoinWorkers()
      requires Working() && Closing(work, |workers|) && WorkersSpawned(workers)
      modifies this
      ensures Working() && Closing(work, |workers|) && work.running == {}
      ensures |workers| == old(|workers|)
      ensures forall i :: 0 <= i < |workers| ==> workers[i] == Worker(i, None)
      ensures work.sent == old(work.sent) && watchers == old(watchers)
      ensures shutdown == old(shutdown) + JoinAll(Workers, |workers|)
    {
      ghost var steps: seq<ShutdownStep> := [];
      for i := 0 to |workers|
        invariant Working() && Closing(work, |workers|)
        invariant |workers| == old(|workers|)
        invariant WorkersJoinedBelow(workers, i) && WorkersSpawnedFrom(workers, i)
        invariant StoppedBelow(work.running, i)
        invariant work.sent == old(work.sent) && watchers == old(watchers) && shutdown == old(shutdown)
        invariant steps == JoinAll(Workers, i)
      {
        ghost var (before, running) := (workers, work.running);
        WorkerJoinedStep(before, i);
        JoinWorkerSlot(i);
        StoppedStep(running, work.running, i);
        JoinAllNext(Workers, i);
        steps := steps + [Joined(Workers, i)];
      }
      StoppedAll(work.running, |workers|);
      shutdown := shutdown + steps;
    }

    /** One iteration of that loop: `worker.thread.take()` on slot `i`, then `join` on the handle. */
    method JoinWorkerSlot(i: nat)
      requires Working() && Closing(work, |workers|) && i < |workers|
      requires workers[i] == Worker(i, Some(JoinHandle(i)))
      modifies this
      ensures Working() && Closing(work, |workers|)
      ensures workers == old(workers)[i := Worker(i, None)]
      ensures i !in work.running && work.running <= old(work.running)
      ensures work.sent == old(work.sent) && watchers == old(watchers) && shutdown == old(shutdown)
    {
      var handle := workers[i].thread;
      TakeWorkerHandle(workers, i);
      workers := workers[i := workers[i].(thread := None)];
      if handle.Some? {
        JoinWorker(i);
      }
    }

    /**
     * `join` on worker `id`'s thread: worker `id` runs until it has left its
     * loop. It finishes the job it holds, takes the payloads still ahead of the
     * `Terminate`s and runs them, and then takes a `Terminate`.
     */
    method JoinWorker(id: nat)
      requires Working() && Closing(work, |workers|) && id < |workers|
      modifies this
      ensures Working() && Closing(work, |workers|)
      ensures id !in work.running && work.running <= old(work.running)
      ensures work.sent == old(work.sent)
      ensures workers == old(workers) && watchers == old(watchers) && shutdown == old(shutdown)
    {
      while id in work.running
        invariant Working() && Closing(work, |workers|)
        invariant work.running <= old(work.running) && work.sent == old(work.sent)
        invariant workers == old(workers) && watchers == old(watchers) && shutdown == old(shutdown)
        decreases |work.queue|, if inFlight[id].Some? then 1 else 0
      {
        if inFlight[id].None? {
          ClosingRecv(work, id, |workers|);
        }
        var action := WorkerStep(id);
      }
    }

    /** The third loop of `drop`: one `Terminate` per watcher, once every worker is joined. */
    method TerminateWatchers()
      requires Records() && Serving(jobResults, |watchers|)
      modifies this
      ensures Records() && Closing(jobResults, |watchers|)
      ensures jobResults.sent == old(jobResults.sent) + Terminates(|watchers|)
      ensures work == old(work) && workers == old(workers) && watchers == old(watchers)
      ensures inFlight == old(inFlight)
      ensures shutdown == old(shutdown) + Repeat(TerminateSent(Watchers), |watchers|)
    {
      ghost var start := jobResults;
      ghost var steps: seq<ShutdownStep> := [];
      TerminatesClose(jobResults, |watchers|);
      for i := 0 to |watchers|
        invariant jobResults == SendTerminates(start, i)
        invariant work == old(work) && workers == old(workers) && watchers == old(watchers)
        invariant inFlight == old(inFlight) && shutdown == old(shutdown)
        invariant steps == Repeat(TerminateSent(Watchers), i)
      {
        assert 0 in start.running;
        SendTerminatesShape(start, i);
        assert Connected(jobResults);
        jobResults := Send(jobResults, Terminate);
        RepeatNext(TerminateSent(Watchers), i);
        steps := steps + [TerminateSent(Watchers)];
      }
      if |watchers| > 0 {
        assert 0 in start.running;
        SendTerminatesShape(start, |watchers|);
      }
      shutdown := shutdown + steps;
    }

    /** The fourth loop of `drop`: take and join every watcher handle, by id. */
    method JoinWatchers()
      requires Records() && Closing(jobResults, |watchers|) && WatchersSpawned(watchers)
      modifies this
      ensures Records() && Closing(jobResults, |watchers|) && jobResults.running == {}
      ensures |watchers| == old(|watchers|)
      ensures forall i :: 0 <= i < |watchers| ==> watchers[i] == Watcher(i, None)
      ensures jobResults.sent == old(jobResults.sent) && work == old(work) && workers == old(workers)
      ensures inFlight == old(inFlight)
      ensures shutdown == old(shutdown) + JoinAll(Watchers, |watchers|)
    {
      ghost var steps: seq<ShutdownStep> := [];
      for i := 0 to |watchers|
        invariant Records() && Closing(jobResults, |watchers|)
        invariant |watchers| == old(|watchers|)
        invariant WatchersJoinedBelow(watchers, i) && WatchersSpawnedFrom(watchers, i)
        invariant StoppedBelow(jobResults.running, i)
        invariant jobResults.sent == old(jobResults.sent) && work == old(work) && workers == old(workers)
        invariant inFlight == old(inFlight) && shutdown == old(shutdown)
        invariant steps == JoinAll(Watchers, i)
      {
        ghost var (before, running) := (watchers, jobResults.running);
        WatcherJoinedStep(before, i);
        JoinWatcherSlot(i);
        StoppedStep(running, jobResults.running, i);
        JoinAllNext(Watchers, i);
        steps := steps + [Joined(Watchers, i)];
      }
      StoppedAll(jobResults.running, |watchers|);
      shutdown := shutdown + steps;
    }

    /** One iteration of that loop: `watcher.thread.take()` on slot `i`, then `join` on the handle. */
    method JoinWatcherSlot(i: nat)
      requires Records() && Closing(jobResults, |watchers|) && i < |watchers|
      requires watchers[i] == Watcher(i, Some(JoinHandle(i)))
      modifies this
      ensures Records() && Closing(jobResults, |watchers|)
      ensures watchers == old(watchers)[i := Watcher(i, None)]
      ensures i !in jobResults.running && jobResults.running <= old(jobResults.running)
      ensures jobResults.sent == old(jobResults.sent) && work == old(work) && workers == old(workers)
      ensures inFlight == old(inFlight) && shutdown == old(shutdown)
    {
      var handle := watchers[i].thread;
      TakeWatcherHandle(watchers, i);
      watchers := watchers[i := watchers[i].(thread := None)];
      if handle.Some? {
        JoinWatcher(i);
      }
    }

    /** `join` on watcher `id`'s thread: watcher `id` runs until it has taken its `Terminate`. */
    method JoinWatcher(id: nat)
      requires Records() && Closing(jobResults, |watchers|) && id < |watchers|
      modifies this
      ensures Records() && Closing(jobResults, |watchers|)
      ensures id !in jobResults.running && jobResults.running <= old(jobResults.running)
      ensures jobResults.sent == old(jobResults.sent)
      ensures work == old(work) && workers == old(workers) && watchers == old(watchers) && shutdown == old(shutdown)
      ensures inFlight == old(inFlight)
    {
      while id in jobResults.running
        invariant Records() && Closing(jobResults, |watchers|)
        invariant jobResults.running <= old(jobResults.running) && jobResults.sent == old(jobResults.sent)
        invariant work == old(work) && workers == old(workers) && watchers == old(watchers) && shutdown == old(shutdown)
        invariant inFlight == old(inFlight)
        decreases |jobResults.queue|
      {
        ClosingRecv(jobResults, id, |watchers|);
        ghost var before := jobResults;
        var taken := WatcherStep(id);
        assert jobResults == Recv(before, id);
      }
    }
  }

  /**
   * Two jobs submitted to a pool of two can have their results forwarded in
   * the reverse order: worker 0 takes the first job, worker 1 takes the
   * second and runs it before worker 0 runs its own.
   */
  method ReorderedResults(a: () -> JobResult, b: () -> JobResult) returns (sent: seq<WatcherMessage>)
    ensures sent == [New(b()), New(a())]
  {
    var pool := SubmitTwo(a, b);
    TakeBoth(pool, a, b);
    var ranB := pool.Finish(1);
    var ranA := pool.Finish(0);
    sent := pool.jobResults.sent;
  }

  /** A pool of two, in service, with jobs `a` and `b` queued in that order and nothing else done. */
  method SubmitTwo(a: () -> JobResult, b: () -> JobResult) returns (pool: ThreadPool)
    ensures fresh(pool) && pool.Working() && |pool.workers| == 2
    ensures pool.work.queue == [New(Job(a)), New(Job(b))] && pool.work.running == {0, 1}
    ensures pool.inFlight == [None, None] && pool.jobResults.sent == []
  {
    pool := new ThreadPool(2);
    var sentA := pool.Execute(a);
    var sentB := pool.Execute(b);
    assert 0 in Ids(2) && 1 in Ids(2);
  }

  /** Worker 0 takes the first queued job, then worker 1 the second; neither runs yet. */
  method TakeBoth(pool: ThreadPool, a: () -> JobResult, b: () -> JobResult)
    requires pool.Working() && |pool.workers| == 2
    requires pool.work.queue == [New(Job(a)), New(Job(b))] && pool.work.running == {0, 1}
    requires pool.inFlight == [None, None] && pool.jobResults.sent == []
    modifies pool
    ensures pool.Working() && |pool.workers| == 2
    ensures pool.inFlight == [Some(Job(a)), Some(Job(b))] && pool.jobResults.sent == []
  {
    var first := pool.Take(0);
    assert pool.inFlight == [Some(Job(a)), None];
    var second := pool.Take(1);
  }
}
