/**
 * A model of the `mpsc` channel the thread pool uses, with its receiving end
 * shared (through `Arc<Mutex<Receiver>>`) by a fixed set of consumer threads.
 *
 * Both channels of the pool carry the same two-case message: a payload, or
 * the order to leave the receive loop (`Message::NewJob` / `Message::Terminate`
 * for workers, `WatcherMessage::NewJobResult` / `WatcherMessage::Terminate`
 * for watchers). Threads are not modelled: a `Recv` is one iteration of one
 * consumer's loop, and which consumer takes the next message is chosen by the
 * caller (in the pool, nondeterministically among the running consumers).
 */
module Mpsc {

  /** A message on one of the pool's channels. */
  datatype Envelope<P> = New(payload: P) | Terminate

  /** One `recv` that returned a message to consumer thread `consumer`. */
  datatype Receipt<P> = Receipt(consumer: nat, message: Envelope<P>)

  /**
   * A channel and the consumer loops attached to its receiver. `queue` is what
   * was sent and not yet received; `running` holds the ids of the consumer
   * threads still inside their loop (each owns a clone of the receiver);
   * `sent` and `received` record every successful send and every receive.
   */
  datatype Channel<P> = Channel(
    queue: seq<Envelope<P>>,
    running: set<nat>,
    sent: seq<Envelope<P>>,
    received: seq<Receipt<P>>)

  /** The ids 0 .. n-1. */
  function Ids(n: nat): (s: set<nat>)
    ensures forall i: nat :: i in s <==> i < n
    ensures |s| == n
  {
    if n == 0 then {} else Ids(n - 1) + {n - 1}
  }

  /** `mpsc::channel()`: nothing queued, no consumer yet. */
  function Open<P>(): Channel<P>
  {
    Channel([], {}, [], [])
  }

  /** A consumer thread with id `id` is spawned with a clone of the receiver. */
  function Spawn<P>(c: Channel<P>, id: nat): (r: Channel<P>)
    ensures Connected(r) && id in r.running && c.running <= r.running
    ensures r.queue == c.queue && r.sent == c.sent && r.received == c.received
  {
    c.(running := c.running + {id})
  }

  /**
   * The receiver is alive while some consumer thread still holds it; once all
   * of them have left their loops it is dropped and `send` returns an error.
   */
  predicate Connected<P>(c: Channel<P>)
  {
    c.running != {}
  }

  /** `Sender::send`: appends to the queue, or drops the message when disconnected. */
  function Send<P>(c: Channel<P>, m: Envelope<P>): Channel<P>
  {
    if Connected(c) then c.(queue := c.queue + [m], sent := c.sent + [m]) else c
  }

  /** `k` successive sends of `Terminate`. */
  function SendTerminates<P>(c: Channel<P>, k: nat): Channel<P>
  {
    if k == 0 then c else Send(SendTerminates(c, k - 1), Terminate)
  }

  /**
   * Consumer `w` takes the oldest queued message; on `Terminate` it leaves its
   * loop, on a payload it stays in it.
   */
  function Recv<P>(c: Channel<P>, w: nat): Channel<P>
    requires w in c.running && |c.queue| > 0
  {
    Channel(c.queue[1..],
            if c.queue[0].Terminate? then c.running - {w} else c.running,
            c.sent,
            c.received + [Receipt(w, c.queue[0])])
  }

  // ---------------------------------------------------------------------
  // Views of the logs

  /** The messages of a run of receipts, in the order they were received. */
  ghost function Messages<P>(rs: seq<Receipt<P>>): (ms: seq<Envelope<P>>)
  {
    seq(|rs|, i requires 0 <= i < |rs| => rs[i].message)
  }

  /** The messages consumer `w` received, in order. */
  ghost function TakenBy<P>(rs: seq<Receipt<P>>, w: nat): seq<Envelope<P>>
  {
    if |rs| == 0 then []
    else TakenBy(rs[..|rs| - 1], w) + (if rs[|rs| - 1].consumer == w then [rs[|rs| - 1].message] else [])
  }

  ghost predicate NoTerminate<P>(s: seq<Envelope<P>>)
  {
    forall i :: 0 <= i < |s| ==> s[i].New?
  }

  ghost function Terminates<P>(n: nat): (s: seq<Envelope<P>>)
  {
    seq(n, _ => Terminate)
  }

  ghost function TerminateCount<P>(s: seq<Envelope<P>>): nat
  {
    if |s| == 0 then 0
    else TerminateCount(s[..|s| - 1]) + (if s[|s| - 1].Terminate? then 1 else 0)
  }

  /** A consumer's history ends with its first `Terminate`. */
  ghost predicate StoppedAtFirst<P>(s: seq<Envelope<P>>)
  {
    |s| > 0 && s[|s| - 1].Terminate? && NoTerminate(s[..|s| - 1])
  }

  // ---------------------------------------------------------------------
  // Invariants

  /** Every message sent was either received exactly once, in sending order, or is still queued. */
  ghost predicate Fifo<P>(c: Channel<P>)
  {
    Messages(c.received) + c.queue == c.sent
  }

  /**
   * Each of the `n` consumers runs its loop until its first `Terminate`: a
   * running consumer has received no `Terminate`, a stopped one received
   * exactly one, as its last message, and received nothing after it.
   */
  ghost predicate StopAtFirstTerminate<P>(c: Channel<P>, n: nat)
  {
    && (forall w :: w in c.running ==> w < n)
    && (forall w: nat :: w < n && w in c.running ==> NoTerminate(TakenBy(c.received, w)))
    && (forall w: nat :: w < n && w !in c.running ==> StoppedAtFirst(TakenBy(c.received, w)))
  }

  /** The channel discipline every state of the pool keeps. */
  ghost predicate Consumers<P>(c: Channel<P>, n: nat)
  {
    Fifo(c) && StopAtFirstTerminate(c, n)
  }

  /** The pool is in service: all `n` consumers run and only payloads are queued. */
  ghost predicate Serving<P>(c: Channel<P>, n: nat)
  {
    && c.running == Ids(n)
    && NoTerminate(c.queue)
    && (n == 0 ==> |c.queue| == 0)
  }

  /**
   * The pool is shutting down: the queue holds payloads followed by one
   * `Terminate` per consumer still running, and no consumer has stopped
   * while payloads remain ahead of the `Terminate`s.
   */
  ghost predicate Closing<P>(c: Channel<P>, n: nat)
  {
    var k := |c.running|;
    && k <= |c.queue|
    && NoTerminate(c.queue[..|c.queue| - k])
    && c.queue[|c.queue| - k..] == Terminates(k)
    && (|c.queue| > k ==> k == n && n > 0)
  }

  // ---------------------------------------------------------------------
  // Lemmas

  lemma MessagesAppend<P>(rs: seq<Receipt<P>>, r: Receipt<P>)
    ensures Messages(rs + [r]) == Messages(rs) + [r.message]
  {
    assert Messages(rs + [r]) == Messages(rs) + [r.message];
  }

  lemma TakenByAppend<P>(rs: seq<Receipt<P>>, r: Receipt<P>, w: nat)
    ensures TakenBy(rs + [r], w) == TakenBy(rs, w) + (if r.consumer == w then [r.message] else [])
  {
    assert (rs + [r])[..|rs|] == rs;
  }

  /** One receive keeps the channel FIFO and every consumer stopping at its first `Terminate`. */
  lemma {:induction false} RecvKeepsInvariant<P>(c: Channel<P>, w: nat, n: nat)
    requires Consumers(c, n)
    requires w in c.running && |c.queue| > 0
    ensures Consumers(Recv(c, w), n)
  {
    var r := Recv(c, w);
    var head := c.queue[0];
    MessagesAppend(c.received, Receipt(w, head));
    assert c.queue == [head] + c.queue[1..];
    forall v: nat | v < n
      ensures v in r.running ==> NoTerminate(TakenBy(r.received, v))
      ensures v !in r.running ==> StoppedAtFirst(TakenBy(r.received, v))
    {
      TakenByAppend(c.received, Receipt(w, head), v);
      if v == w {
        var s := TakenBy(c.received, w);
        assert (s + [head])[..|s|] == s;
      }
    }
  }

  /** One receive keeps the channel discipline and the phase, in service or shutting down. */
  lemma RecvKeepsPhase<P>(c: Channel<P>, w: nat, n: nat)
    requires Consumers(c, n) && w in c.running && |c.queue| > 0
    ensures Consumers(Recv(c, w), n)
    ensures Serving(c, n) ==> Serving(Recv(c, w), n)
    ensures Closing(c, n) ==> Closing(Recv(c, w), n)
  {
    RecvKeepsInvariant(c, w, n);
    if Serving(c, n) {
      ServingRecv(c, w, n);
    }
    if Closing(c, n) {
      ClosingRecv(c, w, n);
    }
  }

  /** A consumer that stopped at its first `Terminate` received exactly one. */
  lemma {:induction false} StoppedAtFirstCountsOne<P>(s: seq<Envelope<P>>)
    requires StoppedAtFirst(s)
    ensures TerminateCount(s) == 1
  {
    NoTerminateCountsZero(s[..|s| - 1]);
  }

  lemma {:induction false} NoTerminateCountsZero<P>(s: seq<Envelope<P>>)
    requires NoTerminate(s)
    ensures TerminateCount(s) == 0
  {
    if |s| > 0 {
      NoTerminateCountsZero(s[..|s| - 1]);
    }
  }

  /** In service, a receive takes a payload, so no consumer stops and the pool stays in service. */
  lemma ServingRecv<P>(c: Channel<P>, w: nat, n: nat)
    requires Serving(c, n) && w in c.running && |c.queue| > 0
    ensures c.queue[0].New? && Serving(Recv(c, w), n)
  {
  }

  /**
   * While shutting down, a running consumer always finds a message (there is a
   * `Terminate` for it), and a receive keeps the shutdown shape.
   */
  lemma ClosingRecv<P>(c: Channel<P>, w: nat, n: nat)
    requires Closing(c, n) && w in c.running
    ensures |c.queue| > 0
    ensures Closing(Recv(c, w), n)
  {
    var k := |c.running|;
    var r := Recv(c, w);
    assert |c.queue| >= k >= 1;
    if c.queue[0].Terminate? {
      assert |c.queue| == k;
      assert r.queue == c.queue[1..];
      assert r.queue[..|r.queue| - (k - 1)] == [];
      assert r.queue[|r.queue| - (k - 1)..] == Terminates(k - 1);
    } else {
      assert |c.queue| > k;
      assert r.queue[..|r.queue| - k] == c.queue[1..|c.queue| - k];
      assert r.queue[|r.queue| - k..] == c.queue[|c.queue| - k..];
    }
  }

  lemma {:induction false} SendTerminatesShape<P>(c: Channel<P>, k: nat)
    requires Connected(c)
    ensures SendTerminates(c, k) == c.(queue := c.queue + Terminates(k), sent := c.sent + Terminates(k))
  {
    if k > 0 {
      SendTerminatesShape(c, k - 1);
      assert Terminates<P>(k - 1) + [Terminate] == Terminates(k);
      assert c.queue + Terminates(k - 1) + [Terminate] == c.queue + Terminates(k);
      assert c.sent + Terminates(k - 1) + [Terminate] == c.sent + Terminates(k);
    }
  }

  /**
   * Sending one `Terminate` per consumer to a pool in service queues them
   * behind every pending payload, which is the shutdown shape.
   */
  lemma TerminatesClose<P>(c: Channel<P>, n: nat)
    requires Serving(c, n)
    ensures SendTerminates(c, n).running == c.running && SendTerminates(c, n).received == c.received
    ensures SendTerminates(c, n).queue == c.queue + Terminates(n)
    ensures SendTerminates(c, n).sent == c.sent + Terminates(n)
    ensures Closing(SendTerminates(c, n), n)
    ensures Consumers(c, n) ==> Consumers(SendTerminates(c, n), n)
  {
    var d := SendTerminates(c, n);
    if n > 0 {
      assert n - 1 in c.running;
      SendTerminatesShape(c, n);
      assert d.queue[..|d.queue| - n] == c.queue;
      assert d.queue[|d.queue| - n..] == Terminates(n);
      assert Messages(d.received) + d.queue == (Messages(c.received) + c.queue) + Terminates(n);
    } else {
      assert d == c;
      assert c.queue == [];
    }
  }

  /** Spawning consumer `id` after consumers 0 .. id-1. */
  lemma SpawnNext<P>(id: nat)
    ensures Spawn(Open<P>().(running := Ids(id)), id) == Open<P>().(running := Ids(id + 1))
  {
  }

  /** `n` consumers spawned on a fresh channel: nothing sent, nothing received, all in service. */
  lemma OpenServing<P>(n: nat)
    ensures Consumers(Open<P>().(running := Ids(n)), n) && Serving(Open<P>().(running := Ids(n)), n)
  {
  }

  /** Sending keeps the channel FIFO and the consumers' histories. */
  lemma SendKeepsInvariant<P>(c: Channel<P>, m: Envelope<P>, n: nat)
    requires Consumers(c, n)
    ensures Consumers(Send(c, m), n)
  {
  }

  /** Sending a payload keeps a channel in service. */
  lemma SendPayloadServing<P>(c: Channel<P>, m: Envelope<P>, n: nat)
    requires Serving(c, n) && m.New?
    ensures Serving(Send(c, m), n)
  {
  }

  /**
   * The counting argument: when every consumer has stopped, the shutdown
   * shape forces the queue to be empty, so every message sent was received
   * exactly once and in order, and every consumer received exactly one
   * `Terminate`.
   */
  lemma DrainedChannel<P>(c: Channel<P>, n: nat)
    requires Consumers(c, n) && Closing(c, n)
    requires c.running == {}
    ensures |c.queue| == 0
    ensures Messages(c.received) == c.sent
    ensures forall w: nat :: w < n ==> TerminateCount(TakenBy(c.received, w)) == 1
  {
    assert c.queue == c.queue[..|c.queue| - 0];
    forall w: nat | w < n
      ensures TerminateCount(TakenBy(c.received, w)) == 1
    {
      StoppedAtFirstCountsOne(TakenBy(c.received, w));
    }
  }
}
