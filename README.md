# symphrs in Dafny

This project models the core of `symphrs`, a small Rust web server built around a two-stage thread pool. It has three parts.

- **The thread pool** (`thread.dfy`, over the channel model in `mpsc.dfy`).
  - `ThreadPool::new(size)` spawns `size` workers on a shared job channel and `size` watchers on a shared result channel.
  - `execute` queues a `NewJob` whose boxed closure (`FnBox::call_box`) runs the callback and forwards its `JobResult` to the watchers.
  - A worker loops on `recv`. It runs each job it takes and leaves its loop on its first `Terminate`. A watcher does the same with results.
  - Dropping the pool has four steps. It sends one `Terminate` per worker, then joins every worker. It then sends one `Terminate` per watcher, then joins every watcher.
  - Threads are not real here. A thread's state is whether it is still inside its receive loop.
  - A worker's iteration is two steps, as in the source: `Take` receives a message under the lock (`src/thread.rs:122`), and `Finish` runs the job after the lock is released (`src/thread.rs:127`), which sends its result. In between, the job is *in flight* in the worker's slot (`inFlight`), and other threads may step. So results reach the watchers in no fixed order, and the pool's invariant counts, for each result, how often it was sent plus how often it is in flight.
  - A watcher's iteration is one step (`WatcherStep`). Who takes the next message is up to the schedule.
  - A `join` runs only the joined thread's own steps until it has left its loop. This is one chosen interleaving; the other threads make no progress meanwhile.
- **The event dispatcher** (`events.dfy`, `dispatcher.dfy`).
  - `Event` and `GetResponseEvent` carry a propagation flag. It starts cleared and `stop_propagation` sets it.
  - `EventDispatcher::dispatch` calls the listeners registered under a name, in order. Its loop breaks when propagation is *not* stopped after a call (`src/event_dispatcher/mod.rs:47`). So:
    - the first listener is always called;
    - if the event is left stopped, every later listener is called as well;
    - otherwise dispatch ends after the first.
  - `Propagate` states this outcome as a function. `PropagateOutcome` and `CalledPrefix` give its closed form.
- **The server binary** (`symphrs.dfy`).
  - `handle_connection` reads the request into a 2048-byte zero-filled buffer.
  - It answers `HTTP/1.1 200 OK` with `templates/hello.html` when the buffer starts with `GET / HTTP/1.1\r\n` or `GET /sleep HTTP/1.1\r\n`, and `HTTP/1.1 404 Not Found` with `templates/404.html` otherwise.
  - It writes the headers followed by the template and returns a `JobResult` of the decoded request and the response.
  - `main` makes a pool of 4, submits one job per accepted connection, and stops accepting after the second. The pool is dropped when `main` returns.
  - `Serve` proves the end-to-end result: the watchers receive the result of each accepted connection exactly once, in any order (a sleep request finishes later than a home request submitted after it), followed by four `Terminate`s.

A note on `ThreadPool::new(0)`. Its guard `if size == 0 { let size = 1; }` (`src/thread.rs:29-31`) binds a new local that nothing uses, so the size stays 0. The model follows the code: a pool of size 0 has no workers, no watchers and a closed job channel. `Execute` makes this visible as `sent == false`, which is exactly where `send(job).unwrap()` would panic. A reader might expect the pool to be raised to one worker. The code does not do that.

The modules are `Wrappers` (Option), `Mpsc`, `Thread`, `Events`, `Dispatcher` and `Symphrs`. Every file is verified together.

## Model

| member | source | states |
|---|---|---|
| Mpsc.Ids | src/thread.rs:37-39 | the consumer ids spawned by a loop `for id in 0..n` are exactly the ids below n, n of them |
| Mpsc.Open | src/thread.rs:34 | `mpsc::channel()`: nothing queued or logged and no consumer yet; `OpenServing` gives its discipline |
| Mpsc.Spawn | src/thread.rs:37-38 | a spawned consumer holds a clone of the receiver, so the channel is connected; the queue and the logs are untouched |
| Mpsc.Send | src/thread.rs:64-67 | `send` appends to the queue and to the log of what was sent while some consumer holds the receiver, and changes nothing otherwise; `SendKeepsInvariant` gives its discipline |
| Mpsc.Recv | src/thread.rs:122 | `recv` by a running consumer takes the oldest message and logs it as received by that consumer, which leaves its loop on `Terminate`; `RecvKeepsInvariant` gives its discipline |
| Mpsc.RecvKeepsInvariant | src/thread.rs:121-136 | one receive by a running consumer keeps the channel FIFO (everything sent was received once, in order, or is still queued) and keeps every consumer's history stopping at its first `Terminate` |
| Mpsc.ServingRecv | src/thread.rs:121-129 | while the pool is in service, a receive returns a payload (`NewJob`), no consumer leaves its loop, and the channel stays in service |
| Mpsc.ClosingRecv | src/thread.rs:121-136 | after the `Terminate`s are queued, a running consumer always finds a message, so `recv` does not block, and a receive keeps the shutdown shape (payloads, then one `Terminate` per running consumer) |
| Mpsc.RecvKeepsPhase | src/thread.rs:122 | a receive by a running consumer keeps the channel discipline, and keeps a channel in service in service and a shutting-down one in its shutdown shape |
| Mpsc.TerminatesClose | src/thread.rs:73-75 | sending one `Terminate` per consumer to a channel in service appends them behind every pending message and yields the shutdown shape, keeping the channel discipline |
| Mpsc.SendKeepsInvariant | src/thread.rs:67 | a send keeps the channel FIFO and every consumer's history |
| Mpsc.SendPayloadServing | src/thread.rs:64 | sending a payload keeps a channel in service |
| Mpsc.OpenServing | src/thread.rs:33-47 | a fresh channel with n spawned consumers satisfies the discipline and is in service |
| Mpsc.DrainedChannel | src/thread.rs:79-99 | once every consumer has left its loop in the shutdown shape, the queue is empty, every message sent was received exactly once in order, and every consumer received exactly one `Terminate` |
| Mpsc.StoppedAtFirstCountsOne | src/thread.rs:130-134 | a consumer that stopped at its first `Terminate` received exactly one |
| Thread.CallBox | src/thread.rs:61-65 | running a boxed job calls its callback and sends the result to the watchers when a watcher still holds the receiver; the failed send is ignored otherwise; nothing else changes |
| Thread.ResultsOfTerminates | src/thread.rs:130-134 | `Terminate` messages forward no result |
| Thread.ResultsOfJobs | src/thread.rs:62-65 | jobs whose callbacks return rs, in order, forward exactly rs, in order |
| Thread.NewWorker | src/thread.rs:116-143 | `Worker::new` keeps the id and the thread handle, and spawning worker id after workers 0..id-1 keeps the job channel in service with consumers 0..id |
| Thread.NewWatcher | src/thread.rs:157-183 | `Watcher::new` likewise, on the result channel |
| Thread.ForwardedTake | src/thread.rs:122-125 | a worker holding no job that takes a `NewJob` puts that job's result in flight; taking `Terminate` puts nothing in flight: each result taken is still forwarded once |
| Thread.ForwardedFinish | src/thread.rs:127 | running the job a worker holds moves its one result from the jobs in flight to the results sent |
| Thread.ForwardedIdle | src/thread.rs:79-85 | with no job in flight, the results sent are exactly those of the jobs taken, each once, in some order |
| Thread.DeliveredEitherOrder | src/thread.rs:122-127 | since a worker runs its job outside the lock, two results delivered in either order both count as each delivered once |
| Thread.ReorderedResults | src/thread.rs:122-127 | a run the pool can take: with two workers, worker 0 takes the first job and worker 1 the second, worker 1 finishes first, and the results are sent in the reverse of the submission order |
| Thread.InFlightUpdate | src/thread.rs:122-127 | changing one worker's slot changes the results in flight by that slot's result only |
| Thread.TakeKeeps | src/thread.rs:122-134 | one `recv` by a worker holding no job keeps both channels' discipline, the forwarding relation and the phase (in service or closing); only running workers hold jobs |
| Thread.FinishKeeps | src/thread.rs:125-128 | `call_box` on the job a worker holds sends its result to the watchers, which are all in service, keeps both channels' discipline and the forwarding relation, and empties the worker's slot |
| Thread.ShutdownAt | src/thread.rs:71-101 | step i of `drop` is a worker `Terminate`, a worker join of id i-n, a watcher `Terminate` or a watcher join, by position |
| Thread.ShutdownOrder | src/thread.rs:71-101 | every step on the workers precedes every step on the watchers; on each side all `Terminate`s precede all joins; no handle is joined twice and every worker and watcher is joined |
| Thread.WorkersStopped | src/thread.rs:79-85 | once the job channel is closing and every worker has left its loop, the queue is drained, every message was received once in order, each worker took one `Terminate`, and no job is in flight |
| Thread.ResultsForwarded | src/thread.rs:79-85 | once no job is in flight and the workers took the submitted jobs and the `Terminate`s, the results sent to the watchers are those of the submitted jobs, each exactly once, in some order |
| Thread.SpawnWorkers | src/thread.rs:33-39 | `size` workers numbered 0..size-1, each with its handle, on a fresh job channel whose running consumers are exactly those ids |
| Thread.SpawnWatchers | src/thread.rs:41-47 | `size` watchers numbered 0..size-1, each with its handle, on a fresh result channel whose running consumers are exactly those ids |
| Thread.ThreadPool.constructor | src/thread.rs:28-55 | `new(size)` makes `size` workers and `size` watchers (none for size 0, since the guard does not change `size`) on fresh channels in service |
| Thread.ThreadPool.Execute | src/thread.rs:57-68 | one `NewJob` wrapping the callback is appended to the job queue and to what was sent; it is not sent exactly when no worker exists, where the source's `unwrap` panics; nothing else changes |
| Thread.ThreadPool.Run | src/thread.rs:120-137 | any interleaving of worker and watcher loop steps keeps the pool valid (each taken job's result sent once or still in flight with a running worker), sends no job, and only extends the logs of both channels |
| Thread.ThreadPool.WorkerStep | src/thread.rs:121-136 | one step of worker id: holding a job, it runs it and sends its result; otherwise a running worker takes the oldest message (a job goes in flight, `Terminate` ends its loop); it blocks on an empty queue; it keeps the pool's invariant and the phase |
| Thread.ThreadPool.Take | src/thread.rs:122 | `receiver.lock().unwrap().recv()` by a worker holding no job takes the oldest message into its slot; the lock is released before the job runs |
| Thread.ThreadPool.Finish | src/thread.rs:127 | `job.call_box()` outside the lock appends that job's result to what the watchers were sent and empties the worker's slot |
| Thread.ThreadPool.WatcherStep | src/thread.rs:159-176 | a running watcher takes the oldest result or `Terminate`, leaving its loop on `Terminate`; nothing is sent; it keeps the result channel's discipline and phase |
| Thread.ThreadPool.Receive | src/thread.rs:160 | `recv` by a watcher in its loop takes the oldest message, leaves the job channel and the jobs in flight alone, and keeps the result channel's discipline and phase |
| Thread.ThreadPool.Drop | src/thread.rs:71-101 | after `drop`: all handles taken, no thread still in its loop, both queues empty, no job in flight; every submitted job and one `Terminate` per worker received exactly once in order; the watchers received the result of every submitted job exactly once, then one `Terminate` each, and what they received is exactly what was sent to them, in the order it was sent, which is the order the workers finished the jobs; the shutdown steps are exactly `ShutdownTrace` |
| Thread.ThreadPool.StopWorkers | src/thread.rs:73-85 | the first two loops of `drop`: workers terminated and joined, every job run, no job left in flight, and each job's result forwarded exactly once, with the result channel still in service |
| Thread.ThreadPool.StopWatchers | src/thread.rs:89-99 | the last two loops of `drop`: the watchers received everything sent to them, in the order it was sent, then stopped and were joined |
| Thread.ThreadPool.TerminateWorkers | src/thread.rs:73-75 | one `Terminate` per worker is sent; the job channel reaches its shutdown shape |
| Thread.ThreadPool.JoinWorkers | src/thread.rs:79-85 | each worker's handle is taken and joined by id; afterwards no worker is in its loop |
| Thread.ThreadPool.JoinWorkerSlot | src/thread.rs:82-84 | `thread.take()` on slot i leaves `None` and the joined worker i has left its loop |
| Thread.ThreadPool.JoinWorker | src/thread.rs:83 | `join` returns once worker id has finished the job it held and left its loop; running workers only decrease |
| Thread.ThreadPool.TerminateWatchers | src/thread.rs:89-91 | one `Terminate` per watcher is sent; the result channel reaches its shutdown shape |
| Thread.ThreadPool.JoinWatchers | src/thread.rs:93-99 | each watcher's handle is taken and joined by id; afterwards no watcher is in its loop |
| Thread.ThreadPool.JoinWatcherSlot | src/thread.rs:96-98 | `thread.take()` on slot i leaves `None` and the joined watcher i has left its loop |
| Thread.ThreadPool.JoinWatcher | src/thread.rs:97 | `join` returns once watcher id has left its loop |
| Events.Event.constructor | src/event_dispatcher/event/mod.rs:11-13 | a new event is not stopped |
| Events.Event.StopPropagation | src/event_dispatcher/event/mod.rs:21-23 | afterwards `is_propagation_stopped` holds |
| Events.Event.IsPropagationStopped | src/event_dispatcher/event/mod.rs:17-19 | `is_propagation_stopped` reads the flag and changes nothing |
| Events.GetResponseEvent.constructor | src/event_dispatcher/event/mod.rs:33-39 | a new response event is not stopped, holds the request and has no response |
| Events.GetResponseEvent.StopPropagation | src/event_dispatcher/event/mod.rs:47-49 | afterwards the event is stopped; the request and the response are left alone |
| Events.GetResponseEvent.IsPropagationStopped | src/event_dispatcher/event/mod.rs:43-45 | likewise for the response event |
| Events.TestEvent | src/event_dispatcher/event/mod.rs:56-72 | the test's assertions hold: a fresh `Event` and a fresh `GetResponseEvent` on `"ping"` are not stopped, and are after `stop_propagation` |
| Dispatcher.EventListener.Call | src/event_dispatcher/mod.rs:15-18 | calling a listener leaves the flag as `Stopped` says: a stopped event stays stopped, and an unstopped one is stopped exactly when the callback stops it |
| Dispatcher.Propagate | src/event_dispatcher/mod.rs:44-50 | the number of listeners called is at most their count, and at least one when there is any |
| Dispatcher.PropagateStopped | src/event_dispatcher/mod.rs:44-50 | on a stopped event every listener is called and the event stays stopped |
| Dispatcher.PropagateOutcome | src/event_dispatcher/mod.rs:43-51 | closed form: no call without listeners; all of them when the first leaves the event stopped; only the first otherwise |
| Dispatcher.CalledPrefix | src/event_dispatcher/mod.rs:44-50 | the listeners called stop at the first one after which propagation is not stopped: every earlier call left it stopped, and the final flag is the last call's |
| Dispatcher.EventDispatcher.Dispatch | src/event_dispatcher/mod.rs:42-52 | the calls made and the final flag are exactly `Propagate` on the listeners registered under the name |
| Dispatcher.NewDispatcher | src/event_dispatcher/mod.rs:36-38 | a new dispatcher has no listener under any name |
| Dispatcher.UnknownNameDoesNothing | src/event_dispatcher/mod.rs:43 | dispatching a name with no entry calls nobody and leaves the flag |
| Symphrs.RouteStatusMatchesTemplate | src/bin/symphrs.rs:41-48 | the status is 200 exactly when the template is `hello.html` |
| Symphrs.HomeAndSleepExclusive | src/bin/symphrs.rs:38-39 | no buffer starts with both request lines |
| Symphrs.BufferStartsWith | src/bin/symphrs.rs:33-41 | for a prefix without zero bytes, the buffer starts with it exactly when the connection's bytes do |
| Symphrs.Respond | src/bin/symphrs.rs:32-59 | the job's result pairs the decoded buffer with exactly the text written back |
| Symphrs.RespondByRequestLine | src/bin/symphrs.rs:41-56 | the response is `200 OK` followed by the contents of the file `templates/hello.html` for the home and sleep requests, and `404 Not Found` followed by the contents of `templates/404.html` for anything else |
| Symphrs.Stream.constructor | src/bin/symphrs.rs:17-18 | an accepted stream holds the connection's bytes and nothing written |
| Symphrs.Stream.Read | src/bin/symphrs.rs:34 | `read` copies as many pending bytes as fit to the front of the buffer, leaves the rest of it, and consumes them |
| Symphrs.Stream.Write | src/bin/symphrs.rs:56 | `write` appends the whole text to what the stream was sent |
| Symphrs.HandleConnection | src/bin/symphrs.rs:32-59 | the imperative handler returns `Respond`'s result and writes exactly `Respond`'s text to the stream |
| Symphrs.SubmittedReports | src/bin/symphrs.rs:20-22 | the jobs submitted for the connections forward exactly their reports |
| Symphrs.Submit | src/bin/symphrs.rs:20-22 | `pool.execute` on a closure calling `handle_connection` adds one job that yields that connection's result |
| Symphrs.Accept | src/bin/symphrs.rs:15-29 | the accept loop submits the first min(2, n) connections, in order, and stops |
| Symphrs.Serve | src/bin/symphrs.rs:12-30 | `main` accepts min(2, n) connections, and after the pool is dropped the watchers have received the result of each accepted connection exactly once, in whatever order the workers finished, then four `Terminate`s |

## Left out

- Real threads, the `Mutex` around each receiver and blocking are not modelled. A thread is represented by its id being in `running`. The interleaving is a parameter of `Run` only (its schedule). A `join` in `drop` is a fixed choice: it steps only the joined thread, until that thread has left its loop.
- `println!` output is left out: the workers' and watchers' progress lines, the watcher's print-out of each result, and `drop`'s messages.
- The sleeps are left out: `thread::sleep` of 1 s in the watcher and of 8 s for the sleep page, because time only changes when things happen.
- The TCP listener, the file system and UTF-8 decoding are outside the model. A connection is the bytes its first read delivers, `readTemplate` stands for reading `templates/<name>`, and `decode` stands for `String::from_utf8_lossy`.
- Symphrs.Stream.Read: delivers every pending byte that fits in one call. A real `read` may return fewer bytes, and `handle_connection` reads once; a short read can split the request line, so a home or sleep request would be answered 404. That case is not modelled.
- Symphrs.Stream.Write: appends the whole text. `handle_connection` calls `write`, not `write_all`, and ignores the count returned, so part of the response may be lost; that case is not modelled. `flush` is left out, and so is an accept that fails (`stream.unwrap()`).
- The stream that each job writes to is not modelled in `Serve`. The job abstracts a connection as its bytes, and its writing is shown per stream by `HandleConnection`.
- The job callbacks, `readTemplate` and `decode` are total here. In the source, `handle_connection` calls `unwrap` on the read, `File::open`, `read_to_string`, `write` and `flush` (`src/bin/symphrs.rs:34-57`); a panicking job kills its worker, and `join().unwrap()` in `drop` (`src/thread.rs:83`) then panics too. None of these panics are modelled.
- The `unwrap`s on `lock` and `recv` (`src/thread.rs:122`, `:160`) cannot fail, so they are not modelled. The lock is never poisoned, because its guard is dropped at the end of line 122, before `call_box` runs the job. `recv` fails only once every `Sender` is dropped. The pool's `sender` and `job_result_sender` live until `drop` has joined every thread, and each job not yet run holds its own clone of the result sender.
- Thread.ThreadPool.Execute: returns `sent == false` where `send(job).unwrap()` would panic on a pool of size 0, instead of aborting.
- Symphrs.Serve: `incoming` is a finite sequence, but the source's `listener.incoming()` never ends. With fewer than 2 connections, `main` blocks in `accept` forever and never drops the pool. So for n < 2, `Serve`'s ensures describe an exit that the source never reaches. The pool of 4 is built with `ThreadPool::new(4)`, whose `unwrap` cannot fail.
- The traits `EventStopable`, `ListenerCallable`, `Dispatchable` and `FnBox` are not used. Their implementations are modelled directly.
- Dispatcher.EventDispatcher.Dispatch: it is stated for `Event`. On `GetResponseEvent` the loop reads and sets the same flag in the same way.
- Dispatcher.EventListener.Call: a listener callback is modelled by what it can observe and do to the event: given the name and the flag, whether it stops propagation. `EventListener::new` is the datatype constructor.
- `GetResponseEvent` holds the request and the response by value rather than as `&mut String` references.
- The test helper `test_event_stopable` appears as the assertions of `Events.TestEvent`.
- `src/http_kernel.rs` and `src/event_dispatcher.rs` are not part of this model.
