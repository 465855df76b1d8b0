/**
 * The demo server of `src/bin/symphrs.rs`: each accepted connection becomes a
 * pool job that reads the request into a 2048-byte buffer, picks a status line
 * and a template by the request's first line, writes the header followed by
 * the template's text, and hands the request and the response to the
 * watchers. The server stops accepting after its second connection.
 *
 * The socket, the files and the UTF-8 decoding are parameters: a connection is
 * the bytes its first read delivers, a template is read by `readTemplate`, and
 * `decode` stands for `String::from_utf8_lossy`.
 */
module Symphrs {
  import opened Mpsc
  import opened Thread

  newtype byte = x: int | 0 <= x < 256

  /** The size of the buffer `handle_connection` reads into. */
  const BUFFER_SIZE: nat := 2048

  /** The bytes of an ASCII string. */
  function Ascii(s: string): (bs: seq<byte>)
    requires forall i :: 0 <= i < |s| ==> s[i] as int < 128
    ensures |bs| == |s| && forall i :: 0 <= i < |s| ==> bs[i] as int == s[i] as int
  {
    seq(|s|, i requires 0 <= i < |s| => s[i] as int as byte)
  }

  const HOME_PAGE: seq<byte> := Ascii("GET / HTTP/1.1\r\n")
  const SLEEP_PAGE: seq<byte> := Ascii("GET /sleep HTTP/1.1\r\n")
  const OK_HEADERS: string := "HTTP/1.1 200 OK\r\n\r\n"
  const NOT_FOUND_HEADERS: string := "HTTP/1.1 404 Not Found\r\n\r\n"

  /** `starts_with` on bytes. */
  predicate StartsWith(bs: seq<byte>, prefix: seq<byte>)
  {
    |prefix| <= |bs| && bs[..|prefix|] == prefix
  }

  /** The response header and the template name chosen for a request. */
  datatype Route = Route(headers: string, template: string)

  /**
   * The `if`/`else if` on the buffer: the home page and the sleep page are
   * served `hello.html` with status 200, anything else `404.html` with 404.
   */
  function SelectRoute(buffer: seq<byte>): (r: Route)
    ensures StartsWith(buffer, HOME_PAGE) || StartsWith(buffer, SLEEP_PAGE) ==>
              r == Route(OK_HEADERS, "hello.html")
    ensures !StartsWith(buffer, HOME_PAGE) && !StartsWith(buffer, SLEEP_PAGE) ==>
              r == Route(NOT_FOUND_HEADERS, "404.html")
  {
    if StartsWith(buffer, HOME_PAGE) then Route(OK_HEADERS, "hello.html")
    else if StartsWith(buffer, SLEEP_PAGE) then Route(OK_HEADERS, "hello.html")
    else Route(NOT_FOUND_HEADERS, "404.html")
  }

  /** The status is 200 exactly when the template is `hello.html`. */
  lemma RouteStatusMatchesTemplate(buffer: seq<byte>)
    ensures SelectRoute(buffer).headers == OK_HEADERS <==> SelectRoute(buffer).template == "hello.html"
    ensures SelectRoute(buffer).headers == OK_HEADERS <==>
              StartsWith(buffer, HOME_PAGE) || StartsWith(buffer, SLEEP_PAGE)
  {
    assert OK_HEADERS[9] != NOT_FOUND_HEADERS[9];
    assert "hello.html"[0] != "404.html"[0];
  }

  /** No request line is both the home page and the sleep page: they differ at byte 5. */
  lemma HomeAndSleepExclusive(buffer: seq<byte>)
    ensures !(StartsWith(buffer, HOME_PAGE) && StartsWith(buffer, SLEEP_PAGE))
  {
    assert HOME_PAGE[5] != SLEEP_PAGE[5];
  }

  /** The path `File::open` receives for a template. */
  function TemplatePath(template: string): string
  {
    "templates/" + template
  }

  /**
   * The buffer after `stream.read`: the zero-filled 2048 bytes with as much
   * of the connection's bytes as fit in front.
   */
  function Buffer(input: seq<byte>): (b: seq<byte>)
    ensures |b| == BUFFER_SIZE
    ensures forall i :: 0 <= i < BUFFER_SIZE ==> b[i] == if i < |input| then input[i] else 0
  {
    seq(BUFFER_SIZE, i requires 0 <= i < BUFFER_SIZE => if i < |input| then input[i] else 0)
  }

  /**
   * A request line of at most 2048 bytes with no zero byte is at the start of
   * the buffer exactly when it is at the start of the connection's bytes.
   */
  lemma BufferStartsWith(input: seq<byte>, prefix: seq<byte>)
    requires |prefix| <= BUFFER_SIZE
    requires forall i :: 0 <= i < |prefix| ==> prefix[i] != 0
    ensures StartsWith(Buffer(input), prefix) <==> StartsWith(input, prefix)
  {
    var b := Buffer(input);
    if StartsWith(input, prefix) {
      assert b[..|prefix|] == prefix by {
        forall i | 0 <= i < |prefix|
          ensures b[i] == prefix[i]
        {
          assert input[..|prefix|][i] == input[i];
        }
      }
    }
    if StartsWith(b, prefix) {
      if |prefix| > 0 {
        // the last byte of `prefix` is not zero, so it was read from `input`
        var last := |prefix| - 1;
        assert b[..|prefix|][last] == b[last] && prefix[last] != 0;
      }
      assert input[..|prefix|] == prefix by {
        forall i | 0 <= i < |prefix|
          ensures input[i] == prefix[i]
        {
          assert b[..|prefix|][i] == b[i];
        }
      }
    }
  }

  /** What one connection produced: the text written back, and the job's result. */
  datatype Handled = Handled(written: string, result: JobResult)

  /** `handle_connection` on a connection whose first read delivers `input`. */
  function Respond(input: seq<byte>, decode: seq<byte> -> string, readTemplate: string -> string): (h: Handled)
    ensures h.result == JobResult(decode(Buffer(input)), h.written)
  {
    var buffer := Buffer(input);
    var route := SelectRoute(buffer);
    var response := route.headers + readTemplate(TemplatePath(route.template));
    Handled(response, JobResult(decode(buffer), response))
  }

  /**
   * The response, in terms of the connection's bytes: a connection that opens
   * with the home or the sleep request line is answered 200 with
   * `templates/hello.html`, any other with 404 and `templates/404.html`.
   */
  lemma RespondByRequestLine(input: seq<byte>, decode: seq<byte> -> string, readTemplate: string -> string)
    ensures StartsWith(input, HOME_PAGE) || StartsWith(input, SLEEP_PAGE) ==>
              Respond(input, decode, readTemplate).written == OK_HEADERS + readTemplate("templates/hello.html")
    ensures !StartsWith(input, HOME_PAGE) && !StartsWith(input, SLEEP_PAGE) ==>
              Respond(input, decode, readTemplate).written == NOT_FOUND_HEADERS + readTemplate("templates/404.html")
  {
    BufferStartsWith(input, HOME_PAGE);
    BufferStartsWith(input, SLEEP_PAGE);
    assert TemplatePath("hello.html") == "templates/hello.html";
    assert TemplatePath("404.html") == "templates/404.html";
  }

  /** A TCP stream: the bytes still to be read, and the text written to it. */
  class Stream {
    var input: seq<byte>
    var output: string

    constructor (input: seq<byte>)
      ensures this.input == input && output == ""
    {
      this.input := input;
      output := "";
    }

    /** `read(&mut buffer)`: as many pending bytes as fit go to the front of the buffer. */
    method Read(buffer: array<byte>) returns (n: nat)
      modifies this, buffer
      ensures n == if |old(input)| < buffer.Length then |old(input)| else buffer.Length
      ensures forall j :: 0 <= j < n ==> buffer[j] == old(input)[j]
      ensures forall j :: n <= j < buffer.Length ==> buffer[j] == old(buffer[j])
      ensures input == old(input)[n..] && output == old(output)
    {
      n := if |input| < buffer.Length then |input| else buffer.Length;
      for i := 0 to n
        invariant input == old(input) && output == old(output)
        invariant forall j :: 0 <= j < i ==> buffer[j] == input[j]
        invariant forall j :: i <= j < buffer.Length ==> buffer[j] == old(buffer[j])
      {
        buffer[i] := input[i];
      }
      input := input[n..];
    }

    /** `write(response.as_bytes())`, all of it. */
    method Write(text: string)
      modifies this
      ensures output == old(output) + text && input == old(input)
    {
      output := output + text;
    }
  }

  /**
   * `handle_connection(stream)`: read into a fresh 2048-byte buffer, choose
   * the route, read the template, write the response, and return it with the
   * decoded request.
   */
  method HandleConnection(stream: Stream, decode: seq<byte> -> string, readTemplate: string -> string)
    returns (result: JobResult)
    modifies stream
    ensures result == Respond(old(stream.input), decode, readTemplate).result
    ensures stream.output == old(stream.output) + Respond(old(stream.input), decode, readTemplate).written
  {
    ghost var input := stream.input;
    var buffer := new byte[BUFFER_SIZE](_ => 0);
    var n := stream.Read(buffer);
    assert buffer[..] == Buffer(input);
    var request := decode(buffer[..]);
    var route := SelectRoute(buffer[..]);
    var contents := readTemplate(TemplatePath(route.template));
    var response := route.headers + contents;
    stream.Write(response);
    result := JobResult(request, response);
  }

  /** What the watchers are sent for the connections `inputs`: each one's result, in order. */
  ghost function Reports(inputs: seq<seq<byte>>, decode: seq<byte> -> string, readTemplate: string -> string)
    : (ms: seq<WatcherMessage>)
  {
    seq(|inputs|, i requires 0 <= i < |inputs| => New(Respond(inputs[i], decode, readTemplate).result))
  }

  /** `sent` are the jobs `main` submitted for the connections `inputs`, in order. */
  ghost predicate Submitted(sent: seq<Message>, inputs: seq<seq<byte>>,
                            decode: seq<byte> -> string, readTemplate: string -> string)
  {
    && |sent| == |inputs|
    && forall i :: 0 <= i < |sent| ==>
         sent[i].New? && sent[i].payload.callback() == Respond(inputs[i], decode, readTemplate).result
  }

  lemma SubmittedNext(sent: seq<Message>, inputs: seq<seq<byte>>, job: Job, input: seq<byte>,
                      decode: seq<byte> -> string, readTemplate: string -> string)
    requires Submitted(sent, inputs, decode, readTemplate)
    requires job.callback() == Respond(input, decode, readTemplate).result
    ensures Submitted(sent + [New(job)], inputs + [input], decode, readTemplate)
  {
  }

  /** The jobs submitted for `inputs` forward exactly their reports. */
  lemma SubmittedReports(sent: seq<Message>, inputs: seq<seq<byte>>,
                         decode: seq<byte> -> string, readTemplate: string -> string)
    requires Submitted(sent, inputs, decode, readTemplate)
    ensures ResultsOf(sent) == Reports(inputs, decode, readTemplate)
  {
    ResultsOfJobs(sent, seq(|inputs|, i requires 0 <= i < |inputs| => Respond(inputs[i], decode, readTemplate).result));
  }

  lemma TakeNext<T>(s: seq<T>, k: nat)
    requires k < |s|
    ensures s[..k] + [s[k]] == s[..k + 1]
  {
    assert s[..k] + [s[k]] == s[..k + 1];
  }

  /**
   * `main`: a pool of 4, one job per accepted connection, and no more
   * connections accepted after the second. `incoming` holds the bytes of the
   * connections the listener would accept, in order; after each submission
   * the pool's threads run the steps `schedule` gives (none when it is
   * shorter). The pool is dropped when `main` returns. `reported` is what the
   * watchers received, in order: each accepted connection's result exactly
   * once, in whatever order the workers finished the jobs, then one
   * `Terminate` per watcher.
   */
  method Serve(incoming: seq<seq<byte>>, schedule: seq<seq<Turn>>,
               decode: seq<byte> -> string, readTemplate: string -> string)
    returns (accepted: nat, ghost reported: seq<WatcherMessage>)
    ensures accepted == if |incoming| < 2 then |incoming| else 2
    ensures DeliveredOnce(reported, Reports(incoming[..accepted], decode, readTemplate), 4)
  {
    var pool := new ThreadPool(4);
    accepted := Accept(pool, incoming, schedule, decode, readTemplate);
    ghost var submitted := pool.work.sent;
    pool.Drop();
    reported := Messages(pool.jobResults.received);
    SubmittedReports(submitted, incoming[..accepted], decode, readTemplate);
  }

  /** The accept loop of `main`: `counter` counts the jobs submitted; it stops at 2. */
  method Accept(pool: ThreadPool, incoming: seq<seq<byte>>, schedule: seq<seq<Turn>>,
                decode: seq<byte> -> string, readTemplate: string -> string)
    returns (counter: nat)
    requires pool.Valid() && |pool.workers| == 4 && |pool.work.sent| == 0
    modifies pool
    ensures pool.Valid() && |pool.workers| == 4
    ensures counter == if |incoming| < 2 then |incoming| else 2
    ensures Submitted(pool.work.sent, incoming[..counter], decode, readTemplate)
  {
    counter := 0;
    for k := 0 to |incoming|
      invariant pool.Valid() && |pool.workers| == 4
      invariant counter == k && k < 2
      invariant Submitted(pool.work.sent, incoming[..k], decode, readTemplate)
    {
      Submit(pool, incoming, k, if k < |schedule| then schedule[k] else [], decode, readTemplate);
      counter := counter + 1;
      if counter >= 2 {
        break;
      }
    }
  }

  /**
   * `pool.execute(|| handle_connection(stream))` for one connection, after
   * which the pool's threads take the steps `steps`.
   */
  method Submit(pool: ThreadPool, incoming: seq<seq<byte>>, k: nat, steps: seq<Turn>,
                decode: seq<byte> -> string, readTemplate: string -> string)
    requires pool.Valid() && |pool.workers| == 4 && k < |incoming|
    requires Submitted(pool.work.sent, incoming[..k], decode, readTemplate)
    modifies pool
    ensures pool.Valid() && |pool.workers| == 4
    ensures Submitted(pool.work.sent, incoming[..k + 1], decode, readTemplate)
  {
    var input := incoming[k];
    var job := () => Respond(input, decode, readTemplate).result;
    ghost var sentBefore := pool.work.sent;
    var sent := pool.Execute(job);
    SubmittedNext(sentBefore, incoming[..k], Job(job), input, decode, readTemplate);
    TakeNext(incoming, k);
    pool.Run(steps);
  }
}
