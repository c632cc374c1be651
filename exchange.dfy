/**
 * What a handler sees of one HTTP exchange: the inbound request, the response
 * sink it writes to (Go's `http.ResponseWriter`) and a journal that records,
 * in order, the log records emitted and the calls made to the next handler in
 * the middleware chain.
 */
module Exchange {
  import opened Wrappers
  import opened Headers
  import opened Logging
  import opened Ctx

  type Bytes = seq<bv8>

  /** The parts of `*http.Request` the middleware reads. */
  datatype Request = Request(
    header: Header,
    context: Context,
    proto: string,
    httpMethod: string,
    requestUri: string,
    remoteAddr: string)
  {
    /** `r.UserAgent()`: the first `User-Agent` header value. */
    function UserAgent(): string
    {
      Get(header, "User-Agent")
    }

    /** `r.WithContext(c)`: the same request carrying another context. */
    function WithContext(c: Context): (r: Request)
      ensures r.context == c
      ensures r.header == header && r.proto == proto && r.httpMethod == httpMethod
      ensures r.requestUri == requestUri && r.remoteAddr == remoteAddr
    {
      this.(context := c)
    }
  }

  /** One call made on the response sink. */
  datatype SinkOp =
    | HeaderAdded(key: string, value: string)
    | HeaderSet(key: string, value: string)
    | StatusWritten(code: int)
    | BodyWritten(bytes: Bytes)
  {
    predicate IsHeaderOp()
    {
      HeaderAdded? || HeaderSet?
    }
  }

  /** Number of `WriteHeader` calls in a sequence of sink calls. */
  function StatusWrites(ops: seq<SinkOp>): nat
  {
    if ops == [] then 0
    else StatusWrites(ops[..|ops| - 1]) + (if ops[|ops| - 1].StatusWritten? then 1 else 0)
  }

  lemma {:induction false} StatusWritesAppend(a: seq<SinkOp>, b: seq<SinkOp>)
    ensures StatusWrites(a + b) == StatusWrites(a) + StatusWrites(b)
  {
    if b != [] {
      assert (a + b)[..|a + b| - 1] == a + b[..|b| - 1];
      StatusWritesAppend(a, b[..|b| - 1]);
    } else {
      assert a + b == a;
    }
  }

  /**
   * The response sink: its header store, every call made on it so far, and
   * the error every body write reports (`None` for a healthy connection).
   */
  class ResponseSink {
    var header: Header
    var ops: seq<SinkOp>
    const writeError: Option<ErrorMsg>

    constructor (header0: Header, writeError: Option<ErrorMsg>)
      ensures header == header0 && ops == [] && this.writeError == writeError
    {
      header := header0;
      ops := [];
      this.writeError := writeError;
    }

    /** `w.Header().Add(k, v)` */
    method Add(k: string, v: string)
      modifies this
      ensures header == Headers.Add(old(header), k, v)
      ensures ops == old(ops) + [HeaderAdded(k, v)]
    {
      header := Headers.Add(header, k, v);
      ops := ops + [HeaderAdded(k, v)];
    }

    /** `w.Header().Set(k, v)` */
    method Set(k: string, v: string)
      modifies this
      ensures header == Headers.Set(old(header), k, v)
      ensures ops == old(ops) + [HeaderSet(k, v)]
    {
      header := Headers.Set(header, k, v);
      ops := ops + [HeaderSet(k, v)];
    }

    /** `w.WriteHeader(code)` */
    method WriteHeader(code: int)
      modifies this
      ensures header == old(header)
      ensures ops == old(ops) + [StatusWritten(code)]
    {
      ops := ops + [StatusWritten(code)];
    }

    /** `w.Write(b)`: the bytes are handed to the connection, which answers with `writeError`. */
    method Write(b: Bytes) returns (err: Option<ErrorMsg>)
      modifies this
      ensures header == old(header)
      ensures ops == old(ops) + [BodyWritten(b)]
      ensures err == writeError
    {
      ops := ops + [BodyWritten(b)];
      err := writeError;
    }
  }

  /** What happened during the handling of a request, in order. */
  datatype Event =
    | Logged(level: Level, message: string, fields: seq<Field>)
    | NextCalled(request: Request, header: Header)  // with the writer's headers at that moment

  /** The records a log call leaves: none from the no-op logger, one carrying the logger's fields otherwise. */
  function Emit(l: Logger, level: Level, message: string, extra: seq<Field>): (es: seq<Event>)
    ensures |es| <= 1
    ensures l.Nop? <==> es == []
  {
    match l
    case Nop => []
    case Zap(fs) => [Logged(level, message, fs + extra)]
  }

  const WriteFailedMessage := "Unable to write response"

  /** The error record logged when writing a response reported `err`; nothing when it reported none. */
  function WriteFailureLog(l: Logger, err: Option<ErrorMsg>): seq<Event>
  {
    match err
    case None => []
    case Some(e) => Emit(l, ErrorLevel, WriteFailedMessage, [Field("error", ErrorValue(e))])
  }

  /** Number of records with the given level and message. */
  function CountLogged(es: seq<Event>, level: Level, message: string): nat
  {
    if es == [] then 0
    else
      var e := es[|es| - 1];
      CountLogged(es[..|es| - 1], level, message)
        + (if e.Logged? && e.level == level && e.message == message then 1 else 0)
  }

  /** Number of calls to the next handler. */
  function CountNext(es: seq<Event>): nat
  {
    if es == [] then 0 else CountNext(es[..|es| - 1]) + (if es[|es| - 1].NextCalled? then 1 else 0)
  }

  lemma {:induction false} CountAppend(a: seq<Event>, b: seq<Event>, level: Level, message: string)
    ensures CountLogged(a + b, level, message) == CountLogged(a, level, message) + CountLogged(b, level, message)
    ensures CountNext(a + b) == CountNext(a) + CountNext(b)
  {
    if b != [] {
      assert (a + b)[..|a + b| - 1] == a + b[..|b| - 1];
      CountAppend(a, b[..|b| - 1], level, message);
    } else {
      assert a + b == a;
    }
  }

  /** The log trace and the record of calls to the next handler. */
  class Journal {
    var events: seq<Event>

    constructor ()
      ensures events == []
    {
      events := [];
    }

    /** `l.Debug/Info/Error(message, extra...)` */
    method Log(l: Logger, level: Level, message: string, extra: seq<Field>)
      modifies this
      ensures events == old(events) + Emit(l, level, message, extra)
    {
      events := events + Emit(l, level, message, extra);
    }

    /**
     * `next.ServeHTTP(w, r)`: control passes to the rest of the chain with
     * request `r`, and sees the headers set on `w` so far.
     */
    method CallNext(r: Request, w: ResponseSink)
      modifies this
      ensures events == old(events) + [NextCalled(r, w.header)]
    {
      events := events + [NextCalled(r, w.header)];
    }
  }
}
