/**
 * The logging middleware (file pkg/http/middleware/logger.go): it derives a
 * per-request logger carrying the request's details, logs the start of the
 * request, stores the logger in the request context, calls the next handler
 * and logs the completion once that handler returns. `LoggerOrError` and
 * `Logger` read the logger back.
 */
module LoggerMiddleware {
  import opened Wrappers
  import opened Headers
  import Logging
  import opened Ctx
  import opened Exchange
  import RequestIdMiddleware

  const ErrNilContext := "context is required"
  const ErrLoggerNotFound := "logger not found within context"
  const StartedMessage := "Request started"
  const CompleteMessage := "Request complete"

  /** The fixed request fields, in the order the logger carries them. */
  function RequestFields(r: Request): (fs: seq<Logging.Field>)
    ensures |fs| == 5
    ensures fs[0].key == "http_proto" && fs[1].key == "http_method" && fs[2].key == "request_uri"
    ensures fs[3].key == "remote_addr" && fs[4].key == "user_agent"
    ensures fs[0].value == Logging.StringValue(r.proto) && fs[1].value == Logging.StringValue(r.httpMethod)
    ensures fs[2].value == Logging.StringValue(r.requestUri) && fs[3].value == Logging.StringValue(r.remoteAddr)
    ensures fs[4].value == Logging.StringValue(Get(r.header, "User-Agent"))
  {
    [ Logging.Field("http_proto", Logging.StringValue(r.proto)),
      Logging.Field("http_method", Logging.StringValue(r.httpMethod)),
      Logging.Field("request_uri", Logging.StringValue(r.requestUri)),
      Logging.Field("remote_addr", Logging.StringValue(r.remoteAddr)),
      Logging.Field("user_agent", Logging.StringValue(r.UserAgent())) ]
  }

  /**
   * The per-request logger: the base logger's fields, then the five request
   * fields, then `request_id` exactly when the context holds a non-empty id.
   */
  function RequestLogger(base: Logging.Logger, r: Request): (l: Logging.Logger)
    ensures l.Nop? <==> base.Nop?
    ensures base.Zap? ==>
      var id := RequestIdMiddleware.RequestId(Some(r.context));
      var n := |base.fields|;
      && |l.fields| == n + 5 + (if id != "" then 1 else 0)
      && l.fields[..n] == base.fields
      && l.fields[n..n + 5] == RequestFields(r)
      && (id != "" ==> l.fields[n + 5] == Logging.Field("request_id", Logging.StringValue(id)))
  {
    var l := base.With(RequestFields(r));
    var id := RequestIdMiddleware.RequestId(Some(r.context));
    if id != "" then l.With([Logging.Field("request_id", Logging.StringValue(id))]) else l
  }

  /** The request handed to the next handler: its context also maps the logger key to the per-request logger. */
  function Forwarded(base: Logging.Logger, r: Request): Request
  {
    r.WithContext(WithValue(r.context, LoggerKey, StoredLogger(RequestLogger(base, r))))
  }

  /** What one request through the middleware records: start, the call to next, completion. */
  function Events(base: Logging.Logger, r: Request, h: Header): seq<Event>
  {
    var l := RequestLogger(base, r);
    Emit(l, Logging.InfoLevel, StartedMessage, [])
      + [NextCalled(Forwarded(base, r), h)]
      + Emit(l, Logging.InfoLevel, CompleteMessage, [])
  }

  /** One request through the middleware. */
  method Serve(base: Logging.Logger, r: Request, w: ResponseSink, journal: Journal)
    modifies journal
    ensures journal.events == old(journal.events) + Events(base, r, w.header)
  {
    var requestLog := base.With(RequestFields(r));
    var requestId := RequestIdMiddleware.RequestId(Some(r.context));
    if requestId != "" {
      requestLog := requestLog.With([Logging.Field("request_id", Logging.StringValue(requestId))]);
    }
    journal.Log(requestLog, Logging.InfoLevel, StartedMessage, []);
    var ctx := WithValue(r.context, LoggerKey, StoredLogger(requestLog));
    journal.CallNext(r.WithContext(ctx), w);
    // the deferred completion record
    journal.Log(requestLog, Logging.InfoLevel, CompleteMessage, []);
  }

  /** `LoggerOrError(ctx)`: the stored logger, or an error for a nil context, a missing key or a non-logger value. */
  function LoggerOrError(ctx: Option<Context>): (res: Result<Logging.Logger, ErrorMsg>)
    ensures ctx.None? ==> res == Failure(ErrNilContext)
    ensures ctx.Some? && res.Failure? ==> res.error == ErrLoggerNotFound
    ensures res.Success? <==> ctx.Some? && LoggerKey in ctx.value && ctx.value[LoggerKey].StoredLogger?
    ensures res.Success? ==> res.value == ctx.value[LoggerKey].logger
  {
    match ctx
    case None => Failure(ErrNilContext)
    case Some(c) =>
      if LoggerKey in c && c[LoggerKey].StoredLogger? then Success(c[LoggerKey].logger)
      else Failure(ErrLoggerNotFound)
  }

  /** `Logger(ctx)`: never fails; the stored logger, or the no-op logger when there is none. */
  function Logger(ctx: Option<Context>): (l: Logging.Logger)
    ensures LoggerOrError(ctx).Success? ==> l == LoggerOrError(ctx).value
    ensures LoggerOrError(ctx).Failure? ==> l == Logging.Nop
  {
    match LoggerOrError(ctx)
    case Success(log) => log
    case Failure(_) => Logging.Nop
  }

  /**
   * Downstream handlers find the per-request logger in their context, and
   * still find the request id the middleware was given.
   */
  lemma LoggerRoundTrip(base: Logging.Logger, r: Request)
    ensures LoggerOrError(Some(Forwarded(base, r).context)) == Success(RequestLogger(base, r))
    ensures Logger(Some(Forwarded(base, r).context)) == RequestLogger(base, r)
    ensures RequestIdMiddleware.RequestId(Some(Forwarded(base, r).context))
         == RequestIdMiddleware.RequestId(Some(r.context))
  {
  }

  /**
   * The next handler is called exactly once. With a real logger, exactly one
   * start record precedes that call and exactly one completion record
   * follows it; the no-op logger records nothing.
   */
  lemma EventOrder(base: Logging.Logger, r: Request, h: Header)
    ensures CountNext(Events(base, r, h)) == 1
    ensures base.Nop? ==> Events(base, r, h) == [NextCalled(Forwarded(base, r), h)]
    ensures base.Zap? ==>
      var es := Events(base, r, h);
      && |es| == 3
      && es[0].Logged? && es[0].message == StartedMessage
      && es[1] == NextCalled(Forwarded(base, r), h)
      && es[2].Logged? && es[2].message == CompleteMessage
      && CountLogged(es, Logging.InfoLevel, StartedMessage) == 1
      && CountLogged(es, Logging.InfoLevel, CompleteMessage) == 1
  {
    var l := RequestLogger(base, r);
    assert Events(base, r, h) == Framed(l, NextCalled(Forwarded(base, r), h));
    FramedCounts(l, NextCalled(Forwarded(base, r), h));
  }

  /** A call to next between a start and a completion record of the logger `l`. */
  function Framed(l: Logging.Logger, next: Event): seq<Event>
  {
    Emit(l, Logging.InfoLevel, StartedMessage, []) + [next] + Emit(l, Logging.InfoLevel, CompleteMessage, [])
  }

  lemma FramedCounts(l: Logging.Logger, next: Event)
    requires next.NextCalled?
    ensures CountNext(Framed(l, next)) == 1
    ensures l.Nop? ==> Framed(l, next) == [next]
    ensures l.Zap? ==>
      var es := Framed(l, next);
      && |es| == 3
      && es[0].Logged? && es[0].message == StartedMessage
      && es[1] == next
      && es[2].Logged? && es[2].message == CompleteMessage
      && CountLogged(es, Logging.InfoLevel, StartedMessage) == 1
      && CountLogged(es, Logging.InfoLevel, CompleteMessage) == 1
  {
    var started := Emit(l, Logging.InfoLevel, StartedMessage, []);
    var complete := Emit(l, Logging.InfoLevel, CompleteMessage, []);
    CountAppend(started, [next], Logging.InfoLevel, StartedMessage);
    CountAppend(started + [next], complete, Logging.InfoLevel, StartedMessage);
    CountAppend(started, [next], Logging.InfoLevel, CompleteMessage);
    CountAppend(started + [next], complete, Logging.InfoLevel, CompleteMessage);
    assert [next][..0] == [];
    if l.Zap? {
      assert started[..0] == [] && complete[..0] == [];
    }
  }

  /**
   * Placing the request-id middleware before this one puts the chosen id on
   * every record of the per-request logger.
   */
  lemma ChainAttachesRequestId(base: Logging.Logger, r: Request, generated: string)
    requires generated != ""
    requires base.Zap?
    ensures var l := RequestLogger(base, RequestIdMiddleware.Forwarded(r, generated));
      l.fields[|l.fields| - 1]
        == Logging.Field("request_id", Logging.StringValue(RequestIdMiddleware.ChooseId(r.header, generated)))
  {
    RequestIdMiddleware.RequestIdRoundTrip(r, generated);
  }

  /** The accessor test tables. */
  lemma LoggerExamples(fields: seq<Logging.Field>)
    ensures LoggerOrError(Some(WithValue(Background, LoggerKey, StoredLogger(Logging.Zap(fields)))))
         == Success(Logging.Zap(fields))
    ensures LoggerOrError(Some(WithValue(Background, LoggerKey, StoredString("not a logger")))).Failure?
    ensures LoggerOrError(Some(Background)).Failure?
    ensures LoggerOrError(None).Failure?
    ensures Logger(Some(Background)) == Logging.Nop
  {
  }
}
