/**
 * The handler adapter (file pkg/http/handler/handler.go): it turns a function
 * from request to `Response` into an HTTP handler that writes the returned
 * response to the sink, and logs, rather than returns, a failed write.
 */
module Handler {
  import opened Wrappers
  import opened Headers
  import opened Logging
  import opened Exchange
  import opened ResponseModel
  import LoggerMiddleware

  /** The records the adapter leaves for one request whose response write reported `err`. */
  function Events(r: Request, err: Option<ErrorMsg>): seq<Event>
  {
    WriteFailureLog(LoggerMiddleware.Logger(Some(r.context)), err)
  }

  /** `New(handler)` serving one request; `order` is the header iteration order `WriteTo` used. */
  method Serve(handler: Request -> Response, r: Request, w: ResponseSink, journal: Journal, encode: Encoder)
    returns (ghost order: seq<string>)
    modifies w, journal
    ensures IsEnumeration(order, handler(r).OwnHeaders().Keys)
    ensures w.header == handler(r).HeadersAfter(old(w.header), order)
    ensures w.ops == old(w.ops) + handler(r).WriteOps(order, encode)
    ensures journal.events == old(journal.events) + Events(r, handler(r).WriteError(encode, w.writeError))
  {
    var resp := handler(r);
    var err;
    err, order := resp.WriteTo(w, encode);
    if err.Some? {
      var log := LoggerMiddleware.Logger(Some(r.context));
      journal.Log(log, ErrorLevel, WriteFailedMessage, [Field("error", ErrorValue(err.value))]);
    }
  }

  /**
   * The adapter logs one error record, carrying the error, exactly when the
   * write failed and the context holds a logger; nothing else is logged and
   * the next handler is never called. Without a logger in the context a
   * failure is silently dropped.
   */
  lemma ErrorLoggedIffWriteFails(r: Request, err: Option<ErrorMsg>)
    ensures var l := LoggerMiddleware.Logger(Some(r.context));
      CountLogged(Events(r, err), ErrorLevel, WriteFailedMessage) == (if l.Zap? && err.Some? then 1 else 0)
    ensures |Events(r, err)| == (if LoggerMiddleware.Logger(Some(r.context)).Zap? && err.Some? then 1 else 0)
    ensures err.Some? && |Events(r, err)| == 1 ==>
      var fs := Events(r, err)[0].fields;
      fs[|fs| - 1] == Field("error", ErrorValue(err.value))
    ensures CountNext(Events(r, err)) == 0
  {
    var es := Events(r, err);
    if es != [] {
      assert es[..0] == [];
    }
  }

  /** The adapter's test table: `New(200, "test body")` on a sink whose write succeeds or fails. */
  lemma HandlerExamples(r: Request, fields: seq<Field>, h0: Header, order: seq<string>, encode: Encoder, writeError: Option<ErrorMsg>)
    requires LoggerMiddleware.Logger(Some(r.context)) == Zap(fields)
    requires IsEnumeration(order, New(200, TestBody).OwnHeaders().Keys)
    ensures New(200, TestBody).WriteOps(order, encode)
         == [HeaderSet(ContentTypeHeader, ContentTypePlainText), StatusWritten(200), BodyWritten(TestBody)]
    ensures CountLogged(Events(r, New(200, TestBody).WriteError(encode, writeError)), ErrorLevel, WriteFailedMessage)
         == (if writeError.Some? then 1 else 0)
  {
    WriteNew(h0, 200, TestBody, order, encode, writeError);
    ErrorLoggedIffWriteFails(r, New(200, TestBody).WriteError(encode, writeError));
  }

  /** The bytes of "test body". */
  const TestBody: Bytes := [0x74, 0x65, 0x73, 0x74, 0x20, 0x62, 0x6f, 0x64, 0x79]
}
