/**
 * The JSON-payload guard (file pkg/http/middleware/assert_json_payload.go):
 * a request whose `Content-Type` is not exactly `application/json` is
 * answered with a 415 error response and goes no further down the chain.
 */
module AssertJsonPayload {
  import opened Wrappers
  import opened Headers
  import opened Logging
  import opened Exchange
  import opened ResponseModel
  import ResponseError
  import Status
  import LoggerMiddleware

  const UnexpectedMessage := "Unexpected Content-Type provided"

  /** Whether the request passes the guard. */
  predicate Accepts(r: Request)
  {
    Get(r.header, ContentTypeHeader) == ContentTypeJson
  }

  /** The response written to a rejected request. */
  function Rejection(): Response
  {
    ResponseError.NewError(Status.UnsupportedMediaType).JsonResponse()
  }

  /** The records a rejection leaves: the debug record, then the error record if the write failed. */
  function RejectEvents(r: Request, encode: Encoder, writeError: Option<ErrorMsg>): seq<Event>
  {
    var l := LoggerMiddleware.Logger(Some(r.context));
    Emit(l, DebugLevel, UnexpectedMessage, [Field(ContentTypeHeader, StringValue(Get(r.header, ContentTypeHeader)))])
      + WriteFailureLog(l, Rejection().WriteError(encode, writeError))
  }

  /** What the guard records for one request. */
  function Events(r: Request, h: Header, encode: Encoder, writeError: Option<ErrorMsg>): seq<Event>
  {
    if Accepts(r) then [NextCalled(r, h)] else RejectEvents(r, encode, writeError)
  }

  /** One request through the guard. */
  method Serve(r: Request, w: ResponseSink, journal: Journal, encode: Encoder)
    modifies w, journal
    ensures Accepts(r) ==> w.header == old(w.header) && w.ops == old(w.ops)
    ensures !Accepts(r) ==> w.header == Rejection().HeadersAfter(old(w.header), [])
    ensures !Accepts(r) ==> w.ops == old(w.ops) + Rejection().WriteOps([], encode)
    ensures journal.events == old(journal.events) + Events(r, old(w.header), encode, w.writeError)
  {
    if Get(r.header, ContentTypeHeader) != ContentTypeJson {
      Reject(r, w, journal, encode);
      return;
    }
    journal.CallNext(r, w);
  }

  /** The rejection path: log, write the 415 response, log a failed write. */
  method Reject(r: Request, w: ResponseSink, journal: Journal, encode: Encoder)
    modifies w, journal
    ensures w.header == Rejection().HeadersAfter(old(w.header), [])
    ensures w.ops == old(w.ops) + Rejection().WriteOps([], encode)
    ensures journal.events == old(journal.events) + RejectEvents(r, encode, w.writeError)
  {
    var log := LoggerMiddleware.Logger(Some(r.context));
    journal.Log(log, DebugLevel, UnexpectedMessage, [Field(ContentTypeHeader, StringValue(Get(r.header, ContentTypeHeader)))]);
    var err, order := Rejection().WriteTo(w, encode);
    assert order == [];
    if err.Some? {
      journal.Log(log, ErrorLevel, WriteFailedMessage, [Field("error", ErrorValue(err.value))]);
    }
  }

  /**
   * The next handler is called exactly when the request is accepted, with
   * the request unchanged, and at most once.
   */
  lemma NextIffAccepted(r: Request, h: Header, encode: Encoder, writeError: Option<ErrorMsg>)
    ensures CountNext(Events(r, h, encode, writeError)) == (if Accepts(r) then 1 else 0)
    ensures forall i :: 0 <= i < |Events(r, h, encode, writeError)| && Events(r, h, encode, writeError)[i].NextCalled? ==>
      Events(r, h, encode, writeError)[i].request == r && Events(r, h, encode, writeError)[i].header == h
  {
    if !Accepts(r) {
      var l := LoggerMiddleware.Logger(Some(r.context));
      var debug := Emit(l, DebugLevel, UnexpectedMessage, [Field(ContentTypeHeader, StringValue(Get(r.header, ContentTypeHeader)))]);
      var failure := WriteFailureLog(l, Rejection().WriteError(encode, writeError));
      CountAppend(debug, failure, DebugLevel, UnexpectedMessage);
      assert debug == [] || debug[..0] == [];
      assert failure == [] || failure[..0] == [];
    }
  }

  /**
   * A rejection always logs one debug record carrying the offending value,
   * and one error record exactly when writing the 415 response failed;
   * the no-op logger records nothing.
   */
  lemma RejectionLogs(r: Request, h: Header, encode: Encoder, writeError: Option<ErrorMsg>)
    requires !Accepts(r)
    ensures var es := Events(r, h, encode, writeError);
      var failed := Rejection().WriteError(encode, writeError).Some?;
      LoggerMiddleware.Logger(Some(r.context)).Zap? ==>
        && CountLogged(es, DebugLevel, UnexpectedMessage) == 1
        && CountLogged(es, ErrorLevel, WriteFailedMessage) == (if failed then 1 else 0)
        && |es| == (if failed then 2 else 1)
        && es[0].fields[|es[0].fields| - 1] == Field(ContentTypeHeader, StringValue(Get(r.header, ContentTypeHeader)))
    ensures LoggerMiddleware.Logger(Some(r.context)).Nop? ==> Events(r, h, encode, writeError) == []
  {
    var l := LoggerMiddleware.Logger(Some(r.context));
    var debug := Emit(l, DebugLevel, UnexpectedMessage, [Field(ContentTypeHeader, StringValue(Get(r.header, ContentTypeHeader)))]);
    var failure := WriteFailureLog(l, Rejection().WriteError(encode, writeError));
    CountAppend(debug, failure, DebugLevel, UnexpectedMessage);
    CountAppend(debug, failure, ErrorLevel, WriteFailedMessage);
    assert debug == [] || debug[..0] == [];
    assert failure == [] || failure[..0] == [];
  }

  /**
   * The response written to a rejected request: `Content-Type:
   * application/json`, status 415, then the encoded error body.
   */
  lemma RejectionWritten(h0: Header, encode: Encoder, writeError: Option<ErrorMsg>)
    ensures Rejection().statusCode == 415
    ensures Rejection().HeadersAfter(h0, []) == Headers.Set(h0, ContentTypeHeader, ContentTypeJson)
    ensures Get(Rejection().HeadersAfter(h0, []), ContentTypeHeader) == "application/json"
    ensures var body := ResponseError.ErrorBody(ResponseError.NewError(415)).ToJson();
      Rejection().WriteOps([], encode)
        == [HeaderSet(ContentTypeHeader, ContentTypeJson), StatusWritten(415)]
         + (if encode(body).Success? then [BodyWritten(encode(body).value)] else [])
    ensures StatusWrites(Rejection().WriteOps([], encode)) == 1
  {
    var body := ResponseError.ErrorBody(ResponseError.NewError(415)).ToJson();
    WriteNewJson(h0, 415, Some(body), [], encode, writeError);
    WriteOrdering(Rejection(), [], encode);
    CanonContentType();
  }

  /** The guard's test table, and the parameterised media type it also refuses. */
  lemma AcceptsExamples(r: Request)
    ensures !Accepts(r.(header := map[]))
    ensures !Accepts(r.(header := map["Content-Type" := ["text/plain"]]))
    ensures !Accepts(r.(header := map["Content-Type" := ["application/json; charset=utf-8"]]))
    ensures Accepts(r.(header := map["Content-Type" := ["application/json"]]))
  {
    CanonContentType();
  }
}
