/**
 * The request-id middleware (file middleware/request_id.go): it takes the
 * request id from the inbound `X-Request-Id` header or generates one, echoes
 * it on the response, stores it in the request context and calls the next
 * handler; `RequestId` reads it back.
 */
module RequestIdMiddleware {
  import opened Wrappers
  import opened Headers
  import opened Ctx
  import opened Exchange

  const RequestIdHeader := "X-Request-Id"

  /**
   * The request id: the inbound header's first value when it is non-empty,
   * otherwise `generated`, the fresh identifier (a UUID) the generator returns.
   */
  function ChooseId(inbound: Header, generated: string): (id: string)
    requires generated != ""
    ensures id != ""
    ensures Get(inbound, RequestIdHeader) != "" ==> id == Get(inbound, RequestIdHeader)
    ensures Get(inbound, RequestIdHeader) == "" ==> id == generated
  {
    var fromHeader := Get(inbound, RequestIdHeader);
    if fromHeader == "" then generated else fromHeader
  }

  /** The request handed to the next handler: its context also maps the request-id key to the id. */
  function Forwarded(r: Request, generated: string): Request
    requires generated != ""
  {
    r.WithContext(WithValue(r.context, RequestIdKey, StoredString(ChooseId(r.header, generated))))
  }

  /** One request through the middleware. */
  method Serve(r: Request, w: ResponseSink, journal: Journal, generated: string)
    requires generated != ""
    modifies w, journal
    ensures w.header == Headers.Set(old(w.header), RequestIdHeader, ChooseId(r.header, generated))
    ensures w.ops == old(w.ops) + [HeaderSet(RequestIdHeader, ChooseId(r.header, generated))]
    ensures journal.events == old(journal.events)
      + [NextCalled(Forwarded(r, generated), Headers.Set(old(w.header), RequestIdHeader, ChooseId(r.header, generated)))]
  {
    var requestId := Get(r.header, RequestIdHeader);
    if requestId == "" {
      requestId := generated;
    }
    var ctx := WithValue(r.context, RequestIdKey, StoredString(requestId));
    w.Set(RequestIdHeader, requestId);
    journal.CallNext(r.WithContext(ctx), w);
  }

  /** `RequestId(ctx)`: the stored id; "" for a nil context, a missing key or a non-string value. */
  function RequestId(ctx: Option<Context>): (id: string)
    ensures ctx.Some? && RequestIdKey in ctx.value && ctx.value[RequestIdKey].StoredString? ==>
      id == ctx.value[RequestIdKey].s
    ensures ctx.None? || RequestIdKey !in ctx.value || !ctx.value[RequestIdKey].StoredString? ==> id == ""
  {
    match ctx
    case None => ""
    case Some(c) => if RequestIdKey in c && c[RequestIdKey].StoredString? then c[RequestIdKey].s else ""
  }

  /**
   * Round trip: the next handler reads back the id the middleware chose,
   * which is never empty; every other context entry is the parent's.
   */
  lemma RequestIdRoundTrip(r: Request, generated: string)
    requires generated != ""
    ensures RequestId(Some(Forwarded(r, generated).context)) == ChooseId(r.header, generated) != ""
    ensures forall k :: k != RequestIdKey ==>
      (k in Forwarded(r, generated).context <==> k in r.context)
    ensures forall k :: k != RequestIdKey && k in r.context ==> Forwarded(r, generated).context[k] == r.context[k]
    ensures Forwarded(r, generated).header == r.header
  {
  }

  /**
   * The response carries exactly `[id]` under `X-Request-Id`, whatever it held
   * before; every other header is unchanged.
   */
  lemma RequestIdEchoed(h0: Header, r: Request, generated: string)
    requires generated != ""
    ensures Values(Headers.Set(h0, RequestIdHeader, ChooseId(r.header, generated)), "X-Request-Id")
         == [RequestId(Some(Forwarded(r, generated).context))]
    ensures forall K :: K != "X-Request-Id" ==>
      Values(Headers.Set(h0, RequestIdHeader, ChooseId(r.header, generated)), K) == Values(h0, K)
  {
    assert Canon(RequestIdHeader) == "X-Request-Id";
  }

  /** The middleware test table: an inbound id is kept; without one, the generated id is used. */
  lemma ChooseIdExamples(generated: string)
    requires generated != ""
    ensures ChooseId(map["X-Request-Id" := ["test-abc"]], generated) == "test-abc"
    ensures ChooseId(map[], generated) == generated
  {
    assert Canon(RequestIdHeader) == "X-Request-Id";
  }

  /** The accessor test table. */
  lemma RequestIdExamples()
    ensures RequestId(Some(WithValue(Background, RequestIdKey, StoredString("test-123")))) == "test-123"
    ensures RequestId(Some(WithValue(Background, RequestIdKey, StoredOther("123")))) == ""
    ensures RequestId(Some(Background)) == ""
    ensures RequestId(None) == ""
  {
  }
}
