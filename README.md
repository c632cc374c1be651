# ello-golang-http, modelled in Dafny

This project models the core of `ello-golang-http`, a small Go toolkit for
HTTP servers. The core has two parts:

- **The response value.** `Response` holds a status code, a raw body, a
  body still to be JSON-encoded, a content type and a header map. It is built
  by `New`, `NewJson` and `NewNoContent` and adjusted by `WithContentType`
  and `WithHeader`. `WriteTo` writes it onto a response writer. The 415 error
  body comes from `NewError(...).JsonResponse()`.
- **The middleware chain.** The request-id middleware picks or generates an
  id, echoes it on the response and stores it in the request context. The
  logging middleware builds a per-request logger from the request's details,
  logs the start and completion of the request, and stores the logger in the
  context. The JSON-payload guard answers any request whose `Content-Type` is
  not exactly `application/json` with a 415 error. The handler adapter writes
  the response a handler function returns and logs a failed write.

It also covers the two query validators. They check each rule against the
first value of its parameter and collect the failures.

How the model is laid out:

- **Response writer.** This is the class `Exchange.ResponseSink`. Its header
  map is updated in place by `Add` and `Set`. Every call is also recorded in
  an `ops` trace, so the order of header, status and body writes can be
  stated.
- **Logging and the next handler.** The log records and the calls to the
  next handler go into one ordered trace, the class `Exchange.Journal`.
  Calling the next handler is recorded as a `NextCalled(request, header)`
  event carrying the request it was given and the writer's header store at
  that moment, so a middleware's contract can say which headers it set
  before handing on. What the next handler itself writes or logs is not
  modelled: each middleware's contract describes its own writes and
  records, and the writer state it states is the state its own calls leave.
- **Request context.** The context is a map from keys to stored values. A nil
  context is `None`. The stored values are a string, a logger or anything
  else, so the typed lookups of `RequestId` and `LoggerOrError` can fail the
  way Go's type assertions do.
- **Go map iteration order.** Go leaves this order unspecified. `WriteTo`,
  `AddEach` and `Query.Validator.Validate` pick the next key
  nondeterministically. `WriteTo` returns the order it used as a ghost value,
  and its lemmas hold for every such order.
- **Outside collaborators.** The JSON encoder (`Encoder`), the validation
  engine (`Query.Var`) and the UUID generator (the `generated` argument, a
  non-empty string) are parameters.
- **Header names.** Net/http's canonical header-key form is `Headers.Canon`,
  its ASCII case rule. Header names compare case-insensitively (section 5.1
  of RFC 9110), and `Canon` is what makes that so.

One rule of `WriteTo` differs from what its contract might suggest. The
model follows the code:

- **Content-Type default.** One might expect `WriteTo` to set `Content-Type`
  from the attribute only when the *writer's* header store lacks one,
  matched case-insensitively. The code (response/response.go:78) instead asks
  the *response's own* header map, through `Get("Content-Type")`. `Get` looks
  only under the canonical key `Content-Type`. So a value the response holds
  under a raw key such as `content-type` is written, then overwritten by the
  attribute (`ResponseModel.RawContentTypeKeyReplaced`). In that case a
  `Content-Type` already on the writer before `WriteTo` is also replaced.

## Model

| member | source | states |
|---|---|---|
| ResponseModel.New | response/response.go:20-27 | a plain-text response with the given status and raw body, no decoded body, an empty non-nil header map |
| ResponseModel.NewJson | response/response.go:30-37 | a JSON response carrying the decoded body, no raw body, an empty non-nil header map |
| ResponseModel.NewNoContent | response/response.go:40-45 | a response with only a status, no content type and an empty non-nil header map |
| ResponseModel.Response.Clone | response/response.go:47-55 | the copy equals the original in every field |
| ResponseModel.Response.WithContentType | response/response.go:57-61 | the copy has the new content type and every other field unchanged |
| ResponseModel.Response.WithHeader | response/response.go:63-67 | the copy has the value appended under the canonical name, every other name untouched, every other field unchanged; a nil map is excluded because Go panics on it |
| ResponseModel.Response.WriteTo | response/response.go:69-100 | for the map order used: the writer's headers become `HeadersAfter`, the calls made are header adds, an optional Content-Type set, one status write, then at most one body write; the error returned is the encoder's failure or the writer's write error |
| ResponseModel.Response.WriteHeaders | response/response.go:70-80 | every header value is added in map order, then Content-Type is set from the attribute exactly when the attribute is non-empty and the response's own headers have no Content-Type |
| ResponseModel.Response.AddOwnHeaders | response/response.go:71-77 | the header loop runs over the response's own map, and does nothing for a nil map |
| ResponseModel.Response.SetDefaultContentType | response/response.go:78-80 | `Content-Type` is set to the attribute exactly when the attribute is non-empty and the response's own headers have no Content-Type; otherwise the writer is untouched |
| ResponseModel.Response.WriteBody | response/response.go:85-99 | the JSON-encoded decoded body for a JSON response that has one, else the raw body if non-empty, else nothing; the matching error |
| ResponseModel.AddEach | response/response.go:71-77 | the keys are visited in some enumeration of the map; the writer's headers gain every value of every key, in that order |
| ResponseModel.AddValuesOf | response/response.go:73-75 | each value of one key is added to the writer in order |
| ResponseModel.AddOpsAreHeaderOps | response/response.go:71-77 | the header loop makes only header calls |
| ResponseModel.WriteOrdering | response/response.go:78-96 | exactly one status write; every header call precedes it; a body write can only be the last call |
| ResponseModel.ContentTypeDefaulted | response/response.go:78-80 | with a non-empty attribute and no own Content-Type, the writer's Content-Type is exactly the attribute |
| ResponseModel.ContentTypeNotDefaulted | response/response.go:78-80 | with an empty attribute or an own Content-Type, the writer's Content-Type is what it held plus the response's own values |
| ResponseModel.HeaderContentTypeWins | response/response.go:71-80 | a Content-Type header on the response is written and never replaced by the attribute |
| ResponseModel.HeadersAdded | response/response.go:71-77 | every other header name receives its earlier values plus all of the response's values for names with that canonical form |
| ResponseModel.BodySelection | response/response.go:85-99 | which body is written and which error is returned, in each of the three cases |
| ResponseModel.EncoderUnusedUnlessJson | response/response.go:86-91 | the encoder affects nothing unless the response is JSON with a decoded body |
| ResponseModel.ErrorOnlyFromBody | response/response.go:86-99 | an error comes only from a failed encoding that wrote nothing or from the single body write |
| ResponseModel.WriteNew | response/response.go:69-100 | writing `New(s, b)` sets `Content-Type: text/plain`, writes `s`, then `b` when it is non-empty |
| ResponseModel.WriteNewJson | response/response.go:69-100 | writing `NewJson(s, v)` sets `Content-Type: application/json`, writes `s`, then the encoding of `v` when `v` is not nil |
| ResponseModel.WriteNewNoContent | response/response.go:69-100 | writing `NewNoContent(s)` writes the status only, with no header change and no error |
| ResponseModel.WithHeaderIsWritten | response/response.go:63-77 | for a response whose header names are canonical, a header added with `WithHeader` under a name other than `Content-Type` reaches the writer after the writer's old values and the values already on the response under that name |
| ResponseModel.HeadersWrittenCanonically | pkg/http/response/response_test.go:31-45 | lower-case header names reach the writer as `Header-One` and `Header-Two`, values in order, for every map order |
| ResponseModel.RawContentTypeKeyReplaced | response/response.go:78-80 | for example, a value under the raw key `content-type` is invisible to `Get`: it is added, then `Set` replaces it by the attribute, leaving only the attribute |
| ResponseError.ErrorDetails.WithCode | response/error.go:18-25 | only the code changes |
| ResponseError.ErrorDetails.WithMessage | response/error.go:27-34 | only the message changes |
| ResponseError.ErrorDetails.WithMeta | response/error.go:36-43 | only the meta value changes |
| ResponseError.ErrorDetails.JsonResponse | response/error.go:45-49 | a JSON response with the details' status whose decoded body is the `error` envelope |
| ResponseError.ErrorBody.ToJson | response/error.go:8-16 | a one-member object `error` holding status, code, message and meta under their JSON names |
| ResponseError.NewError | response/error.go:52-59 | status as given, message the status text, code its slug, meta null |
| ResponseError.Slugify | response/error.go:61-63 | same length; spaces become `_`, ASCII upper-case letters become lower case, every other character is kept |
| ResponseError.SlugifyIdempotent | response/error.go:61-63 | slugifying twice is slugifying once |
| ResponseError.SlugifyFixesSlugs | response/error.go:61-63 | a string with no space and no upper-case letter is its own slug |
| ResponseError.SlugifyExamples | response/error_test.go:17-31 | `abc`, `aBc` and `aBc  DeF` slugify to `abc`, `abc` and `abc__def` |
| ResponseError.UnsupportedMediaTypeError | response/error.go:52-59 | `NewError(415)` has code `unsupported_media_type`, message `Unsupported Media Type`, null meta, and the matching JSON body |
| Query.QueryGet | query/validator.go:23 | the first value of the parameter, or "" when it has none |
| Query.Validator.Validate | query/validator.go:20-28 | the result is exactly the failing parameters with the engine's errors, for any rule order |
| Query.FailuresExactly | query/validator.go:20-28 | only ruled parameters appear; a parameter appears iff its rule fails, with the engine's error |
| Query.ValueChecked | query/validator.go:23 | a missing parameter is checked as "", and only the first of several values is checked |
| Query.NoFailures | query/validator.go:21-28 | no failing rule gives the empty map |
| Query.AllFailuresReported | query/validator.go:22-26 | every rule is evaluated, so all failures are reported |
| Query.RequiredExample | pkg/http/validate/query_test.go:76-87 | a missing parameter is reported and a present one is not |
| Validate.QueryValidator.Validate | pkg/http/validate/query.go:19-27 | only ruled parameters appear; a parameter appears iff its rule fails, with the engine's error |
| RequestIdMiddleware.ChooseId | middleware/request_id.go:25-29 | the inbound header's first value when non-empty, else the generated id; never empty |
| RequestIdMiddleware.Serve | middleware/request_id.go:21-42 | the writer's `X-Request-Id` is set to the id before the next handler is called: next is called once, with the id stored in the context, and sees the header already set |
| RequestIdMiddleware.RequestId | middleware/request_id.go:46-54 | the stored string; "" for a nil context, a missing key or a non-string value |
| RequestIdMiddleware.RequestIdRoundTrip | middleware/request_id.go:32-51 | the next handler reads back the chosen id; other context entries and the headers are unchanged |
| RequestIdMiddleware.RequestIdEchoed | middleware/request_id.go:35 | the response's `X-Request-Id` is exactly `[id]`; other headers are unchanged |
| RequestIdMiddleware.ChooseIdExamples | middleware/request_id_test.go:18-29 | an inbound id is kept; without one the generated id is used |
| RequestIdMiddleware.RequestIdExamples | middleware/request_id_test.go:68-86 | the accessor's test table |
| LoggerMiddleware.RequestFields | pkg/http/middleware/logger.go:28-34 | the five request fields, in order: `http_proto`, `http_method`, `request_uri`, `remote_addr` carrying the request's protocol, method, URI and remote address, and `user_agent` carrying the first `User-Agent` header value |
| LoggerMiddleware.RequestLogger | pkg/http/middleware/logger.go:28-39 | base fields, then the five request fields, then `request_id` exactly when the context holds a non-empty id |
| LoggerMiddleware.Serve | pkg/http/middleware/logger.go:24-67 | records the start, the call to next with the logger in the context, then the completion |
| LoggerMiddleware.LoggerOrError | pkg/http/middleware/logger.go:71-79 | "context is required" for a nil context, "logger not found within context" for a missing or non-logger value; success iff the key holds a logger, returning that logger |
| LoggerMiddleware.Logger | pkg/http/middleware/logger.go:83-88 | the stored logger when there is one, else the no-op logger |
| LoggerMiddleware.LoggerRoundTrip | pkg/http/middleware/logger.go:45-64 | the next handler reads back the per-request logger, and still reads the same request id |
| LoggerMiddleware.EventOrder | pkg/http/middleware/logger.go:42-64 | next is called once; with a real logger, one start record precedes it and one completion record follows it |
| LoggerMiddleware.ChainAttachesRequestId | pkg/http/middleware/logger.go:37-39 | after the request-id middleware, the per-request logger's last field is the chosen id |
| LoggerMiddleware.LoggerExamples | pkg/http/middleware/logger_test.go:24-76 | the accessors' test tables |
| AssertJsonPayload.Serve | pkg/http/middleware/assert_json_payload.go:11-28 | accepted: writer untouched, next called with the request; rejected: the 415 error response is written and the rejection is logged |
| AssertJsonPayload.Reject | pkg/http/middleware/assert_json_payload.go:14-21 | logs the offending value at debug level, writes the 415 error response, then logs an error iff the write failed |
| AssertJsonPayload.NextIffAccepted | pkg/http/middleware/assert_json_payload.go:14-25 | next is called exactly once when accepted, never when rejected, and always with the request and the writer's headers unchanged |
| AssertJsonPayload.RejectionLogs | pkg/http/middleware/assert_json_payload.go:15-20 | a rejection logs one debug record carrying the offending value, plus one error record iff the write failed |
| AssertJsonPayload.RejectionWritten | pkg/http/middleware/assert_json_payload.go:17 | status 415, `Content-Type: application/json`, then the encoded error body |
| AssertJsonPayload.AcceptsExamples | middleware/assert_json_payload_test.go:23-55 | absent, `text/plain` and `application/json; charset=utf-8` are refused; `application/json` passes |
| Handler.Serve | pkg/http/handler/handler.go:13-22 | the handler's response is written to the writer as `WriteTo` writes it, and a failed write is logged |
| Handler.ErrorLoggedIffWriteFails | pkg/http/handler/handler.go:16-20 | one error record carrying the error iff the write failed and a logger is present; next is never called |
| Handler.HandlerExamples | pkg/http/handler/handler_test.go:21-31 | `New(200, "test body")` is written as plain text; one error is logged iff the writer fails |

## Left out

- Writer internals. The response writer is reduced to its header map and a trace of calls. Byte counts from `Write` are not modelled.
- The JSON encoder. Its output is an opaque `Encoder` parameter, so JSON syntax and the encoder's trailing newline are out. A failed encoding writes nothing, since the encoder builds the whole encoding before its single write.
- The validation engine and UUID generation are parameters. The rule language of go-playground/validator and the UUID format are not modelled. `NewValidator` and `NewQueryValidator` only store the engine.
- LoggerMiddleware.Serve: the completion record leaves out the `status_code`, `duration_ms` and `bytes_written` fields. They come from chi's response-writer wrapper and the clock, which are not modelled. The record has its message and the logger's fields only.
- Zap internals. Levels, cores and sampling are left out. A log call on a real logger leaves exactly one record, and the no-op logger leaves none.
- ResponseError.Slugify: lower-cases ASCII letters only. Go's `strings.ToLower` also maps non-ASCII upper-case letters (and can change the byte length); the model is applied only to status texts, which are ASCII.
- Canonical header keys. `Headers.Canon` uses the ASCII upper/lower-case rule. Net/http returns keys with invalid token characters unchanged, and that case is not modelled.
- Status texts. `Status.Text` covers the common status codes, 200 and 415 among them, not the whole table. Every other code maps to "".
- `X-Request-Id` is a constant. In the source the header name is a package variable that callers may reassign.
- Panics. A panicking next handler is not modelled, nor the deferred completion log that would still run in that case.
- ResponseModel.Response.WithHeader: requires a non-nil header map. Go panics on a nil map there, and the panic is not modelled.
- Aliasing. `Clone` deep-copies the header map in Go. Values in Dafny cannot alias, so `Clone` is the identity, and the independence of copies holds by construction.
- `middleware/logctx.go` is not part of this model. It wraps an outside library, and its only logic, the conditional `request_id`, is the same as in the logging middleware.
- Dispatch, transport and concurrency. Each request is handled on its own, in sequence.
