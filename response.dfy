/**
 * The logical HTTP response (Go package `response`, file response.go) and the
 * fixed rules by which `WriteTo` serialises it onto a response sink.
 */
module ResponseModel {
  import opened Wrappers
  import opened Headers
  import opened Json
  import opened Exchange

  const ContentTypePlainText := "text/plain"
  const ContentTypeJson := "application/json"

  /** The marshalling step of `json.NewEncoder(w).Encode`: the bytes to write, or why there are none. */
  type Encoder = Value -> Result<Bytes, ErrorMsg>

  /** Which body `WriteTo` writes. */
  datatype BodyChoice = EncodeJson(value: Value) | Verbatim(bytes: Bytes) | NoBody

  /** Header names always match `Canon` of this. */
  const ContentTypeHeader := "Content-Type"

  datatype Response = Response(
    statusCode: int,
    bodyEncoded: Bytes,
    bodyDecoded: Option<Value>,   // None is a nil `any`
    contentType: string,          // "" means unset
    headers: Option<Header>)      // None is a nil header map
  {
    /** A copy with its own header map, equal in every field to the original. */
    function Clone(): (c: Response)
      ensures c == this
    {
      Response(statusCode, bodyEncoded, bodyDecoded, contentType, headers)
    }

    /** A copy that differs from this response in the content type only. */
    function WithContentType(ct: string): (c: Response)
      ensures c.contentType == ct
      ensures c.(contentType := contentType) == this
    {
      var c := Clone();
      c.(contentType := ct)
    }

    /**
     * A copy with `v` appended to the values under the canonical form of `k`.
     * The Go code adds into the clone's map, which panics when the map is nil,
     * hence the precondition.
     */
    function WithHeader(k: string, v: string): (c: Response)
      requires headers.Some?
      ensures c.headers.Some?
      ensures Values(c.headers.value, Canon(k)) == Values(headers.value, Canon(k)) + [v]
      ensures forall K :: K != Canon(k) ==> Values(c.headers.value, K) == Values(headers.value, K)
      ensures c.headers.value.Keys == headers.value.Keys + {Canon(k)}
      ensures c.(headers := headers) == this
    {
      var c := Clone();
      c.(headers := Some(Headers.Add(c.headers.value, k, v)))
    }

    /** The header map, with a nil map read as empty. */
    function OwnHeaders(): Header
    {
      if headers.Some? then headers.value else map[]
    }

    /** Whether `WriteTo` sets `Content-Type` from the content-type attribute. */
    predicate DefaultsContentType()
    {
      |contentType| > 0 && |Get(OwnHeaders(), ContentTypeHeader)| == 0
    }

    /** The body `WriteTo` writes: the decoded body for JSON when present, else non-empty raw bytes. */
    function Body(): BodyChoice
    {
      if contentType == ContentTypeJson && bodyDecoded.Some? then EncodeJson(bodyDecoded.value)
      else if |bodyEncoded| > 0 then Verbatim(bodyEncoded)
      else NoBody
    }

    /** The sink's header store after `WriteTo`, when the header map is iterated in `order`. */
    function HeadersAfter(h0: Header, order: seq<string>): Header
      requires forall k :: k in order ==> k in OwnHeaders()
    {
      var h1 := AddAll(h0, OwnHeaders(), order);
      if DefaultsContentType() then Headers.Set(h1, ContentTypeHeader, contentType) else h1
    }

    /** The sink calls made before the status code. */
    function HeaderOps(order: seq<string>): seq<SinkOp>
      requires forall k :: k in order ==> k in OwnHeaders()
    {
      AddOps(OwnHeaders(), order)
        + (if DefaultsContentType() then [HeaderSet(ContentTypeHeader, contentType)] else [])
    }

    /** The body write, if any; an encoding failure writes nothing. */
    function BodyOps(encode: Encoder): seq<SinkOp>
    {
      match Body()
      case EncodeJson(v) => (match encode(v) case Success(b) => [BodyWritten(b)] case Failure(_) => [])
      case Verbatim(b) => [BodyWritten(b)]
      case NoBody => []
    }

    /** Every sink call `WriteTo` makes, in order. */
    function WriteOps(order: seq<string>, encode: Encoder): seq<SinkOp>
      requires forall k :: k in order ==> k in OwnHeaders()
    {
      HeaderOps(order) + [StatusWritten(statusCode)] + BodyOps(encode)
    }

    /** The error `WriteTo` returns on a sink whose writes report `writeError`. */
    function WriteError(encode: Encoder, writeError: Option<ErrorMsg>): Option<ErrorMsg>
    {
      match Body()
      case EncodeJson(v) => (match encode(v) case Success(_) => writeError case Failure(e) => Some(e))
      case Verbatim(_) => writeError
      case NoBody => None
    }

    /**
     * `r.WriteTo(w)`. The header map is visited in an order the language
     * leaves unspecified; `order` is the one this run used.
     */
    method WriteTo(w: ResponseSink, encode: Encoder) returns (err: Option<ErrorMsg>, ghost order: seq<string>)
      modifies w
      ensures IsEnumeration(order, OwnHeaders().Keys)
      ensures w.header == HeadersAfter(old(w.header), order)
      ensures w.ops == old(w.ops) + WriteOps(order, encode)
      ensures err == WriteError(encode, w.writeError)
    {
      order := WriteHeaders(w);
      w.WriteHeader(statusCode);
      err := WriteBody(w, encode);
    }

    /** The header part of `WriteTo`, before the status code. */
    method WriteHeaders(w: ResponseSink) returns (ghost order: seq<string>)
      modifies w
      ensures IsEnumeration(order, OwnHeaders().Keys)
      ensures w.header == HeadersAfter(old(w.header), order)
      ensures w.ops == old(w.ops) + HeaderOps(order)
    {
      ghost var h0, ops0 := w.header, w.ops;
      order := AddOwnHeaders(w);
      ghost var h1 := w.header;
      assert h1 == AddAll(h0, OwnHeaders(), order);
      SetDefaultContentType(w);
      assert w.header == HeadersAfter(h0, order);
      ghost var added, defaulted := AddOps(OwnHeaders(), order), if DefaultsContentType() then [HeaderSet(ContentTypeHeader, contentType)] else [];
      assert ops0 + added + defaulted == ops0 + (added + defaulted);
    }

    /** The nested header loop, skipped for a nil header map. */
    method AddOwnHeaders(w: ResponseSink) returns (ghost order: seq<string>)
      modifies w
      ensures IsEnumeration(order, OwnHeaders().Keys)
      ensures w.header == AddAll(old(w.header), OwnHeaders(), order)
      ensures w.ops == old(w.ops) + AddOps(OwnHeaders(), order)
    {
      order := [];
      if headers.Some? {
        order := AddEach(w, headers.value);
      }
    }

    /** `Content-Type` from the attribute, when the response's own headers lack it. */
    method SetDefaultContentType(w: ResponseSink)
      modifies w
      ensures w.header == if DefaultsContentType() then Headers.Set(old(w.header), ContentTypeHeader, contentType) else old(w.header)
      ensures w.ops == old(w.ops) + if DefaultsContentType() then [HeaderSet(ContentTypeHeader, contentType)] else []
    {
      if |contentType| > 0 && |Get(OwnHeaders(), ContentTypeHeader)| == 0 {
        w.Set(ContentTypeHeader, contentType);
      }
    }

    /** The body part of `WriteTo`, after the status code. */
    method WriteBody(w: ResponseSink, encode: Encoder) returns (err: Option<ErrorMsg>)
      modifies w
      ensures w.header == old(w.header)
      ensures w.ops == old(w.ops) + BodyOps(encode)
      ensures err == WriteError(encode, w.writeError)
    {
      if contentType == ContentTypeJson {
        if bodyDecoded.Some? {
          var encoded := encode(bodyDecoded.value);
          if encoded.Success? {
            err := w.Write(encoded.value);
          } else {
            err := Some(encoded.error);
          }
          return;
        }
      }
      if |bodyEncoded| > 0 {
        err := w.Write(bodyEncoded);
        return;
      }
      assert Body() == NoBody;
      err := None;
    }
  }

  /** `for k, v := range src { for _, vv := range v { w.Header().Add(k, vv) } }`, visiting the keys in `order`. */
  method AddEach(w: ResponseSink, src: Header) returns (ghost order: seq<string>)
    modifies w
    ensures IsEnumeration(order, src.Keys)
    ensures w.header == AddAll(old(w.header), src, order)
    ensures w.ops == old(w.ops) + AddOps(src, order)
  {
    order := [];
    var pending := src.Keys;
    while pending != {}
      invariant pending <= src.Keys
      invariant forall i, j :: 0 <= i < j < |order| ==> order[i] != order[j]
      invariant forall k :: k in order <==> k in src.Keys - pending
      invariant |order| + |pending| == |src.Keys|
      invariant w.header == AddAll(old(w.header), src, order)
      invariant w.ops == old(w.ops) + AddOps(src, order)
      decreases pending
    {
      var k :| k in pending;
      assert k !in order;
      AddValuesOf(w, k, src[k]);
      ghost var order' := order + [k];
      AddAllStep(old(w.header), src, order, k);
      assert old(w.ops) + AddOps(src, order) + ValueOps(k, src[k]) == old(w.ops) + (AddOps(src, order) + ValueOps(k, src[k]));
      order := order';
      pending := pending - {k};
    }
  }

  /** One more key visited by the header loop. */
  lemma AddAllStep(h: Header, src: Header, order: seq<string>, k: string)
    requires forall k' :: k' in order ==> k' in src
    requires k in src
    ensures forall k' :: k' in order + [k] ==> k' in src
    ensures AddAll(h, src, order + [k]) == AddValues(AddAll(h, src, order), k, src[k])
    ensures AddOps(src, order + [k]) == AddOps(src, order) + ValueOps(k, src[k])
  {
    assert (order + [k])[..|order|] == order;
  }

  /** `for _, vv := range vs { w.Header().Add(k, vv) }` */
  method AddValuesOf(w: ResponseSink, k: string, vs: seq<string>)
    modifies w
    ensures w.header == AddValues(old(w.header), k, vs)
    ensures w.ops == old(w.ops) + ValueOps(k, vs)
  {
    var i := 0;
    while i < |vs|
      invariant 0 <= i <= |vs|
      invariant w.header == AddValues(old(w.header), k, vs[..i])
      invariant w.ops == old(w.ops) + ValueOps(k, vs[..i])
    {
      ghost var done := vs[..i];
      assert vs[..i + 1] == done + [vs[i]];
      AddValuesStep(old(w.header), k, done, vs[i]);
      ValueOpsStep(k, done, vs[i]);
      w.Add(k, vs[i]);
      i := i + 1;
    }
    assert vs[..i] == vs;
  }

  /** The sink calls of `for _, v := range vs { w.Header().Add(k, v) }`. */
  function ValueOps(k: string, vs: seq<string>): (ops: seq<SinkOp>)
    ensures |ops| == |vs|
    ensures forall i :: 0 <= i < |vs| ==> ops[i] == HeaderAdded(k, vs[i])
  {
    seq(|vs|, i requires 0 <= i < |vs| => HeaderAdded(k, vs[i]))
  }

  lemma ValueOpsStep(k: string, vs: seq<string>, v: string)
    ensures ValueOps(k, vs + [v]) == ValueOps(k, vs) + [HeaderAdded(k, v)]
  {
  }

  /** The sink calls of the nested header loop, visiting the keys of `src` in `order`. */
  function AddOps(src: Header, order: seq<string>): seq<SinkOp>
    requires forall k :: k in order ==> k in src
  {
    if order == [] then []
    else
      var last := order[|order| - 1];
      AddOps(src, order[..|order| - 1]) + ValueOps(last, src[last])
  }

  /** `New(statusCode, body)`: a plain-text response. */
  function New(statusCode: int, body: Bytes): (r: Response)
    ensures r.statusCode == statusCode && r.bodyEncoded == body && r.bodyDecoded == None
    ensures r.contentType == "text/plain" && r.headers == Some(map[])
  {
    Response(statusCode, body, None, ContentTypePlainText, Some(map[]))
  }

  /** `NewJson(statusCode, body)`: a response whose body is JSON-encoded when written. */
  function NewJson(statusCode: int, body: Option<Value>): (r: Response)
    ensures r.statusCode == statusCode && r.bodyEncoded == [] && r.bodyDecoded == body
    ensures r.contentType == "application/json" && r.headers == Some(map[])
  {
    Response(statusCode, [], body, ContentTypeJson, Some(map[]))
  }

  /** `NewNoContent(statusCode)`: a response without body or content type. */
  function NewNoContent(statusCode: int): (r: Response)
    ensures r.statusCode == statusCode && r.bodyEncoded == [] && r.bodyDecoded == None
    ensures r.contentType == "" && r.headers == Some(map[])
  {
    Response(statusCode, [], None, "", Some(map[]))
  }

  // ---------------------------------------------------------------------
  // What WriteTo does, whatever order the header map is visited in.
  // ---------------------------------------------------------------------

  lemma {:induction false} AddOpsAreHeaderOps(src: Header, order: seq<string>)
    requires forall k :: k in order ==> k in src
    ensures forall i :: 0 <= i < |AddOps(src, order)| ==> AddOps(src, order)[i].IsHeaderOp()
  {
    if order != [] {
      var init := order[..|order| - 1];
      forall k | k in init ensures k in src {
        assert k in order;
      }
      AddOpsAreHeaderOps(src, init);
    }
  }

  lemma {:induction false} HeaderOpsWriteNoStatus(ops: seq<SinkOp>)
    requires forall i :: 0 <= i < |ops| ==> ops[i].IsHeaderOp()
    ensures StatusWrites(ops) == 0
  {
    if ops != [] {
      HeaderOpsWriteNoStatus(ops[..|ops| - 1]);
    }
  }

  /**
   * The status code is written exactly once; every header call comes before
   * it, and the only call after it is at most one body write.
   */
  lemma WriteOrdering(r: Response, order: seq<string>, encode: Encoder)
    requires forall k :: k in order ==> k in r.OwnHeaders()
    ensures StatusWritten(r.statusCode) in r.WriteOps(order, encode)
    ensures StatusWrites(r.WriteOps(order, encode)) == 1
    ensures var ops := r.WriteOps(order, encode);
            forall i, j :: 0 <= i < j < |ops| && ops[j].IsHeaderOp() ==> ops[i].IsHeaderOp()
    ensures var ops := r.WriteOps(order, encode);
            forall i :: 0 <= i < |ops| && ops[i].BodyWritten? ==> i == |ops| - 1
  {
    var hs := r.HeaderOps(order);
    var bs := r.BodyOps(encode);
    assert forall i :: 0 <= i < |hs| ==> hs[i].IsHeaderOp() by {
      AddOpsAreHeaderOps(r.OwnHeaders(), order);
    }
    assert |bs| <= 1 && forall i :: 0 <= i < |bs| ==> bs[i].BodyWritten?;
    TraceShape(hs, StatusWritten(r.statusCode), bs);
  }

  /** Header calls, then one status write, then at most one body write: the shape of every `WriteTo` trace. */
  lemma TraceShape(hs: seq<SinkOp>, st: SinkOp, bs: seq<SinkOp>)
    requires forall i :: 0 <= i < |hs| ==> hs[i].IsHeaderOp()
    requires st.StatusWritten?
    requires |bs| <= 1 && forall i :: 0 <= i < |bs| ==> bs[i].BodyWritten?
    ensures st in hs + [st] + bs
    ensures StatusWrites(hs + [st] + bs) == 1
    ensures var ops := hs + [st] + bs;
            forall i, j :: 0 <= i < j < |ops| && ops[j].IsHeaderOp() ==> ops[i].IsHeaderOp()
    ensures var ops := hs + [st] + bs;
            forall i :: 0 <= i < |ops| && ops[i].BodyWritten? ==> i == |ops| - 1
  {
    var ops := hs + [st] + bs;
    HeaderOpsWriteNoStatus(hs);
    StatusWritesAppend(hs, [st]);
    StatusWritesAppend(hs + [st], bs);
    assert StatusWrites([st]) == 1 by {
      assert [st][..0] == [];
    }
    assert StatusWrites(bs) == 0 by {
      if bs != [] {
        assert bs[..0] == [];
      }
    }
    assert ops[|hs|] == st;
    forall i, j | 0 <= i < j < |ops| && ops[j].IsHeaderOp()
      ensures ops[i].IsHeaderOp()
    {
      assert j < |hs|;
      assert ops[i] == hs[i];
    }
    forall i | 0 <= i <= |hs|
      ensures !ops[i].BodyWritten?
    {
      if i < |hs| {
        assert ops[i] == hs[i];
      }
    }
  }

  /**
   * A non-empty content-type attribute becomes the sink's only `Content-Type`
   * value when the response's own headers have no non-empty first value under
   * `Content-Type`, replacing whatever the sink held before.
   */
  lemma ContentTypeDefaulted(h0: Header, r: Response, order: seq<string>)
    requires forall k :: k in order ==> k in r.OwnHeaders()
    requires r.contentType != ""
    requires Get(r.OwnHeaders(), "Content-Type") == ""
    ensures Values(r.HeadersAfter(h0, order), "Content-Type") == [r.contentType]
  {
    CanonContentType();
  }

  /**
   * Otherwise the attribute is not written: the sink's `Content-Type` values
   * are its old ones followed by those the response's headers add.
   */
  lemma ContentTypeNotDefaulted(h0: Header, r: Response, order: seq<string>)
    requires forall k :: k in order ==> k in r.OwnHeaders()
    requires r.contentType == "" || Get(r.OwnHeaders(), "Content-Type") != ""
    ensures Values(r.HeadersAfter(h0, order), "Content-Type")
         == Values(h0, "Content-Type") + ValuesFor(r.OwnHeaders(), order, "Content-Type")
  {
    AddAllAt(h0, r.OwnHeaders(), order, "Content-Type");
  }

  /**
   * A `Content-Type` entry in the response's own headers wins over the
   * attribute: it reaches the sink unchanged and the attribute is dropped.
   */
  lemma HeaderContentTypeWins(h0: Header, r: Response, order: seq<string>)
    requires IsEnumeration(order, r.OwnHeaders().Keys)
    requires "Content-Type" in r.OwnHeaders() && r.OwnHeaders()["Content-Type"] != []
    requires r.OwnHeaders()["Content-Type"][0] != ""
    requires forall k :: k in r.OwnHeaders() && Canon(k) == "Content-Type" ==> k == "Content-Type"
    ensures Values(r.HeadersAfter(h0, order), "Content-Type") == Values(h0, "Content-Type") + r.OwnHeaders()["Content-Type"]
  {
    CanonContentType();
    ContentTypeNotDefaulted(h0, r, order);
    ValuesForUnique(r.OwnHeaders(), order, "Content-Type", "Content-Type");
  }

  /**
   * Headers are added, never replaced: under every canonical name other than
   * `Content-Type`, the sink keeps its old values and gains the response's,
   * per name in their original order. A name gains an entry only if a value
   * is added to it.
   */
  lemma HeadersAdded(h0: Header, r: Response, order: seq<string>, K: string)
    requires forall k :: k in order ==> k in r.OwnHeaders()
    requires K != "Content-Type"
    ensures Values(r.HeadersAfter(h0, order), K) == Values(h0, K) + ValuesFor(r.OwnHeaders(), order, K)
    ensures K in r.HeadersAfter(h0, order) <==> K in h0 || ValuesFor(r.OwnHeaders(), order, K) != []
  {
    CanonContentType();
    AddAllAt(h0, r.OwnHeaders(), order, K);
  }

  /** The body written, by content type and body fields. */
  lemma BodySelection(r: Response, encode: Encoder, writeError: Option<ErrorMsg>)
    // JSON with a decoded body: only its encoding is written, the raw bytes are ignored
    ensures r.contentType == "application/json" && r.bodyDecoded.Some? ==>
      && r.BodyOps(encode) == (match encode(r.bodyDecoded.value)
                               case Success(b) => [BodyWritten(b)]
                               case Failure(_) => [])
      && r.WriteError(encode, writeError) == (match encode(r.bodyDecoded.value)
                                              case Success(_) => writeError
                                              case Failure(e) => Some(e))
    // otherwise non-empty raw bytes are written verbatim, whatever the decoded body
    ensures !(r.contentType == "application/json" && r.bodyDecoded.Some?) && |r.bodyEncoded| > 0 ==>
      r.BodyOps(encode) == [BodyWritten(r.bodyEncoded)] && r.WriteError(encode, writeError) == writeError
    // otherwise nothing is written and no error is returned
    ensures !(r.contentType == "application/json" && r.bodyDecoded.Some?) && |r.bodyEncoded| == 0 ==>
      r.BodyOps(encode) == [] && r.WriteError(encode, writeError) == None
  {
  }

  /** The encoder is consulted only for a JSON response with a decoded body. */
  lemma EncoderUnusedUnlessJson(r: Response, encode: Encoder, encode': Encoder, writeError: Option<ErrorMsg>)
    requires r.contentType != "application/json" || r.bodyDecoded.None?
    ensures r.BodyOps(encode) == r.BodyOps(encode')
    ensures r.WriteError(encode, writeError) == r.WriteError(encode', writeError)
  {
  }

  /**
   * `WriteTo` reports an error only if the one body write it made failed, or
   * the encoding failed and nothing was written.
   */
  lemma ErrorOnlyFromBody(r: Response, encode: Encoder, writeError: Option<ErrorMsg>)
    ensures r.WriteError(encode, writeError).Some? ==>
      (r.BodyOps(encode) == [] && r.Body().EncodeJson? && encode(r.Body().value).Failure?)
      || (|r.BodyOps(encode)| == 1 && writeError.Some? && r.WriteError(encode, writeError) == writeError)
    ensures r.BodyOps(encode) != [] && writeError.None? ==> r.WriteError(encode, writeError) == None
  {
  }

  /** Writing `New(status, body)`: `Content-Type: text/plain`, the status, then the body verbatim if any. */
  lemma WriteNew(h0: Header, statusCode: int, body: Bytes, order: seq<string>, encode: Encoder, writeError: Option<ErrorMsg>)
    requires IsEnumeration(order, New(statusCode, body).OwnHeaders().Keys)
    ensures var r := New(statusCode, body);
      && r.HeadersAfter(h0, order) == Headers.Set(h0, "Content-Type", "text/plain")
      && r.WriteOps(order, encode)
         == [HeaderSet("Content-Type", "text/plain"), StatusWritten(statusCode)]
          + (if |body| > 0 then [BodyWritten(body)] else [])
      && r.WriteError(encode, writeError) == (if |body| > 0 then writeError else None)
  {
  }

  /** Writing `NewJson(status, v)`: `Content-Type: application/json`, the status, then the encoding of `v` if `v` is not nil. */
  lemma WriteNewJson(h0: Header, statusCode: int, v: Option<Value>, order: seq<string>, encode: Encoder, writeError: Option<ErrorMsg>)
    requires IsEnumeration(order, NewJson(statusCode, v).OwnHeaders().Keys)
    ensures var r := NewJson(statusCode, v);
      && r.HeadersAfter(h0, order) == Headers.Set(h0, "Content-Type", "application/json")
      && r.WriteOps(order, encode)
         == [HeaderSet("Content-Type", "application/json"), StatusWritten(statusCode)]
          + (if v.Some? && encode(v.value).Success? then [BodyWritten(encode(v.value).value)] else [])
      && r.WriteError(encode, writeError)
         == (if v.None? then None else if encode(v.value).Success? then writeError else Some(encode(v.value).error))
  {
  }

  /** Writing `NewNoContent(status)`: the status and nothing else, and no error. */
  lemma WriteNewNoContent(h0: Header, statusCode: int, order: seq<string>, encode: Encoder, writeError: Option<ErrorMsg>)
    requires IsEnumeration(order, NewNoContent(statusCode).OwnHeaders().Keys)
    ensures var r := NewNoContent(statusCode);
      && r.HeadersAfter(h0, order) == h0
      && r.WriteOps(order, encode) == [StatusWritten(statusCode)]
      && r.WriteError(encode, writeError) == None
  {
  }

  /**
   * A header attached with `WithHeader` reaches the sink after the values the
   * response already had under that name.
   */
  lemma WithHeaderIsWritten(h0: Header, r: Response, k: string, v: string, order: seq<string>)
    requires r.headers.Some?
    requires Canon(k) != "Content-Type"
    requires IsEnumeration(order, r.WithHeader(k, v).OwnHeaders().Keys)
    requires forall k' :: k' in r.headers.value ==> Canon(k') == k'
    ensures Values(r.WithHeader(k, v).HeadersAfter(h0, order), Canon(k))
         == Values(h0, Canon(k)) + Values(r.headers.value, Canon(k)) + [v]
  {
    var c := r.WithHeader(k, v);
    var src := c.OwnHeaders();
    CanonIdempotent(k);
    assert forall k' :: k' in src && Canon(k') == Canon(k) ==> k' == Canon(k);
    HeadersAdded(h0, c, order, Canon(k));
    ValuesForUnique(src, order, Canon(k), Canon(k));
  }

  /** The first case of the response test table: lower-case names reach the sink in canonical form. */
  lemma HeadersWrittenCanonically(order: seq<string>)
    requires IsEnumeration(order, {"header-one", "header-two"})
    ensures var r := Response(200, [], None, "", Some(map["header-one" := ["One"], "header-two" := ["Two", "Three"]]));
      r.HeadersAfter(map[], order) == map["Header-One" := ["One"], "Header-Two" := ["Two", "Three"]]
  {
    var src := map["header-one" := ["One"], "header-two" := ["Two", "Three"]];
    var r := Response(200, [], None, "", Some(src));
    var want := map["Header-One" := ["One"], "Header-Two" := ["Two", "Three"]];
    assert src.Keys == {"header-one", "header-two"};
    var after := AddAll(map[], src, order);
    assert r.HeadersAfter(map[], order) == after;
    CanonLiterals();
    assert forall k' :: k' in src ==> k' == "header-one" || k' == "header-two";
    assert after["Header-One"] == want["Header-One"] && "Header-One" in after by {
      SingleSource(src, order, "Header-One", "header-one");
    }
    assert after["Header-Two"] == want["Header-Two"] && "Header-Two" in after by {
      SingleSource(src, order, "Header-Two", "header-two");
    }
    forall K | K !in want
      ensures K !in after
    {
      NameNotWritten(src, order, K);
    }
    assert after.Keys == want.Keys;
  }

  /**
   * A value held under the raw key `content-type` is invisible to `Get`, so
   * `WriteTo` first adds it (under `Content-Type`) and then replaces it by
   * the content-type attribute.
   */
  lemma RawContentTypeKeyReplaced(h0: Header, order: seq<string>)
    requires IsEnumeration(order, {"content-type"})
    ensures var r := Response(200, [], None, "text/plain", Some(map["content-type" := ["text/html"]]));
      && r.DefaultsContentType()
      && r.HeaderOps(order) == [HeaderAdded("content-type", "text/html"), HeaderSet(ContentTypeHeader, "text/plain")]
      && Values(r.HeadersAfter(h0, order), ContentTypeHeader) == ["text/plain"]
  {
    var src := map["content-type" := ["text/html"]];
    var r := Response(200, [], None, "text/plain", Some(src));
    CanonContentType();
    assert ContentTypeHeader !in src;
    assert Get(src, ContentTypeHeader) == "";
    assert src.Keys == {"content-type"};
    assert order == ["content-type"] by {
      assert |order| == 1 && order[0] in src.Keys;
    }
    assert AddOps(src, order) == [HeaderAdded("content-type", "text/html")] by {
      assert order[..0] == [];
    }
  }

  /** A name that no key of `src` canonicalises to does not appear in the writer's headers. */
  lemma NameNotWritten(src: Header, order: seq<string>, K: string)
    requires IsEnumeration(order, src.Keys)
    requires forall k :: k in src ==> Canon(k) != K
    ensures K !in AddAll(map[], src, order)
  {
    AddAllAt(map[], src, order, K);
    ValuesForUnrelated(src, order, K);
  }

  lemma CanonLiterals()
    ensures Canon("header-one") == "Header-One"
    ensures Canon("header-two") == "Header-Two"
  {
  }

  lemma SingleSource(src: Header, order: seq<string>, K: string, k: string)
    requires IsEnumeration(order, src.Keys)
    requires k in src && Canon(k) == K
    requires forall k' :: k' in src && Canon(k') == K ==> k' == k
    ensures K in AddAll(map[], src, order) <==> src[k] != []
    ensures Values(AddAll(map[], src, order), K) == src[k]
  {
    AddAllAt(map[], src, order, K);
    ValuesForUnique(src, order, K, k);
  }
}
