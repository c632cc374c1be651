/**
 * Error responses (Go package `response`, file error.go): an error record,
 * its JSON body `{"error": {"status", "code", "message", "meta"}}`, and the
 * slug that turns a reason phrase into a machine-readable code.
 */
module ResponseError {
  import opened Wrappers
  import opened Ascii
  import opened Json
  import Status
  import opened ResponseModel

  /** The error record; `meta` is `Null` when the Go field is nil. */
  datatype ErrorDetails = ErrorDetails(status: int, code: string, message: string, meta: Value)
  {
    /** A copy with another code; status, message and meta are kept. */
    function WithCode(c: string): (e: ErrorDetails)
      ensures e.code == c
      ensures e.status == status && e.message == message && e.meta == meta
    {
      ErrorDetails(status, c, message, meta)
    }

    /** A copy with another message; status, code and meta are kept. */
    function WithMessage(m: string): (e: ErrorDetails)
      ensures e.message == m
      ensures e.status == status && e.code == code && e.meta == meta
    {
      ErrorDetails(status, code, m, meta)
    }

    /** A copy with other metadata; status, code and message are kept. */
    function WithMeta(m: Value): (e: ErrorDetails)
      ensures e.meta == m
      ensures e.status == status && e.code == code && e.message == message
    {
      ErrorDetails(status, code, message, m)
    }

    /** A JSON response with this error's status whose body is the error body. */
    function JsonResponse(): (r: Response)
      ensures r.statusCode == status
      ensures r.contentType == "application/json" && r.headers == Some(map[])
      ensures r.bodyDecoded == Some(ErrorBody(this).ToJson()) && r.bodyEncoded == []
    {
      NewJson(status, Some(ErrorBody(this).ToJson()))
    }
  }

  /** The body of an error response. */
  datatype ErrorBody = ErrorBody(details: ErrorDetails)
  {
    /** The JSON value the struct tags give: one member "error" holding the four fields. */
    function ToJson(): (v: Value)
      ensures v.Object? && |v.members| == 1 && v.members[0].0 == "error"
      ensures var inner := v.members[0].1;
        && inner.Object? && |inner.members| == 4
        && inner.members[0] == ("status", Number(details.status))
        && inner.members[1] == ("code", String(details.code))
        && inner.members[2] == ("message", String(details.message))
        && inner.members[3] == ("meta", details.meta)
    {
      Object([("error", Object([
        ("status", Number(details.status)),
        ("code", String(details.code)),
        ("message", String(details.message)),
        ("meta", details.meta)]))])
    }
  }

  /** `NewError(statusCode)`: the error record for a status, named by its reason phrase. */
  function NewError(statusCode: int): (e: ErrorDetails)
    ensures e.status == statusCode
    ensures e.message == Status.Text(statusCode)
    ensures e.code == Slugify(Status.Text(statusCode))
    ensures e.meta == Null
  {
    ErrorDetails(statusCode, Slugify(Status.Text(statusCode)), Status.Text(statusCode), Null)
  }

  function SlugChar(c: char): char
  {
    Lower(if c == ' ' then '_' else c)
  }

  /** `slugify(s)`: every space replaced by '_', then ASCII letters lower-cased. */
  function Slugify(s: string): (r: string)
    ensures |r| == |s|
    ensures forall i :: 0 <= i < |r| ==> r[i] != ' ' && !IsUpper(r[i])
    ensures forall i :: 0 <= i < |s| && s[i] == ' ' ==> r[i] == '_'
    ensures forall i :: 0 <= i < |s| && s[i] != ' ' && !IsUpper(s[i]) ==> r[i] == s[i]
    ensures forall i :: 0 <= i < |s| && IsUpper(s[i]) ==> IsLower(r[i]) && Upper(r[i]) == s[i]
  {
    seq(|s|, i requires 0 <= i < |s| => SlugChar(s[i]))
  }

  /** A slug is its own slug. */
  lemma SlugifyIdempotent(s: string)
    ensures Slugify(Slugify(s)) == Slugify(s)
  {
  }

  /** A string without spaces or upper-case letters is already a slug. */
  lemma SlugifyFixesSlugs(s: string)
    requires forall i :: 0 <= i < |s| ==> s[i] != ' ' && !IsUpper(s[i])
    ensures Slugify(s) == s
  {
  }

  /** The cases of the slug test table. */
  lemma SlugifyExamples()
    ensures Slugify("aBc  DeF") == "abc__def"
    ensures Slugify("aBc") == "abc"
    ensures Slugify("abc") == "abc"
  {
  }

  /** The 415 error of a rejected payload (reason phrase from section 15.5.16 of RFC 9110). */
  lemma UnsupportedMediaTypeError()
    ensures NewError(415) == ErrorDetails(415, "unsupported_media_type", "Unsupported Media Type", Null)
    ensures NewError(415).JsonResponse().bodyDecoded
         == Some(Object([("error", Object([
              ("status", Number(415)),
              ("code", String("unsupported_media_type")),
              ("message", String("Unsupported Media Type")),
              ("meta", Null)]))]))
  {
    assert Status.Text(415) == "Unsupported Media Type";
    SlugOfUnsupportedMediaType();
  }

  lemma SlugOfUnsupportedMediaType()
    ensures Slugify("Unsupported Media Type") == "unsupported_media_type"
  {
  }
}
