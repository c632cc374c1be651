/** Reason phrases of HTTP status codes (Go's `http.StatusText`), for the codes this model uses. */
module Status {

  const OK := 200
  const UnsupportedMediaType := 415

  /** The reason phrase of `code` (the table of Go's `http.StatusText`), or "" for a code not in the table. */
  function Text(code: int): (t: string)
    ensures code == UnsupportedMediaType ==> t == "Unsupported Media Type"
    ensures code == OK ==> t == "OK"
  {
    match code
    case 200 => "OK"
    case 201 => "Created"
    case 202 => "Accepted"
    case 204 => "No Content"
    case 301 => "Moved Permanently"
    case 302 => "Found"
    case 304 => "Not Modified"
    case 400 => "Bad Request"
    case 401 => "Unauthorized"
    case 403 => "Forbidden"
    case 404 => "Not Found"
    case 405 => "Method Not Allowed"
    case 409 => "Conflict"
    case 415 => "Unsupported Media Type"
    case 422 => "Unprocessable Entity"
    case 429 => "Too Many Requests"
    case 500 => "Internal Server Error"
    case 502 => "Bad Gateway"
    case 503 => "Service Unavailable"
    case _ => ""
  }
}
