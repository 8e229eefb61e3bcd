/**
 * What a handler sees of a Flask request and what it answers with.
 * Header and environ lookups that may be absent are `Option`s.
 */
module Http {
  import opened Wrappers

  datatype Request = Request(
    apiKeyHeader: Option<string>,   // X-API-Key
    userAgent: Option<string>,      // User-Agent
    forwardedFor: Option<string>,   // environ HTTP_X_FORWARDED_FOR
    remoteAddr: string,             // environ REMOTE_ADDR (always set by the WSGI server)
    endpoint: Option<string>,       // request.endpoint (None when no route matched)
    path: string)                   // request.path

  /**
   * A JSON reply: the HTTP status code, its 'error' (or, on success,
   * 'message') text, and the secondary 'message' text where the source
   * sends both ("" otherwise).
   */
  datatype Reply = Reply(code: int, text: string, detail: string)

  /** A reply with a single text. */
  function Answer(code: int, text: string): (r: Reply)
    ensures r.code == code && r.text == text && r.detail == ""
  {
    Reply(code, text, "")
  }
}
