/** HTTP messages as the retry doors see them. */
module Messages {
  import opened Prelude
  import opened Errors
  import opened Bodies

  /** An http.Header under canonical keys. */
  type Header = map<string, seq<string>>

  function Get(h: Header, key: string): string {
    if key in h && h[key] != [] then h[key][0] else ""
  }

  /** A response: its status, its Retry-After field with what a date in it means at that
      moment, and its body, if it has one. */
  datatype Response = Response(status: int, retryAfter: string, until: string -> Option<Int64>, body: Option<Script>)

  /** What one round trip returns. */
  datatype Outcome = Outcome(response: Option<Response>, error: Option<Error>)

  /** A caller's request. body is None for a nil body or http.NoBody; getBody, when set, gives
      a new reader over the body, or fails, on each retry. */
  datatype Req = Req(
    verb: string, header: Header,
    body: Option<seq<Byte>>, getBody: Option<nat -> Result<seq<Byte>, Error>>)
}
