/**
  `require_api_key`: the decorator on the write routes. It compares the
  `X-API-KEY` request header with the configured key before the wrapped
  handler runs.
 */
module Auth {
  import opened Wrappers
  import opened Responses

  /** A key is configured when API_KEY is set to a non-empty value; otherwise the routes are open (dev mode). */
  predicate KeyConfigured(expected: Option<string>) {
    expected.Some? && expected.value != ""
  }

  const UnauthorizedResponse := Error(Unauthorized, "Invalid or missing API key")

  /**
    The decorator's decision: `None` lets the wrapped handler run and its
    response pass through unchanged; `Some(r)` answers with `r` instead.
   */
  function Guard(expected: Option<string>, provided: Option<string>): (r: Option<Response>)
    ensures r.Some? ==> r.value == UnauthorizedResponse && StatusOf(r.value) == 401
  {
    if !KeyConfigured(expected) then None
    else if provided.None? || provided.value == "" || provided.value != expected.value then Some(UnauthorizedResponse)
    else None
  }

  /** The handler runs exactly when no key is configured or the header equals the key. */
  lemma GuardAdmitsIff(expected: Option<string>, provided: Option<string>)
    ensures Guard(expected, provided).None? <==> !KeyConfigured(expected) || provided == expected
  {
  }

  /** Without a configured key every request is admitted. */
  lemma DevModeAdmitsAll(expected: Option<string>, provided: Option<string>)
    requires !KeyConfigured(expected)
    ensures Guard(expected, provided) == None
  {
  }

  /** With a key configured, a missing or empty header is refused. */
  lemma MissingKeyRefused(expected: Option<string>, provided: Option<string>)
    requires KeyConfigured(expected)
    requires provided == None || provided == Some("")
    ensures Guard(expected, provided) == Some(UnauthorizedResponse)
  {
  }

  /** With a key configured, any other header value is refused. */
  lemma WrongKeyRefused(expected: Option<string>, provided: string)
    requires KeyConfigured(expected) && provided != expected.value
    ensures Guard(expected, Some(provided)) == Some(UnauthorizedResponse)
  {
  }
}
