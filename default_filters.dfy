/** The preset lists of loggable property names, in logging order. */
module DefaultFilters {
  import opened PhpArrays

  /** "Standard" (necessary) properties. */
  const STANDARD: seq<string> := ["date", "ip", "method", "url", "query", "data", "code", "body"]

  /** Every request property, then every response property. */
  const FULL: seq<string> :=
    ["date", "base", "url", "referrer", "method", "ip", "port", "scheme", "user_agent", "type",
     "length", "accept", "query", "data", "cookies", "files", "is_https", "ajax", "request_headers",
     "code", "body", "response_headers"]

  /** Every request property. */
  const REQUEST_ONLY: seq<string> :=
    ["date", "base", "url", "referrer", "method", "ip", "port", "scheme", "user_agent", "type",
     "length", "accept", "query", "data", "cookies", "files", "is_https", "ajax", "request_headers"]

  /** Every response property. */
  const RESPONSE_ONLY: seq<string> := ["code", "body", "response_headers"]

  /** FULL is the request list followed by the response list. */
  lemma FullIsRequestThenResponse()
    ensures FULL == REQUEST_ONLY + RESPONSE_ONLY
  {
  }

  /** No preset names a property twice. */
  lemma PresetsDistinct()
    ensures Distinct(STANDARD) && Distinct(REQUEST_ONLY) && Distinct(RESPONSE_ONLY) && Distinct(FULL)
  {
  }

  /** Every standard property is also logged by the full preset. */
  lemma StandardWithinFull()
    ensures forall n :: n in STANDARD ==> n in FULL
  {
  }
}
