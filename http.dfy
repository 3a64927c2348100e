/**
 * The parts of an HTTP exchange the client looks at: header lookup, the
 * `to_str` check on header values, status classes and a received response.
 */
module Http {
  import opened Wrappers
  import opened Strings
  import opened Json

  /** A header map after name normalisation: the key is the lower-case header
      name, the value the first value received for it, one character per byte. */
  type Headers = map<string, string>

  /** `HeaderValue::to_str` succeeds only for visible ASCII and tab. */
  predicate VisibleAscii(v: string) {
    forall i :: 0 <= i < |v| ==> (32 <= v[i] as int <= 126 || v[i] == '\t')
  }

  /** `headers.get(name).and_then(|v| v.to_str().ok())` */
  function HeaderStr(h: Headers, name: string): (r: Option<string>)
    ensures r.Some? <==> name in h && VisibleAscii(h[name])
    ensures r.Some? ==> r.value == h[name]
  {
    if name in h && VisibleAscii(h[name]) then Some(h[name]) else None
  }

  predicate IsSuccess(status: nat) { 200 <= status <= 299 }

  predicate IsServerError(status: nat) { 500 <= status <= 599 }

  /** Statuses `send` retries: 429 Too Many Requests and every 5xx. */
  predicate IsRetryable(status: nat) { status == 429 || IsServerError(status) }

  /** A received response: `reason` is the canonical reason phrase the status
      is displayed with, `text` the body, `json` the body read as JSON (`None`
      when it does not parse). */
  datatype Response = Response(status: nat, reason: string, headers: Headers, text: string, json: Option<Json>)

  /** `format!("{status}")` of a status code: the code and its reason phrase. */
  function StatusDisplay(r: Response): string {
    NatToString(r.status) + " " + r.reason
  }
}
