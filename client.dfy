/**
 * The API client of src/client.rs: base-URL normalisation, the
 * `Authorization` header, retry waits, the retrying `send`, the object or
 * array paginator and request-id lookup. The network is an oracle indexed by
 * request number and the clock an oracle indexed by wait number.
 */
module Client {
  import opened Wrappers
  import opened Strings
  import opened Json
  import opened Http
  import opened Urls
  import opened Pagination

  /** How many times `send` retries (so at most four requests go out). */
  const MAX_ATTEMPTS: nat := 3
  /** Upper bound (exclusive) of the jitter added to every response wait. */
  const JITTER_MS: nat := 250

  /** src/auth.rs */
  datatype AuthMethod = Basic(email: string, token: string) | Bearer(token: string)

  datatype ApiClient = ApiClient(
    siteUrl: string,
    apiBaseV1: string,
    apiBaseV2: string,
    origin: string,
    auth: AuthMethod)

  function Pow2(n: nat): (r: nat)
    ensures r >= 1
  {
    if n == 0 then 1 else 2 * Pow2(n - 1)
  }

  // ------------------------------------------------------------------ origin

  /** `scheme://host[:port]` of a parsed site URL. */
  /** `:port` when the URL names a non-default port. */
  function PortSuffix(port: Option<nat>): string {
    match port
    case Some(p) => ":" + NatToString(p)
    case None => ""
  }

  function OriginFromUrl(parsed: Result<ParsedUrl>): (r: Result<string>)
    ensures parsed.Err? ==> r == Err(parsed.error)
    ensures parsed.Ok? && parsed.value.host.None? ==> r == Err("Invalid Confluence URL: missing host")
    ensures parsed.Ok? && parsed.value.host.Some? ==> r.Ok?
    ensures r.Ok? && ':' !in parsed.value.scheme && ':' !in parsed.value.host.value ==>
      SplitOrigin(r.value) == Some((parsed.value.scheme, parsed.value.host.value, parsed.value.port))
  {
    match parsed
    case Err(e) => Err(e)
    case Ok(u) =>
      match u.host
      case None => Err("Invalid Confluence URL: missing host")
      case Some(host) =>
        var origin := u.scheme + "://" + host + PortSuffix(u.port);
        if ':' !in u.scheme && ':' !in host then
          OriginSplits(u.scheme, host, u.port);
          Ok(origin)
        else Ok(origin)
  }

  /** Reads an origin back: the scheme before the first `:`, then `//`, the
      host and an optional `:port`. */
  function SplitOrigin(o: string): Option<(string, string, Option<nat>)> {
    match SplitOnce(o, ':')
    case None => None
    case Some((scheme, rest)) =>
      if !StartsWith(rest, "//") then None
      else
        match SplitOnce(rest[2..], ':')
        case None => Some((scheme, rest[2..], None))
        case Some((host, port)) =>
          if AllDigits(port) then Some((scheme, host, Some(DigitsValue(port)))) else None
  }

  lemma OriginSplits(scheme: string, host: string, port: Option<nat>)
    requires ':' !in scheme && ':' !in host
    ensures SplitOrigin(scheme + "://" + host + PortSuffix(port)) == Some((scheme, host, port))
  {
    var hp := host + PortSuffix(port);
    assert scheme + "://" + host + PortSuffix(port) == scheme + "://" + hp;
    if port.Some? {
      HostPortSplits(host, port.value, hp);
    } else {
      assert hp == host;
    }
    OriginFront(scheme, hp);
  }

  lemma HostPortSplits(host: string, p: nat, hp: string)
    requires ':' !in host && hp == host + PortSuffix(Some(p))
    ensures SplitOnce(hp, ':') == Some((host, NatToString(p)))
    ensures AllDigits(NatToString(p)) && DigitsValue(NatToString(p)) == p
  {
    SplitOnceUnique(hp, ':', host, NatToString(p));
    NatToStringRoundTrip(p);
  }

  /** After a colon-free scheme and `://`, `SplitOrigin` reads host and port
      from the rest. */
  lemma OriginFront(scheme: string, hp: string)
    requires ':' !in scheme
    ensures SplitOnce(hp, ':').None? ==> SplitOrigin(scheme + "://" + hp) == Some((scheme, hp, None))
    ensures forall h, p :: SplitOnce(hp, ':') == Some((h, p)) && AllDigits(p) ==>
      SplitOrigin(scheme + "://" + hp) == Some((scheme, h, Some(DigitsValue(p))))
  {
    var rest := "//" + hp;
    assert scheme + "://" + hp == scheme + [':'] + rest;
    SplitOnceUnique(scheme + "://" + hp, ':', scheme, rest);
    assert StartsWith(rest, "//");
    assert rest[2..] == hp;
  }

  // ------------------------------------------------------------------ client

  /** `ApiClient::new`: the three base URLs lose their trailing slashes and the
      origin comes from the trimmed site URL; `parse` is `Url::parse`. */
  function NewClient(site: string, v1: string, v2: string, auth: AuthMethod,
                     parse: string -> Result<ParsedUrl>): (r: Result<ApiClient>)
    ensures r.Ok? <==> OriginFromUrl(parse(TrimEndChar(site, '/'))).Ok?
    ensures r.Err? ==> r.error == OriginFromUrl(parse(TrimEndChar(site, '/'))).error
    ensures r.Ok? ==> r.value.auth == auth && OriginFromUrl(parse(r.value.siteUrl)) == Ok(r.value.origin)
    ensures r.Ok? ==> !EndsWith(r.value.siteUrl, "/") && !EndsWith(r.value.apiBaseV1, "/") && !EndsWith(r.value.apiBaseV2, "/")
    ensures r.Ok? ==> |r.value.siteUrl| <= |site| && site == r.value.siteUrl + Repeat("/", |site| - |r.value.siteUrl|)
    ensures r.Ok? ==> |r.value.apiBaseV1| <= |v1| && v1 == r.value.apiBaseV1 + Repeat("/", |v1| - |r.value.apiBaseV1|)
    ensures r.Ok? ==> |r.value.apiBaseV2| <= |v2| && v2 == r.value.apiBaseV2 + Repeat("/", |v2| - |r.value.apiBaseV2|)
  {
    var s := TrimEndChar(site, '/');
    var a := TrimEndChar(v1, '/');
    var b := TrimEndChar(v2, '/');
    TrimmedSlashes(site);
    TrimmedSlashes(v1);
    TrimmedSlashes(v2);
    match OriginFromUrl(parse(s))
    case Err(e) => Err(e)
    case Ok(origin) => Ok(ApiClient(s, a, b, origin, auth))
  }

  lemma TrimmedSlashes(s: string)
    ensures var t := TrimEndChar(s, '/');
      !EndsWith(t, "/") && s == t + Repeat("/", |s| - |t|)
  {
    var t := TrimEndChar(s, '/');
    var n := |s| - |t|;
    if t != [] {
      assert t[|t| - 1..] != "/" by {
        assert t[|t| - 1..][0] == t[|t| - 1] != '/';
      }
    }
    RepeatAll('/', n);
    var tail := Repeat("/", n);
    forall i | 0 <= i < n ensures s[|t|..][i] == tail[i] {
      assert s[|t| + i] == '/';
    }
    assert s[|t|..] == tail;
    assert s == s[..|t|] + s[|t|..];
  }

  lemma {:induction false} RepeatAll(c: char, n: nat)
    ensures |Repeat([c], n)| == n && forall i :: 0 <= i < n ==> Repeat([c], n)[i] == c
    decreases n
  {
    if n > 0 {
      RepeatAll(c, n - 1);
    }
  }

  function V2Url(c: ApiClient, path: string): string {
    c.apiBaseV2 + path
  }

  function V1Url(c: ApiClient, path: string): string {
    c.apiBaseV1 + path
  }

  /** Extra trailing slashes on the configured bases change nothing: the same
      client, hence the same request URLs, comes out. */
  lemma TrailingSlashesIgnored(site: string, v1: string, v2: string, auth: AuthMethod,
                               parse: string -> Result<ParsedUrl>, n: nat, path: string)
    ensures NewClient(site + Repeat("/", n), v1 + Repeat("/", n), v2 + Repeat("/", n), auth, parse)
         == NewClient(site, v1, v2, auth, parse)
    ensures NewClient(site, v1, v2, auth, parse).Ok? ==>
      V1Url(NewClient(site, v1, v2, auth, parse).value, path) == TrimEndChar(v1, '/') + path &&
      V2Url(NewClient(site, v1, v2, auth, parse).value, path) == TrimEndChar(v2, '/') + path
  {
    TrimEndCharRepeat(site, '/', n);
    TrimEndCharRepeat(v1, '/', n);
    TrimEndCharRepeat(v2, '/', n);
  }

  // ----------------------------------------------------------- authorization

  /** The `Authorization` header value: `Basic` with the base64 (section 4 of
      RFC 4648, given as `base64`) of `email:token` (section 2 of RFC 7617), or
      `Bearer` with the token (section 2.1 of RFC 6750). */
  function AuthorizationHeader(auth: AuthMethod, base64: string -> string): (r: string)
    ensures auth.Basic? ==> SplitOnce(r, ' ') == Some(("Basic", base64(auth.email + ":" + auth.token)))
    ensures auth.Bearer? ==> SplitOnce(r, ' ') == Some(("Bearer", auth.token))
  {
    match auth
    case Basic(email, token) =>
      var raw := email + ":" + token;
      SplitOnceUnique("Basic " + base64(raw), ' ', "Basic", base64(raw));
      "Basic " + base64(raw)
    case Bearer(token) =>
      SplitOnceUnique("Bearer " + token, ' ', "Bearer", token);
      "Bearer " + token
  }

  /** The credentials string splits back into the user id and the password at
      its first colon, as section 2 of RFC 7617 reads it, when the e-mail holds
      no colon. */
  lemma BasicCredentialsSplit(email: string, token: string)
    requires ':' !in email
    ensures SplitOnce(email + ":" + token, ':') == Some((email, token))
  {
    SplitOnceUnique(email + ":" + token, ':', email, token);
  }

  // ------------------------------------------------------------------ waits

  /** `jitter(max)`: the sub-second nanoseconds of the clock reduced below the
      bound in milliseconds. */
  function Jitter(nanos: nat, maxMs: nat): (ms: nat)
    ensures maxMs == 0 ==> ms == 0
    ensures maxMs > 0 ==> ms < maxMs
  {
    if maxMs == 0 then 0 else nanos % maxMs
  }

  /** The `Retry-After` header as delay-seconds (section 10.2.3 of RFC 9110):
      trimmed and read as a `u64`. */
  function RetryAfterSecs(h: Headers): Option<nat> {
    match HeaderStr(h, "retry-after")
    case None => None
    case Some(v) => ParseUnsigned(Trim(v), U64_BOUND)
  }

  /** `retry_wait_from_headers`, in milliseconds: the server's delay or
      2^(attempt-1) seconds, plus jitter below 250 ms. `2u64.pow` overflows
      past attempt 64. */
  function RetryWaitMs(h: Headers, attempt: nat, nanos: nat): (ms: nat)
    requires 1 <= attempt <= 64
    ensures RetryAfterSecs(h).Some? ==>
      RetryAfterSecs(h).value * 1000 <= ms < RetryAfterSecs(h).value * 1000 + JITTER_MS
    ensures RetryAfterSecs(h).None? ==>
      Pow2(attempt - 1) * 1000 <= ms < Pow2(attempt - 1) * 1000 + JITTER_MS
  {
    match RetryAfterSecs(h)
    case Some(secs) => secs * 1000 + Jitter(nanos, JITTER_MS)
    case None => Pow2(attempt - 1) * 1000 + Jitter(nanos, JITTER_MS)
  }

  // ------------------------------------------------------------------- send

  /** What one request produced: a transport error or a response. */
  datatype Exchange = Transport(error: string) | Reply(response: Response)

  /** The retry decision after a request: give the result back, or retry. */
  datatype Step = Return(result: Result<Response>) | Retry

  /** The decision `send` takes at the top of its loop with `attempts` retries
      already made. */
  function Decide(ex: Exchange, attempts: nat): (s: Step)
    ensures s.Retry? <==> (attempts < MAX_ATTEMPTS
      && (ex.Transport? || (!IsSuccess(ex.response.status) && IsRetryable(ex.response.status))))
    ensures s.Return? && s.result.Ok? <==> ex.Reply? && IsSuccess(ex.response.status)
    ensures s.Return? && s.result.Ok? ==> s.result.value == ex.response
    ensures ex.Reply? && !IsSuccess(ex.response.status) && s.Return? ==>
      s.result == Err("Request failed: " + StatusDisplay(ex.response) + " " + ex.response.text)
    ensures ex.Transport? && s.Return? ==> s.result == Err(ex.error)
  {
    match ex
    case Reply(resp) =>
      if IsSuccess(resp.status) then Return(Ok(resp))
      else if attempts < MAX_ATTEMPTS && IsRetryable(resp.status) then Retry
      else Return(Err("Request failed: " + StatusDisplay(resp) + " " + resp.text))
    case Transport(e) =>
      if attempts < MAX_ATTEMPTS then Retry else Return(Err(e))
  }

  /** The wait before retry number `attempts + 1`: a response's retry wait, or
      exactly 2^attempts seconds after a transport error. */
  function WaitAfter(ex: Exchange, attempts: nat, nanos: nat): nat
    requires attempts < MAX_ATTEMPTS
  {
    match ex
    case Reply(resp) => RetryWaitMs(resp.headers, attempts + 1, nanos)
    case Transport(_) => Pow2(attempts) * 1000
  }

  /** The result, the number of requests made and the waits slept. */
  datatype SendTrace = SendTrace(result: Result<Response>, requests: nat, waits: seq<nat>)

  /** `send` from the point where `attempts` retries have been made; request
      number `i` gets `net(i)` and wait number `i` reads the clock `nanos(i)`. */
  function SendFrom(net: nat -> Exchange, nanos: nat -> nat, attempts: nat): SendTrace
    requires attempts <= MAX_ATTEMPTS
    decreases MAX_ATTEMPTS - attempts
  {
    match Decide(net(attempts), attempts)
    case Return(r) => SendTrace(r, attempts + 1, [])
    case Retry =>
      var rest := SendFrom(net, nanos, attempts + 1);
      SendTrace(rest.result, rest.requests, [WaitAfter(net(attempts), attempts, nanos(attempts))] + rest.waits)
  }

  /** `send` and `send_with_json_body` (the body rides along unchanged on every
      attempt, so both run this loop). */
  method Send(net: nat -> Exchange, nanos: nat -> nat) returns (result: Result<Response>, requests: nat, waits: seq<nat>)
    ensures SendTrace(result, requests, waits) == SendFrom(net, nanos, 0)
  {
    var attempts := 0;
    waits := [];
    while true
      invariant attempts <= MAX_ATTEMPTS
      invariant |waits| == attempts
      invariant SendFrom(net, nanos, 0) == var t := SendFrom(net, nanos, attempts); SendTrace(t.result, t.requests, waits + t.waits)
      decreases MAX_ATTEMPTS - attempts
    {
      var ex := net(attempts);
      var step := Decide(ex, attempts);
      if step.Return? {
        result, requests := step.result, attempts + 1;
        return;
      }
      var wait := WaitAfter(ex, attempts, nanos(attempts));
      SendStep(net, nanos, attempts, waits);
      attempts := attempts + 1;
      waits := waits + [wait];
    }
  }

  /** The loop of `Send` after one retry: the trace still splits into the
      waits so far and the run from the next attempt. */
  lemma SendStep(net: nat -> Exchange, nanos: nat -> nat, attempts: nat, waits: seq<nat>)
    requires attempts <= MAX_ATTEMPTS && Decide(net(attempts), attempts).Retry?
    requires SendFrom(net, nanos, 0)
          == var t := SendFrom(net, nanos, attempts); SendTrace(t.result, t.requests, waits + t.waits)
    ensures attempts < MAX_ATTEMPTS
    ensures SendFrom(net, nanos, 0)
         == var t := SendFrom(net, nanos, attempts + 1);
            SendTrace(t.result, t.requests, (waits + [WaitAfter(net(attempts), attempts, nanos(attempts))]) + t.waits)
  {
    var wait := WaitAfter(net(attempts), attempts, nanos(attempts));
    var rest := SendFrom(net, nanos, attempts + 1);
    assert SendFrom(net, nanos, attempts) == SendTrace(rest.result, rest.requests, [wait] + rest.waits);
    assert waits + ([wait] + rest.waits) == (waits + [wait]) + rest.waits;
  }

  lemma {:induction false} SendCount(net: nat -> Exchange, nanos: nat -> nat, attempts: nat)
    requires attempts <= MAX_ATTEMPTS
    ensures var t := SendFrom(net, nanos, attempts);
      attempts < t.requests <= MAX_ATTEMPTS + 1
      && |t.waits| == t.requests - 1 - attempts
      && Decide(net(t.requests - 1), t.requests - 1) == Return(t.result)
    decreases MAX_ATTEMPTS - attempts
  {
    if Decide(net(attempts), attempts).Retry? {
      SendFromRetry(net, nanos, attempts);
      SendCount(net, nanos, attempts + 1);
    } else {
      SendFromReturn(net, nanos, attempts);
    }
  }

  /** The attempt that is not retried ends the run with its result. */
  lemma SendFromReturn(net: nat -> Exchange, nanos: nat -> nat, attempts: nat)
    requires attempts <= MAX_ATTEMPTS && Decide(net(attempts), attempts).Return?
    ensures SendFrom(net, nanos, attempts) == SendTrace(Decide(net(attempts), attempts).result, attempts + 1, [])
  {
  }

  /** One retry step of `SendFrom`: the same result and request count as the
      run from the next attempt on, with this attempt's wait in front. */
  lemma SendFromRetry(net: nat -> Exchange, nanos: nat -> nat, attempts: nat)
    requires attempts <= MAX_ATTEMPTS && Decide(net(attempts), attempts).Retry?
    ensures attempts < MAX_ATTEMPTS
    ensures SendFrom(net, nanos, attempts).requests == SendFrom(net, nanos, attempts + 1).requests
    ensures SendFrom(net, nanos, attempts).result == SendFrom(net, nanos, attempts + 1).result
    ensures SendFrom(net, nanos, attempts).waits
         == [WaitAfter(net(attempts), attempts, nanos(attempts))] + SendFrom(net, nanos, attempts + 1).waits
  {
  }

  /** Request number `i`, not the last one, was retried after wait number `i`. */
  lemma SendRetryAt(net: nat -> Exchange, nanos: nat -> nat, attempts: nat, i: nat)
    requires attempts <= MAX_ATTEMPTS && attempts <= i < SendFrom(net, nanos, attempts).requests - 1
    ensures i < MAX_ATTEMPTS && Decide(net(i), i).Retry?
    ensures var w := SendFrom(net, nanos, attempts).waits;
      i - attempts < |w| && w[i - attempts] == WaitAfter(net(i), i, nanos(i))
  {
    SendRetryDecided(net, nanos, attempts, i);
    SendRetryWaited(net, nanos, attempts, i);
  }

  lemma {:induction false} SendRetryDecided(net: nat -> Exchange, nanos: nat -> nat, attempts: nat, i: nat)
    requires attempts <= MAX_ATTEMPTS && attempts <= i < SendFrom(net, nanos, attempts).requests - 1
    ensures i < MAX_ATTEMPTS && Decide(net(i), i).Retry?
    decreases i - attempts
  {
    if Decide(net(attempts), attempts).Retry? {
      SendFromRetry(net, nanos, attempts);
      if i > attempts {
        SendRetryDecided(net, nanos, attempts + 1, i);
      }
    }
  }

  lemma {:induction false} SendRetryWaited(net: nat -> Exchange, nanos: nat -> nat, attempts: nat, i: nat)
    requires attempts <= MAX_ATTEMPTS && attempts <= i < SendFrom(net, nanos, attempts).requests - 1
    requires i < MAX_ATTEMPTS
    ensures var w := SendFrom(net, nanos, attempts).waits;
      i - attempts < |w| && w[i - attempts] == WaitAfter(net(i), i, nanos(i))
    decreases i - attempts
  {
    if Decide(net(attempts), attempts).Retry? {
      SendFromRetry(net, nanos, attempts);
      if i > attempts {
        var w := SendFrom(net, nanos, attempts).waits;
        var rest := SendFrom(net, nanos, attempts + 1).waits;
        SendRetryWaited(net, nanos, attempts + 1, i);
        assert w[i - attempts] == rest[i - (attempts + 1)];
      }
    }
  }

  lemma SendRetries(net: nat -> Exchange, nanos: nat -> nat, attempts: nat)
    requires attempts <= MAX_ATTEMPTS
    ensures var t := SendFrom(net, nanos, attempts);
      forall i :: attempts <= i < t.requests - 1 ==>
        i < MAX_ATTEMPTS && Decide(net(i), i).Retry? && i - attempts < |t.waits| && t.waits[i - attempts] == WaitAfter(net(i), i, nanos(i))
  {
    var t := SendFrom(net, nanos, attempts);
    forall i | attempts <= i < t.requests - 1
      ensures i < MAX_ATTEMPTS && Decide(net(i), i).Retry? && i - attempts < |t.waits| && t.waits[i - attempts] == WaitAfter(net(i), i, nanos(i))
    {
      SendRetryAt(net, nanos, attempts, i);
    }
  }

  /** The whole exchange: between one and four requests; every request but the
      last was retried after the wait `WaitAfter` gives; the last one decided
      the result. */
  lemma SendShape(net: nat -> Exchange, nanos: nat -> nat, attempts: nat)
    requires attempts <= MAX_ATTEMPTS
    ensures var t := SendFrom(net, nanos, attempts);
      attempts < t.requests <= MAX_ATTEMPTS + 1
      && |t.waits| == t.requests - 1 - attempts
      && Decide(net(t.requests - 1), t.requests - 1) == Return(t.result)
      && forall i :: attempts <= i < t.requests - 1 ==>
           i < MAX_ATTEMPTS && Decide(net(i), i).Retry? && t.waits[i - attempts] == WaitAfter(net(i), i, nanos(i))
  {
    SendCount(net, nanos, attempts);
    SendRetries(net, nanos, attempts);
  }

  /** `send` returns only a 2xx response, and it returns the first one. */
  lemma SendReturnsFirstSuccess(net: nat -> Exchange, nanos: nat -> nat, k: nat)
    requires k <= MAX_ATTEMPTS && net(k).Reply? && IsSuccess(net(k).response.status)
    requires forall i :: 0 <= i < k ==> net(i).Transport? || IsRetryable(net(i).response.status)
    ensures SendFrom(net, nanos, 0).result == Ok(net(k).response)
    ensures SendFrom(net, nanos, 0).requests == k + 1
  {
    SendShape(net, nanos, 0);
  }

  lemma SendOkIsSuccess(net: nat -> Exchange, nanos: nat -> nat)
    ensures SendFrom(net, nanos, 0).result.Ok? ==> IsSuccess(SendFrom(net, nanos, 0).result.value.status)
  {
    SendShape(net, nanos, 0);
  }

  /** A first response that is neither 2xx nor retryable (a 4xx other than
      429) fails at once, with no retry. */
  lemma SendNoRetryOnClientError(net: nat -> Exchange, nanos: nat -> nat)
    requires net(0).Reply? && !IsSuccess(net(0).response.status) && !IsRetryable(net(0).response.status)
    ensures SendFrom(net, nanos, 0) ==
      SendTrace(Err("Request failed: " + StatusDisplay(net(0).response) + " " + net(0).response.text), 1, [])
  {
  }

  /** Four retryable failures in a row exhaust the retries: four requests,
      three waits, and the fourth failure is the result. */
  lemma SendGivesUp(net: nat -> Exchange, nanos: nat -> nat)
    requires forall i :: 0 <= i <= MAX_ATTEMPTS ==>
      net(i).Transport? || (!IsSuccess(net(i).response.status) && IsRetryable(net(i).response.status))
    ensures SendFrom(net, nanos, 0).requests == 4 && |SendFrom(net, nanos, 0).waits| == 3
    ensures SendFrom(net, nanos, 0).result.Err?
  {
    SendShape(net, nanos, 0);
  }

  /** Transport-error waits are 1 s, 2 s and 4 s with no jitter; response waits
      are the server's delay or the same doubling, plus less than 250 ms. */
  lemma SendWaits(net: nat -> Exchange, nanos: nat -> nat, i: nat)
    requires i < |SendFrom(net, nanos, 0).waits|
    ensures net(i).Transport? ==> SendFrom(net, nanos, 0).waits[i] == Pow2(i) * 1000
    ensures net(i).Reply? && RetryAfterSecs(net(i).response.headers).None? ==>
      Pow2(i) * 1000 <= SendFrom(net, nanos, 0).waits[i] < Pow2(i) * 1000 + JITTER_MS
    ensures net(i).Reply? && RetryAfterSecs(net(i).response.headers).Some? ==>
      var s := RetryAfterSecs(net(i).response.headers).value;
      s * 1000 <= SendFrom(net, nanos, 0).waits[i] < s * 1000 + JITTER_MS
  {
    SendShape(net, nanos, 0);
  }

  /** `get_json`: the response of a successful `send`, read as JSON. */
  function GetJson(sent: Result<Response>): (r: Result<(Json, Headers)>)
    ensures r.Ok? <==> sent.Ok? && sent.value.json.Some?
    ensures r.Ok? ==> r.value == (sent.value.json.value, sent.value.headers)
  {
    match sent
    case Err(e) => Err(e)
    case Ok(resp) =>
      match resp.json
      case None => Err("error decoding response body")
      case Some(j) => Ok((j, resp.headers))
  }

  // ------------------------------------------------------ upload_attachment

  const INVALID_FILE_NAME: string := "Invalid file name"

  /** The URL `upload_attachment` posts the file to. */
  function UploadUrl(c: ApiClient, pageId: string): string {
    V1Url(c, "/content/" + pageId + "/child/attachment")
  }

  /** `upload_attachment`: `fileName` is the last component of the path,
      `openResult` what opening the file and reading its length came to, and `ex`
      the one request, which is not retried since the streamed body cannot be
      sent again. */
  function UploadAttachment(fileName: Option<string>, openResult: Result<()>, ex: Exchange): (r: Result<Json>)
    ensures fileName.None? ==> r == Err(INVALID_FILE_NAME)
    ensures fileName.Some? && openResult.Err? ==> r == Err(openResult.error)
    ensures r.Ok? <==> fileName.Some? && openResult.Ok? && ex.Reply? && IsSuccess(ex.response.status)
                       && ex.response.json.Some?
    ensures r.Ok? ==> r.value == ex.response.json.value
    ensures fileName.Some? && openResult.Ok? && ex.Transport? ==> r == Err(ex.error)
    ensures fileName.Some? && openResult.Ok? && ex.Reply? && !IsSuccess(ex.response.status) ==>
      r == Err("Upload failed: " + StatusDisplay(ex.response) + " " + ex.response.text)
  {
    if fileName.None? then Err(INVALID_FILE_NAME)
    else if openResult.Err? then Err(openResult.error)
    else
      match ex
      case Transport(e) => Err(e)
      case Reply(resp) =>
        if !IsSuccess(resp.status) then Err("Upload failed: " + StatusDisplay(resp) + " " + resp.text)
        else if resp.json.None? then Err("error decoding response body")
        else Ok(resp.json.value)
  }

  /** A 429 or 5xx that `send` would answer with another request ends the
      upload with that first response. */
  lemma UploadNotRetried(fileName: string, net: nat -> Exchange, nanos: nat -> nat)
    requires net(0).Reply? && IsRetryable(net(0).response.status)
    ensures SendFrom(net, nanos, 0).requests > 1
    ensures UploadAttachment(Some(fileName), Ok(()), net(0))
      == Err("Upload failed: " + StatusDisplay(net(0).response) + " " + net(0).response.text)
  {
    SendShape(net, nanos, 0);
    assert Decide(net(0), 0).Retry?;
  }

  // -------------------------------------------------------------- paginator

  /** The items of one page: the `results` array of an object, or the array itself. */
  function PageItems(j: Json): Option<seq<Json>> {
    match Get(j, "results")
    case Some(JArr(items)) => Some(items)
    case _ => if j.JArr? then Some(j.items) else None
  }

  /** How a next link is turned into the next request URL: absolute links are
      kept, the rest are joined to the origin. */
  function JoinNext(origin: string, next: string): string {
    if StartsWith(next, "http") then next
    else if StartsWith(next, "/") then origin + next
    else TrimEndChar(origin, '/') + "/" + next
  }

  /** The next request URL after a page: the `Link` header first, then the body. */
  function NextPageUrl(origin: string, j: Json, h: Headers): Option<string> {
    match NextLinkFromHeaders(h).Or(NextLinkFromBody(j))
    case None => None
    case Some(n) => Some(JoinNext(origin, n))
  }

  /** How the paginator stopped: with the items, with an error, or because the
      scripted server had no more responses. */
  datatype PageOutcome = Collected(items: seq<Json>) | PageError(error: string) | ScriptEnded(partial: seq<Json>)

  datatype PageTrace = PageTrace(outcome: PageOutcome, requested: seq<string>)

  /** `get_paginated_results` from the request for `url` on, with `acc`
      collected so far; `script` holds the `get_json` outcomes in request order. */
  function PaginateFrom(origin: string, url: string, all: bool,
                        script: seq<Result<(Json, Headers)>>, acc: seq<Json>): PageTrace
    decreases |script|
  {
    if script == [] then PageTrace(ScriptEnded(acc), [])
    else match script[0]
      case Err(e) => PageTrace(PageError(e), [url])
      case Ok((j, h)) =>
        match PageItems(j)
        case None => PageTrace(PageError("Unexpected response shape: missing results array"), [url])
        case Some(items) =>
          if !all then PageTrace(Collected(acc + items), [url])
          else match NextPageUrl(origin, j, h)
            case None => PageTrace(Collected(acc + items), [url])
            case Some(next) =>
              var rest := PaginateFrom(origin, next, all, script[1..], acc + items);
              PageTrace(rest.outcome, [url] + rest.requested)
  }

  /** The first request of a paginated run, case by case. */
  lemma PaginateHead(origin: string, url: string, all: bool, script: seq<Result<(Json, Headers)>>, acc: seq<Json>)
    requires script != []
    ensures script[0].Err? ==> PaginateFrom(origin, url, all, script, acc) == PageTrace(PageError(script[0].error), [url])
    ensures script[0].Ok? && PageItems(script[0].value.0).None? ==>
      PaginateFrom(origin, url, all, script, acc)
        == PageTrace(PageError("Unexpected response shape: missing results array"), [url])
    ensures (script[0].Ok? && PageItems(script[0].value.0).Some?
             && (!all || NextPageUrl(origin, script[0].value.0, script[0].value.1).None?)) ==>
      PaginateFrom(origin, url, all, script, acc) == PageTrace(Collected(acc + PageItems(script[0].value.0).value), [url])
    ensures (script[0].Ok? && PageItems(script[0].value.0).Some?
             && all && NextPageUrl(origin, script[0].value.0, script[0].value.1).Some?) ==>
      var rest := PaginateFrom(origin, NextPageUrl(origin, script[0].value.0, script[0].value.1).value, all,
                               script[1..], acc + PageItems(script[0].value.0).value);
      PaginateFrom(origin, url, all, script, acc) == PageTrace(rest.outcome, [url] + rest.requested)
  {
  }

  /** One request of the paginator: the page's outcome, or the results so far
      and the next URL. */
  method PageTurn(origin: string, all: bool, url: string, page: Result<(Json, Headers)>, results: seq<Json>,
                  ghost script: seq<Result<(Json, Headers)>>, ghost rest: seq<Result<(Json, Headers)>>)
    returns (stop: bool, outcome: PageOutcome, results': seq<Json>, next: string)
    requires script != [] && script[0] == page && rest == script[1..]
    ensures stop ==> PaginateFrom(origin, url, all, script, results) == PageTrace(outcome, [url])
    ensures !stop ==>
      var t := PaginateFrom(origin, next, all, rest, results');
      PaginateFrom(origin, url, all, script, results) == PageTrace(t.outcome, [url] + t.requested)
  {
    PaginateHead(origin, url, all, script, results);
    results', next := results, url;
    match page {
      case Err(e) =>
        return true, PageError(e), results', next;
      case Ok((j, h)) =>
        var items := PageItems(j);
        if items.None? {
          return true, PageError("Unexpected response shape: missing results array"), results', next;
        }
        var link := NextPageUrl(origin, j, h);
        if !all || link.None? {
          return true, Collected(results + items.value), results', next;
        }
        stop, outcome, results', next := false, Collected([]), results + items.value, link.value;
    }
  }

  lemma TraceStop(t: PageTrace, before: seq<string>, url: string, outcome: PageOutcome, whole: PageTrace)
    requires t == PageTrace(outcome, [url])
    requires whole == PageTrace(t.outcome, before + t.requested)
    ensures whole == PageTrace(outcome, before + [url])
  {
  }

  lemma TraceRegroup(t: PageTrace, before: seq<string>, url: string, after: PageTrace, whole: PageTrace)
    requires t == PageTrace(after.outcome, [url] + after.requested)
    requires whole == PageTrace(t.outcome, before + t.requested)
    ensures whole == PageTrace(after.outcome, (before + [url]) + after.requested)
  {
    assert before + ([url] + after.requested) == (before + [url]) + after.requested;
  }

  /** One turn of `get_paginated_results`' loop, stated against the trace of
      the whole call: either the call ends here with `outcome`, or it goes on
      from `url'` with fewer pages left. */
  method PageStep(origin: string, all: bool, url: string, pending: seq<Result<(Json, Headers)>>,
                  results: seq<Json>, requested: seq<string>, ghost whole: PageTrace)
    returns (stop: bool, outcome: PageOutcome, url': string, pending': seq<Result<(Json, Headers)>>,
             results': seq<Json>, requested': seq<string>)
    requires pending != []
    requires whole == var t := PaginateFrom(origin, url, all, pending, results); PageTrace(t.outcome, requested + t.requested)
    ensures stop ==> whole == PageTrace(outcome, requested')
    ensures !stop ==> |pending'| < |pending|
    ensures !stop ==>
      whole == var t := PaginateFrom(origin, url', all, pending', results'); PageTrace(t.outcome, requested' + t.requested)
  {
    ghost var t := PaginateFrom(origin, url, all, pending, results);
    var n;
    stop, outcome, results', n := PageTurn(origin, all, url, pending[0], results, pending, pending[1..]);
    requested' := requested + [url];
    url', pending' := n, pending[1..];
    if stop {
      TraceStop(t, requested, url, outcome, whole);
    } else {
      TraceRegroup(t, requested, url, PaginateFrom(origin, n, all, pending[1..], results'), whole);
    }
  }

  method GetPaginatedResults(c: ApiClient, url: string, all: bool, script: seq<Result<(Json, Headers)>>)
    returns (outcome: PageOutcome, requested: seq<string>)
    ensures PageTrace(outcome, requested) == PaginateFrom(c.origin, url, all, script, [])
  {
    var results: seq<Json> := [];
    var nextUrl := url;
    var pending := script;
    requested := [];
    ghost var whole := PaginateFrom(c.origin, url, all, script, []);
    TraceStart(whole);
    while pending != []
      invariant whole ==
        var t := PaginateFrom(c.origin, nextUrl, all, pending, results); PageTrace(t.outcome, requested + t.requested)
      decreases |pending|
    {
      var stop;
      stop, outcome, nextUrl, pending, results, requested :=
        PageStep(c.origin, all, nextUrl, pending, results, requested, whole);
      if stop {
        return;
      }
    }
    TraceEnd(c.origin, nextUrl, all, results, requested, whole);
    outcome := ScriptEnded(results);
  }

  lemma TraceStart(whole: PageTrace)
    ensures whole == PageTrace(whole.outcome, [] + whole.requested)
  {
    assert [] + whole.requested == whole.requested;
  }

  /** A run whose script is used up ends with what it has collected. */
  lemma TraceEnd(origin: string, url: string, all: bool, results: seq<Json>, requested: seq<string>, whole: PageTrace)
    requires whole == var t := PaginateFrom(origin, url, all, [], results); PageTrace(t.outcome, requested + t.requested)
    ensures whole == PageTrace(ScriptEnded(results), requested)
  {
    assert requested + [] == requested;
  }

  /** The concatenated items of a run of successful pages. */
  function ConcatPages(pages: seq<Result<(Json, Headers)>>): seq<Json>
    requires forall i :: 0 <= i < |pages| ==> pages[i].Ok? && PageItems(pages[i].value.0).Some?
  {
    if pages == [] then []
    else ConcatPages(pages[..|pages| - 1]) + PageItems(pages[|pages| - 1].value.0).value
  }

  /** Request `i + 1` went to the joined next link of page `i`. */
  predicate Chained(origin: string, all: bool, script: seq<Result<(Json, Headers)>>, requested: seq<string>)
    requires |requested| <= |script|
  {
    forall i :: 0 <= i < |requested| - 1 ==> Links(origin, all, script[i], requested[i + 1])
  }

  /** `page` was fetched with `all` set and its next link, joined to `origin`, is `url`. */
  predicate Links(origin: string, all: bool, page: Result<(Json, Headers)>, url: string) {
    all && page.Ok? && NextPageUrl(origin, page.value.0, page.value.1) == Some(url)
  }

  predicate WellShaped(pages: seq<Result<(Json, Headers)>>) {
    forall i :: 0 <= i < |pages| ==> pages[i].Ok? && PageItems(pages[i].value.0).Some?
  }

  /** A run that collects its items made `n` requests, the first to `url`;
      every page had the expected shape; the last page had no next link, or
      only one page was wanted. */
  lemma {:induction false} PaginateCollectedPages(origin: string, url: string, all: bool,
                                                  script: seq<Result<(Json, Headers)>>, acc: seq<Json>)
    requires PaginateFrom(origin, url, all, script, acc).outcome.Collected?
    ensures var t := PaginateFrom(origin, url, all, script, acc); var n := |t.requested|;
      1 <= n <= |script| && t.requested[0] == url && WellShaped(script[..n])
      && (!all || NextPageUrl(origin, script[n - 1].value.0, script[n - 1].value.1).None?)
      && (!all ==> n == 1)
    decreases |script|
  {
    PaginateCollectedFirst(origin, url, all, script, acc);
    PaginateHead(origin, url, all, script, acc);
    var j := script[0].value.0;
    var h := script[0].value.1;
    var items := PageItems(j).value;
    if all && NextPageUrl(origin, j, h).Some? {
      var next := NextPageUrl(origin, j, h).value;
      var r := PaginateFrom(origin, next, all, script[1..], acc + items);
      PaginateCollectedPages(origin, next, all, script[1..], acc + items);
      WellShapedCons(script, 1 + |r.requested|);
    } else {
      WellShapedCons(script, 1);
    }
  }

  /** A run that collects its items starts with a page of the expected shape. */
  lemma PaginateCollectedFirst(origin: string, url: string, all: bool,
                               script: seq<Result<(Json, Headers)>>, acc: seq<Json>)
    requires PaginateFrom(origin, url, all, script, acc).outcome.Collected?
    ensures script != [] && script[0].Ok? && PageItems(script[0].value.0).Some?
  {
  }

  lemma WellShapedCons(s: seq<Result<(Json, Headers)>>, n: nat)
    requires 1 <= n <= |s| && s[0].Ok? && PageItems(s[0].value.0).Some?
    requires WellShaped(s[1..][..n - 1])
    ensures WellShaped(s[..n])
  {
    forall i | 1 <= i < n ensures s[..n][i].Ok? && PageItems(s[..n][i].value.0).Some? {
      assert s[..n][i] == s[1..][..n - 1][i - 1];
    }
  }

  /** The collected items are the pages' items in page order. */
  lemma {:induction false} PaginateCollectedItems(origin: string, url: string, all: bool,
                                                  script: seq<Result<(Json, Headers)>>, acc: seq<Json>)
    requires PaginateFrom(origin, url, all, script, acc).outcome.Collected?
    ensures var t := PaginateFrom(origin, url, all, script, acc);
      |t.requested| <= |script| && WellShaped(script[..|t.requested|])
      && t.outcome.items == acc + ConcatPages(script[..|t.requested|])
    decreases |script|
  {
    PaginateCollectedPages(origin, url, all, script, acc);
    var j := script[0].value.0;
    var h := script[0].value.1;
    var items := PageItems(j).value;
    if all && NextPageUrl(origin, j, h).Some? {
      var next := NextPageUrl(origin, j, h).value;
      var r := PaginateFrom(origin, next, all, script[1..], acc + items);
      PaginateHead(origin, url, all, script, acc);
      PaginateCollectedItems(origin, next, all, script[1..], acc + items);
      ConcatPagesNext(script, 1 + |r.requested|, acc, r.outcome.items);
    } else {
      PaginateHead(origin, url, all, script, acc);
      ConcatPagesNext(script, 1, acc, acc + items);
    }
  }

  /** The items of the first `n` pages are the first page's, then the rest's. */
  lemma ConcatPagesNext(script: seq<Result<(Json, Headers)>>, n: nat, acc: seq<Json>, items: seq<Json>)
    requires 1 <= n <= |script| && WellShaped(script[..n]) && WellShaped(script[1..][..n - 1])
    requires items == (acc + PageItems(script[0].value.0).value) + ConcatPages(script[1..][..n - 1])
    ensures items == acc + ConcatPages(script[..n])
  {
    assert script[..n][0] == script[0];
    assert script[1..][..n - 1] == script[..n][1..];
    ConcatPagesCons(script[..n]);
  }

  /** Each later request went to the joined next link of the page before it. */
  lemma {:induction false} PaginateCollectedLinks(origin: string, url: string, all: bool,
                                                  script: seq<Result<(Json, Headers)>>, acc: seq<Json>)
    requires PaginateFrom(origin, url, all, script, acc).outcome.Collected?
    ensures var t := PaginateFrom(origin, url, all, script, acc);
      |t.requested| <= |script| && Chained(origin, all, script, t.requested)
    decreases |script|
  {
    PaginateCollectedPages(origin, url, all, script, acc);
    var j := script[0].value.0;
    var h := script[0].value.1;
    var items := PageItems(j).value;
    if all && NextPageUrl(origin, j, h).Some? {
      var next := NextPageUrl(origin, j, h).value;
      var r := PaginateFrom(origin, next, all, script[1..], acc + items);
      PaginateHead(origin, url, all, script, acc);
      PaginateCollectedLinks(origin, next, all, script[1..], acc + items);
      PaginateCollectedPages(origin, next, all, script[1..], acc + items);
      ChainedCons(origin, all, script, url, next, r.requested);
    }
  }

  /** A chain from the next link, behind a first page whose next link it is. */
  lemma ChainedCons(origin: string, all: bool, script: seq<Result<(Json, Headers)>>, url: string, next: string,
                    rest: seq<string>)
    requires script != [] && |rest| <= |script| - 1 && (rest != [] ==> rest[0] == next)
    requires Links(origin, all, script[0], next)
    requires Chained(origin, all, script[1..], rest)
    ensures Chained(origin, all, script, [url] + rest)
  {
    forall i | 0 <= i < |rest| ensures Links(origin, all, script[i], ([url] + rest)[i + 1]) {
      ChainedConsAt(origin, all, script, url, next, rest, i);
    }
  }

  /** One link of that chain. */
  lemma {:induction false} ChainedConsAt(origin: string, all: bool, script: seq<Result<(Json, Headers)>>, url: string,
                                         next: string, rest: seq<string>, i: nat)
    requires script != [] && |rest| <= |script| - 1 && (rest != [] ==> rest[0] == next) && i < |rest|
    requires Links(origin, all, script[0], next)
    requires Chained(origin, all, script[1..], rest)
    ensures Links(origin, all, script[i], ([url] + rest)[i + 1])
  {
    ConsIndex(url, rest, i + 1);
    if i > 0 {
      assert Links(origin, all, script[1..][i - 1], rest[i]);
      assert script[1..][i - 1] == script[i];
    }
  }

  lemma ConsIndex(url: string, rest: seq<string>, i: nat)
    requires 1 <= i < |rest| + 1
    ensures ([url] + rest)[i] == rest[i - 1]
  {
  }

  lemma {:induction false} ConcatPagesCons(pages: seq<Result<(Json, Headers)>>)
    requires |pages| >= 1
    requires forall i :: 0 <= i < |pages| ==> pages[i].Ok? && PageItems(pages[i].value.0).Some?
    ensures ConcatPages(pages) == PageItems(pages[0].value.0).value + ConcatPages(pages[1..])
    decreases |pages|
  {
    if |pages| > 1 {
      var init := pages[..|pages| - 1];
      ConcatPagesCons(init);
      assert init[1..] == pages[1..][..|pages[1..]| - 1];
      assert init[..0] == [];
    } else {
      assert pages[..0] == [];
    }
  }

  /** The next request after a relative `/…` link goes to the origin, not to the
      URL of the page that produced it; a bare relative link gets one `/`. */
  lemma JoinNextAgainstOrigin(origin: string, next: string)
    ensures StartsWith(next, "http") ==> JoinNext(origin, next) == next
    ensures !StartsWith(next, "http") && StartsWith(next, "/") ==> JoinNext(origin, next) == origin + next
    ensures !StartsWith(next, "http") && !StartsWith(next, "/") ==>
      JoinNext(origin, next) == TrimEndChar(origin, '/') + "/" + next && !EndsWith(TrimEndChar(origin, '/'), "/")
  {
  }

  // ------------------------------------------------------------- request id

  const REQUEST_ID_HEADERS: seq<string> := ["x-request-id", "x-arequestid", "x-trace-id", "x-b3-traceid", "traceparent"]

  /** The header `key` holds a usable request id: readable, non-blank. */
  predicate IdUsable(h: Headers, key: string) {
    HeaderStr(h, key).Some? && Trim(HeaderStr(h, key).value) != ""
  }

  /** Position `i` holds the first usable id among `keys`. */
  predicate FirstUsableAt(h: Headers, keys: seq<string>, i: int) {
    0 <= i < |keys| && IdUsable(h, keys[i]) && forall j :: 0 <= j < i ==> !IdUsable(h, keys[j])
  }

  /** The position of the first usable id among `keys`. */
  function FirstUsable(h: Headers, keys: seq<string>): (r: Option<nat>)
    ensures r.None? <==> forall i :: 0 <= i < |keys| ==> !IdUsable(h, keys[i])
    ensures r.Some? ==> (r.value < |keys| && IdUsable(h, keys[r.value])
      && forall j :: 0 <= j < r.value ==> !IdUsable(h, keys[j]))
  {
    var flags := seq(|keys|, i requires 0 <= i < |keys| => IdUsable(h, keys[i]));
    assert forall i :: 0 <= i < |keys| ==> flags[i] == IdUsable(h, keys[i]);
    FirstTrue(flags)
  }

  /** The trimmed value of the first of `keys` holding a usable id. */
  function FirstRequestId(h: Headers, keys: seq<string>): (r: Option<string>)
    ensures r.None? <==> forall i :: 0 <= i < |keys| ==> !IdUsable(h, keys[i])
    ensures r.Some? ==> Trim(r.value) == r.value != ""
    ensures forall i :: FirstUsableAt(h, keys, i) ==> r == Some(Trim(HeaderStr(h, keys[i]).value))
  {
    match FirstUsable(h, keys)
    case None => None
    case Some(k) =>
      var v := Trim(HeaderStr(h, keys[k]).value);
      TrimIdempotent(HeaderStr(h, keys[k]).value);
      FirstUsableUnique(h, keys, k);
      Some(v)
  }

  /** Only one position is the first usable one. */
  lemma FirstUsableUnique(h: Headers, keys: seq<string>, k: nat)
    requires k < |keys| && IdUsable(h, keys[k]) && forall j :: 0 <= j < k ==> !IdUsable(h, keys[j])
    ensures forall i :: FirstUsableAt(h, keys, i) ==> i == k
  {
    forall i | FirstUsableAt(h, keys, i)
      ensures i == k
    {
      assert !(i < k) && !(k < i);
    }
  }

  /** `request_id`: the first of the tracing headers holding a non-blank value. */
  function RequestId(h: Headers): (r: Option<string>)
    ensures r.None? <==> forall i :: 0 <= i < |REQUEST_ID_HEADERS| ==> !IdUsable(h, REQUEST_ID_HEADERS[i])
    ensures r.Some? ==> Trim(r.value) == r.value != ""
    ensures forall i :: FirstUsableAt(h, REQUEST_ID_HEADERS, i) ==>
      r == Some(Trim(HeaderStr(h, REQUEST_ID_HEADERS[i]).value))
  {
    FirstRequestId(h, REQUEST_ID_HEADERS)
  }
}
