/**
 * src/download.rs: fetching a page body in one format, the attachment
 * download URL, the retrying download into a temporary file that is renamed
 * into place, file-name sanitising and the free-path search. The network, the
 * clock and the file system are oracles; a file system is a map from path to
 * contents.
 */
module Download {
  import opened Wrappers
  import opened Strings
  import opened Json
  import opened Http
  import opened Urls
  import opened Paths
  import opened Client

  // --------------------------------------------------------------- page body

  /** `body.<format>.value` of a page, `""` when absent or not a string. */
  function BodyOf(page: Json, format: string): (r: string)
    ensures GetPath(page, ["body", format, "value"]).Some? && AsStr(GetPath(page, ["body", format, "value"]).value).Some? ==>
      r == AsStr(GetPath(page, ["body", format, "value"]).value).value
    ensures (GetPath(page, ["body", format, "value"]).None? || AsStr(GetPath(page, ["body", format, "value"]).value).None?) ==>
      r == ""
  {
    match GetPath(page, ["body", format, "value"])
    case None => ""
    case Some(v) => AsStr(v).GetOr("")
  }

  /** `fetch_page_with_body_format`: `get` is the client's `get_json`. */
  function FetchPageWithBodyFormat(c: ApiClient, pageId: string, format: string,
                                   get: string -> Result<(Json, Headers)>): (r: Result<(Json, string)>)
    ensures var url := V2Url(c, "/pages/" + pageId + "?body-format=" + format);
      (r.Ok? <==> get(url).Ok?)
      && (r.Ok? ==> r.value == (get(url).value.0, BodyOf(get(url).value.0, format)))
      && (r.Err? ==> r.error == "Failed to fetch page " + pageId + " (body-format=" + format + ")")
  {
    match get(V2Url(c, "/pages/" + pageId + "?body-format=" + format))
    case Err(_) => Err("Failed to fetch page " + pageId + " (body-format=" + format + ")")
    case Ok((json, _)) => Ok((json, BodyOf(json, format)))
  }

  // ------------------------------------------------------------ download url

  /** What `attachment_download_url` hands to the `url` crate: a link to parse
      on its own, or a reference to join onto the base URL. */
  datatype UrlRequest = ParseLink(link: string) | JoinOnBase(reference: string)

  /** `attachment_download_url` as far as its own code goes: a full link is
      parsed as is; a link starting with `/` gets the base path (without its
      trailing slashes) in front, unless that prefix is empty or the link
      already starts with it; anything else is joined as given. */
  function AttachmentDownloadUrl(base: ParsedUrl, download: string): (r: UrlRequest)
    ensures StartsWith(download, "http://") || StartsWith(download, "https://") ==> r == ParseLink(download)
    ensures !(StartsWith(download, "http://") || StartsWith(download, "https://")) ==> r.JoinOnBase?
  {
    if StartsWith(download, "http://") || StartsWith(download, "https://") then ParseLink(download)
    else if StartsWith(download, "/") then
      var prefix := TrimEndChar(base.path, '/');
      if prefix != "" && !StartsWith(download, prefix) then JoinOnBase(prefix + download)
      else JoinOnBase(download)
    else JoinOnBase(download)
  }

  /** The error text when the `url` crate rejects the request. */
  function DownloadUrlError(r: UrlRequest, download: string): string {
    match r
    case ParseLink(_) => "Invalid attachment download URL"
    case JoinOnBase(_) => "Invalid attachment download link '" + download + "'"
  }

  /** The `/wiki` rule: a root-relative link keeps the base path in front of
      it, exactly once. */
  lemma DownloadUrlKeepsPrefix(base: ParsedUrl, download: string)
    requires StartsWith(download, "/")
    ensures var prefix := TrimEndChar(base.path, '/');
      AttachmentDownloadUrl(base, download).JoinOnBase?
      && StartsWith(AttachmentDownloadUrl(base, download).reference, prefix)
      && (StartsWith(download, prefix) ==> AttachmentDownloadUrl(base, download).reference == download)
  {
    var prefix := TrimEndChar(base.path, '/');
    DifferentFirst(download, "/", "http://");
    DifferentFirst(download, "/", "https://");
    if prefix != "" && !StartsWith(download, prefix) {
      assert (prefix + download)[..|prefix|] == prefix;
    }
  }

  /** Two prefixes with different first characters exclude each other. */
  lemma DifferentFirst(s: string, p: string, q: string)
    requires StartsWith(s, p) && p != [] && q != [] && p[0] != q[0]
    ensures !StartsWith(s, q)
  {
    assert s[0] == p[0];
  }

  /** The cases of the unit tests, on short links: the base path is put in
      front, an empty base path adds nothing, a link already under the base
      path is kept, and a full link is parsed as is. */
  lemma DownloadUrlCases()
    ensures AttachmentDownloadUrl(ParsedUrl("https", Some("h"), None, "/wiki", []), "/d") == JoinOnBase("/wiki/d")
    ensures AttachmentDownloadUrl(ParsedUrl("https", Some("h"), None, "/", []), "/d") == JoinOnBase("/d")
    ensures AttachmentDownloadUrl(ParsedUrl("https", Some("h"), None, "/wiki", []), "/wiki/d") == JoinOnBase("/wiki/d")
    ensures AttachmentDownloadUrl(ParsedUrl("https", Some("h"), None, "/wiki", []), "https://c/f") == ParseLink("https://c/f")
  {
    DifferentFirst("/d", "/", "http://");
    DifferentFirst("/d", "/", "https://");
    DifferentFirst("/wiki/d", "/", "http://");
    DifferentFirst("/wiki/d", "/", "https://");
    assert TrimEndChar("/wiki", '/') == "/wiki";
    assert TrimEndChar("/", '/') == "";
    assert !StartsWith("/d", "/wiki");
    assert "/wiki/d"[..5] == "/wiki";
    assert "https://c/f"[..8] == "https://";
  }

  // -------------------------------------------------------------- file names

  predicate SafeChar(c: char) {
    !IsControl(c) && c != '/' && c != '\\'
  }

  /** The characters `sanitize_filename` keeps, in order. */
  function KeepSafe(s: string): string {
    if s == [] then [] else (if SafeChar(s[0]) then [s[0]] else []) + KeepSafe(s[1..])
  }

  lemma {:induction false} KeepSafeSnoc(s: string, c: char)
    ensures KeepSafe(s + [c]) == KeepSafe(s) + (if SafeChar(c) then [c] else [])
    decreases |s|
  {
    var last := if SafeChar(c) then [c] else [];
    if s == [] {
      assert s + [c] == [c] && [c][1..] == [];
      assert KeepSafe([c]) == last + KeepSafe([]);
    } else {
      var t := s + [c];
      assert t[0] == s[0] && t[1..] == s[1..] + [c];
      KeepSafeSnoc(s[1..], c);
      var h := if SafeChar(s[0]) then [s[0]] else [];
      assert KeepSafe(t) == h + (KeepSafe(s[1..]) + last);
      assert KeepSafe(s) == h + KeepSafe(s[1..]);
      assert h + (KeepSafe(s[1..]) + last) == (h + KeepSafe(s[1..])) + last;
    }
  }

  predicate AllSafe(s: string) {
    forall i :: 0 <= i < |s| ==> SafeChar(s[i])
  }

  lemma {:induction false} KeepSafeSafe(s: string)
    ensures AllSafe(KeepSafe(s))
    ensures AllSafe(s) ==> KeepSafe(s) == s
    decreases |s|
  {
    if s != [] {
      KeepSafeSafe(s[1..]);
      var head := if SafeChar(s[0]) then [s[0]] else [];
      assert KeepSafe(s) == head + KeepSafe(s[1..]);
      if AllSafe(s) {
        assert AllSafe(s[1..]) by {
          forall i | 0 <= i < |s[1..]| ensures SafeChar(s[1..][i]) {
            assert s[1..][i] == s[i + 1];
          }
        }
        assert [s[0]] + s[1..] == s;
      }
    }
  }

  /** `sanitize_filename(input)` */
  function Sanitized(input: string): string {
    Trim(KeepSafe(input))
  }

  /** The loop of `sanitize_filename`: drop control characters and both
      slashes, then trim. */
  method SanitizeFilename(input: string) returns (out: string)
    ensures out == Sanitized(input)
  {
    var kept := "";
    var i := 0;
    while i < |input|
      invariant 0 <= i <= |input|
      invariant kept == KeepSafe(input[..i])
    {
      KeepSafeSnoc(input[..i], input[i]);
      assert input[..i + 1] == input[..i] + [input[i]];
      if SafeChar(input[i]) {
        kept := kept + [input[i]];
      }
      i := i + 1;
    }
    assert input[..i] == input;
    out := Trim(kept);
  }

  /** A sanitised name has no control character, no `/` or `\`, and no
      leading or trailing whitespace. */
  lemma SanitizedSafe(input: string)
    ensures AllSafe(Sanitized(input))
    ensures Sanitized(input) == [] || (!IsWhitespace(Sanitized(input)[0]) && !IsWhitespace(Sanitized(input)[|Sanitized(input)| - 1]))
  {
    SanitizedChars(input);
    var _, _ := TrimShape(KeepSafe(input));
  }

  lemma SanitizedChars(input: string)
    ensures AllSafe(Sanitized(input))
  {
    var k := KeepSafe(input);
    KeepSafeSafe(input);
    var t := TrimStart(k);
    SafeSlice(k, |k| - |t|, |k|);
    SafeSlice(t, 0, |TrimEnd(t)|);
  }

  lemma SafeSlice(s: string, a: nat, b: nat)
    requires a <= b <= |s| && AllSafe(s)
    ensures AllSafe(s[a..b])
  {
    forall i | 0 <= i < b - a
      ensures SafeChar(s[a..b][i])
    {
      assert s[a..b][i] == s[a + i];
    }
  }

  /** Sanitising twice changes nothing more. */
  lemma SanitizeIdempotent(input: string)
    ensures Sanitized(Sanitized(input)) == Sanitized(input)
  {
    SanitizedSafe(input);
    var s := Sanitized(input);
    KeepSafeSafe(s);
    TrimNoEdges(s);
  }

  // ------------------------------------------------------------ unique path

  /** A file system as the download code sees it: which paths hold which bytes. */
  type Bytes = seq<bv8>
  type Fs = map<Path, Bytes>

  /** The `i`-th alternative `unique_path` tries: `stem (i)` or `stem (i).ext`
      beside the original, `file` standing in for a missing stem. */
  function Candidate(path: Path, i: nat): Path {
    var parent := Parent(path).GetOr(Path(false, []));
    var stem := FileStem(path).GetOr("file");
    var ext := Extension(path).GetOr("");
    JoinName(parent, if ext == "" then stem + " (" + NatToString(i) + ")"
                     else stem + " (" + NatToString(i) + ")." + ext)
  }

  /** `unique_path`: `exists` is the set of paths that exist. */
  method UniquePath(path: Path, exists_: set<Path>) returns (r: Path)
    ensures path !in exists_ ==> r == path
    ensures path in exists_ ==>
      (r == path && forall i :: 1 <= i < 10000 ==> Candidate(path, i) in exists_)
      || (exists i :: 1 <= i < 10000 && r == Candidate(path, i) && r !in exists_
                      && forall j :: 1 <= j < i ==> Candidate(path, j) in exists_)
  {
    if path !in exists_ {
      return path;
    }
    var i := 1;
    while i < 10000
      invariant 1 <= i <= 10000
      invariant forall j :: 1 <= j < i ==> Candidate(path, j) in exists_
    {
      var candidate := Candidate(path, i);
      if candidate !in exists_ {
        return candidate;
      }
      i := i + 1;
    }
    return path;
  }

  lemma NatToStringInjective(m: nat, n: nat)
    requires NatToString(m) == NatToString(n)
    ensures m == n
  {
    NatToStringRoundTrip(m);
    NatToStringRoundTrip(n);
  }

  /** Different attempts name different files, so a taken name is never returned twice. */
  lemma CandidatesDistinct(path: Path, i: nat, j: nat)
    requires WellFormed(path)
    requires Candidate(path, i) == Candidate(path, j)
    ensures i == j
  {
    var parent := Parent(path).GetOr(Path(false, []));
    var stem := FileStem(path).GetOr("file");
    var ext := Extension(path).GetOr("");
    StemNoSlash(path);
    var ni, nj := NameFor(stem, ext, i), NameFor(stem, ext, j);
    NameComponent(stem, ext, i);
    NameComponent(stem, ext, j);
    assert JoinName(parent, ni).parts == parent.parts + [ni];
    assert JoinName(parent, nj).parts == parent.parts + [nj];
    assert ni == (parent.parts + [ni])[|parent.parts|];
    NameDigits(stem, ext, i, j);
  }

  lemma StemNoSlash(path: Path)
    requires WellFormed(path)
    ensures '/' !in FileStem(path).GetOr("file") && '/' !in Extension(path).GetOr("")
  {
    if FileName(path).Some? {
      var n := FileName(path).value;
      assert n == path.parts[|path.parts| - 1];
      if LastDot(n).Some? {
        var (a, b) := LastDot(n).value;
        assert forall c :: c in a ==> c in n;
        assert forall c :: c in b ==> c in n;
      }
    }
  }

  function NameFor(stem: string, ext: string, i: nat): string {
    if ext == "" then stem + " (" + NatToString(i) + ")" else stem + " (" + NatToString(i) + ")." + ext
  }

  /** A candidate name is one component when the stem and extension have no `/`. */
  lemma NameComponent(stem: string, ext: string, i: nat)
    ensures '/' !in stem && '/' !in ext ==> Components(NameFor(stem, ext, i)) == [NameFor(stem, ext, i)]
  {
    var n := NameFor(stem, ext, i);
    if '/' !in stem && '/' !in ext {
      NatToStringNoSlash(i);
      assert '/' !in n;
      assert Split(n, '/') == [n];
      assert |n| >= 4 && n != "" && n != ".";
      assert [n][1..] == [];
      assert Keep([n]) == [n] + Keep([]);
    }
  }

  lemma NatToStringNoSlash(i: nat)
    ensures '/' !in NatToString(i)
  {
    var s := NatToString(i);
    assert forall k :: 0 <= k < |s| ==> IsAsciiDigit(s[k]);
  }

  lemma NameDigits(stem: string, ext: string, i: nat, j: nat)
    requires NameFor(stem, ext, i) == NameFor(stem, ext, j)
    ensures i == j
  {
    var a, b := NatToString(i), NatToString(j);
    var tail := if ext == "" then ")" else ")." + ext;
    assert NameFor(stem, ext, i) == (stem + " (") + a + tail;
    assert NameFor(stem, ext, j) == (stem + " (") + b + tail;
    var n := NameFor(stem, ext, i);
    var p := |stem + " ("|;
    assert |a| == |b|;
    assert a == n[p..p + |a|] == b;
    NatToStringInjective(i, j);
  }

  // ---------------------------------------------------------------- tmp path

  /** The name `tmp_path(dest)` gives the temporary file: `<name>.<millis>.tmp`,
      `download` standing in for a missing name. */
  function TmpName(dest: Path, millis: nat): string {
    FileName(dest).GetOr("download") + "." + NatToString(millis) + ".tmp"
  }

  /** `tmp_path(dest)`: `dest.with_file_name(..)`, written as the sibling it is
      (`TmpPathBeside` proves the two agree). */
  function TmpPath(dest: Path, millis: nat): Path {
    Sibling(dest, TmpName(dest, millis))
  }

  /** The temporary file is what `with_file_name` gives, lies beside the
      destination and is never the destination itself. */
  lemma TmpPathBeside(dest: Path, millis: nat)
    requires WellFormed(dest)
    ensures TmpPath(dest, millis) == WithFileName(dest, TmpName(dest, millis))
    ensures FileName(dest).Some? ==> Parent(TmpPath(dest, millis)) == Parent(dest)
    ensures TmpPath(dest, millis) != dest
  {
    var base := FileName(dest).GetOr("download");
    var name := TmpName(dest, millis);
    NatToStringNoSlash(millis);
    assert base != "" && '/' !in base by {
      if FileName(dest).Some? {
        assert base == dest.parts[|dest.parts| - 1];
      }
    }
    assert '/' !in name;
    SiblingIsWithFileName(dest, name);
    WithFileNameParts(dest, name);
    assert |name| > |base|;
    assert FileName(TmpPath(dest, millis)) != FileName(dest);
  }

  // ---------------------------------------------------------------- download

  /** What one request of the download produced: a transport error, or a
      status, headers and the body stream as a sequence of chunks, each of
      which may be a stream error. */
  datatype Fetch = Refused(error: string) | Answered(status: nat, headers: Headers, chunks: seq<Result<Bytes>>)

  /** The world attempt number `a` meets: the request's outcome, the clock
      (milliseconds for the temporary name, nanoseconds for the jitter), and
      whether creating the temporary file and renaming it succeed. */
  datatype World = World(net: nat -> Fetch, millis: nat -> nat, nanos: nat -> nat,
                         canCreate: nat -> bool, canRename: nat -> bool)

  /** The bytes the stream delivers before it ends or fails, and whether it
      ended without an error. */
  function Received(chunks: seq<Result<Bytes>>): (Bytes, bool) {
    if chunks == [] then ([], true)
    else if chunks[0].Err? then ([], false)
    else var rest := Received(chunks[1..]); (chunks[0].value + rest.0, rest.1)
  }

  /** The bytes of a stream without errors, chunk after chunk. */
  function Concat(chunks: seq<Result<Bytes>>): Bytes
    requires forall i :: 0 <= i < |chunks| ==> chunks[i].Ok?
  {
    if chunks == [] then [] else chunks[0].value + Concat(chunks[1..])
  }

  /** A stream completes exactly when no chunk fails, and then delivers all of it. */
  lemma {:induction false} ReceivedComplete(chunks: seq<Result<Bytes>>)
    ensures Received(chunks).1 <==> forall i :: 0 <= i < |chunks| ==> chunks[i].Ok?
    ensures Received(chunks).1 ==> Received(chunks).0 == Concat(chunks)
    decreases |chunks|
  {
    if chunks != [] {
      ReceivedComplete(chunks[1..]);
      assert forall i :: 1 <= i < |chunks| ==> chunks[1..][i - 1] == chunks[i];
    }
  }

  /** A failing chunk stops the stream: what was delivered is the chunks before it. */
  lemma {:induction false} ReceivedUpTo(chunks: seq<Result<Bytes>>, k: nat)
    requires k < |chunks| && chunks[k].Err?
    requires forall i :: 0 <= i < k ==> chunks[i].Ok?
    ensures !Received(chunks).1 && Received(chunks).0 == Concat(chunks[..k])
    decreases k
  {
    if k > 0 {
      assert chunks[1..][k - 1] == chunks[k];
      assert forall i :: 0 <= i < k - 1 ==> chunks[1..][i] == chunks[i + 1];
      ReceivedUpTo(chunks[1..], k - 1);
      assert chunks[..k][0] == chunks[0] && chunks[..k][1..] == chunks[1..][..k - 1];
    }
  }

  /** The `while let Some(chunk)` loop: each chunk is appended to the
      temporary file; a failing chunk ends it with the bytes so far written. */
  method WriteStream(fs: Fs, tmp: Path, chunks: seq<Result<Bytes>>) returns (out: Fs, complete: bool)
    requires tmp in fs
    ensures out == fs[tmp := fs[tmp] + Received(chunks).0]
    ensures complete == Received(chunks).1
  {
    out := fs;
    var pending := chunks;
    while pending != []
      invariant tmp in out && out == fs[tmp := out[tmp]]
      invariant fs[tmp] + Received(chunks).0 == out[tmp] + Received(pending).0
      invariant Received(chunks).1 == Received(pending).1
      decreases |pending|
    {
      if pending[0].Err? {
        assert out[tmp] + Received(pending).0 == out[tmp];
        return out, false;
      }
      var chunk := pending[0].value;
      assert out[tmp] + Received(pending).0 == (out[tmp] + chunk) + Received(pending[1..]).0;
      out := out[tmp := out[tmp] + chunk];
      pending := pending[1..];
    }
    assert out[tmp] + Received(pending).0 == out[tmp];
    complete := true;
  }

  /** The error every give-up path ends with. */
  function GaveUp(a: nat, subject: string, dest: Path): string {
    "Download failed after " + NatToString(a) + " attempt(s): " + subject + " -> " + Display(dest)
  }

  function MoveFailed(tmp: Path, dest: Path): string {
    "Failed to move downloaded file into place (" + Display(tmp) + " -> " + Display(dest) + ")"
  }

  /** How an attempt ends: another attempt after a wait, or the download's result. */
  datatype Turn = Again(fs: Fs, wait: nat) | Finish(result: Result<()>, fs: Fs)

  /** One pass of the loop of `download_to_file_with_retry`, attempt number
      `a` (from 1) with at most `maxAttempts`: the temporary file is removed
      first. A transport error retries until the last attempt; an error
      status retries on 429 and 5xx before the last attempt; both give up
      with the attempt count. A success streams into a new temporary file,
      which is then renamed over the destination. */
  function AttemptTurn(w: World, dest: Path, subject: string, maxAttempts: nat, a: nat, fs: Fs): (t: Turn)
    requires 1 <= a && maxAttempts <= 65 && WellFormed(dest)
    ensures t.Again? ==> a < maxAttempts && t.fs == fs - {TmpPath(dest, w.millis(a))}
    ensures t.Again? ==>
      w.net(a).Refused? || (!IsSuccess(w.net(a).status) && IsRetryable(w.net(a).status))
  {
    var tmp := TmpPath(dest, w.millis(a));
    var cleared := fs - {tmp};
    match w.net(a)
    case Refused(_) =>
      if a >= maxAttempts then Finish(Err(GaveUp(a, subject, dest)), cleared)
      else Again(cleared, RetryWaitMs(map[], a, w.nanos(a)))
    case Answered(status, headers, chunks) =>
      if !IsSuccess(status) then
        if a < maxAttempts && IsRetryable(status) then Again(cleared, RetryWaitMs(headers, a, w.nanos(a)))
        else Finish(Err(GaveUp(a, subject, dest)), cleared)
      else Delivery(w, dest, a, cleared, chunks)
  }

  /** A successful response: create the temporary file, stream into it, then
      replace the destination by it. */
  function Delivery(w: World, dest: Path, a: nat, cleared: Fs, chunks: seq<Result<Bytes>>): Turn {
    var tmp := TmpPath(dest, w.millis(a));
    if !w.canCreate(a) then Finish(Err("Failed to create " + Display(tmp)), cleared)
    else
      var bytes := Received(chunks).0;
      var written := cleared[tmp := bytes];
      if !Received(chunks).1 then Finish(Err("Download stream error"), written)
      else
        var freed := written - {dest};
        if !w.canRename(a) then Finish(Err(MoveFailed(tmp, dest)), freed)
        else Finish(Ok(()), (freed - {tmp})[dest := bytes])
  }

  /** The body of the loop, on the file system step by step. */
  method Attempt(w: World, dest: Path, subject: string, maxAttempts: nat, a: nat, fs0: Fs) returns (t: Turn)
    requires 1 <= a && maxAttempts <= 65 && WellFormed(dest)
    ensures t == AttemptTurn(w, dest, subject, maxAttempts, a, fs0)
  {
    var tmp := TmpPath(dest, w.millis(a));
    var fs := fs0 - {tmp};
    var fetch := w.net(a);
    if fetch.Refused? {
      if a >= maxAttempts {
        return Finish(Err(GaveUp(a, subject, dest)), fs);
      }
      return Again(fs, RetryWaitMs(map[], a, w.nanos(a)));
    }
    if !IsSuccess(fetch.status) {
      if a < maxAttempts && IsRetryable(fetch.status) {
        return Again(fs, RetryWaitMs(fetch.headers, a, w.nanos(a)));
      }
      return Finish(Err(GaveUp(a, subject, dest)), fs);
    }
    t := Deliver(w, dest, a, fs, fetch.chunks);
  }

  /** The success path of the loop body: the file system changes one step at a time. */
  method Deliver(w: World, dest: Path, a: nat, cleared: Fs, chunks: seq<Result<Bytes>>) returns (t: Turn)
    requires WellFormed(dest)
    ensures t == Delivery(w, dest, a, cleared, chunks)
  {
    var tmp := TmpPath(dest, w.millis(a));
    if !w.canCreate(a) {
      return Finish(Err("Failed to create " + Display(tmp)), cleared);
    }
    var fs := cleared[tmp := []];
    var complete;
    fs, complete := WriteStream(fs, tmp, chunks);
    ghost var bytes := Received(chunks).0;
    assert [] + bytes == bytes;
    ghost var written := fs;
    assert written == cleared[tmp := bytes];
    if !complete {
      return Finish(Err("Download stream error"), fs);
    }
    if dest in fs {
      fs := fs - {dest};
    } else {
      RemoveAbsent(fs, dest);
    }
    assert fs == written - {dest};
    TmpPathBeside(dest, w.millis(a));
    if !w.canRename(a) {
      return Finish(Err(MoveFailed(tmp, dest)), fs);
    }
    assert fs[tmp] == bytes;
    fs := (fs - {tmp})[dest := fs[tmp]];
    return Finish(Ok(()), fs);
  }

  lemma RemoveAbsent<K, V>(m: map<K, V>, k: K)
    requires k !in m
    ensures m - {k} == m
  {
  }

  /** The result, the final file system, the number of requests made and the waits slept. */
  datatype DlTrace = DlTrace(result: Result<()>, fs: Fs, requests: nat, waits: seq<nat>)

  /** An attempt function asks for another attempt only below the limit:
      `step(k, fs)` is the attempt made after `k` earlier ones. */
  ghost predicate Bounded(step: (nat, Fs) -> Turn, maxAttempts: nat) {
    forall k: nat, f: Fs :: step(k, f).Again? ==> k + 1 < maxAttempts
  }

  /** The retry loop, whatever one attempt does, from the point where `done`
      attempts have been made. */
  function Run(step: (nat, Fs) -> Turn, maxAttempts: nat, done: nat, fs: Fs): DlTrace
    requires Bounded(step, maxAttempts)
    decreases maxAttempts - done
  {
    match step(done, fs)
    case Finish(r, after) => DlTrace(r, after, done + 1, [])
    case Again(after, wait) =>
      var rest := Run(step, maxAttempts, done + 1, after);
      DlTrace(rest.result, rest.fs, rest.requests, [wait] + rest.waits)
  }

  /** The attempt of `download_to_file_with_retry` made after `k` earlier ones. */
  function StepOf(w: World, dest: Path, subject: string, maxAttempts: nat): (step: (nat, Fs) -> Turn)
    requires maxAttempts <= 65 && WellFormed(dest)
    ensures Bounded(step, maxAttempts)
  {
    var step := (k: nat, f: Fs) => AttemptTurn(w, dest, subject, maxAttempts, k + 1, f);
    assert forall k: nat, f: Fs :: step(k, f) == AttemptTurn(w, dest, subject, maxAttempts, k + 1, f);
    step
  }

  /** `download_to_file_with_retry` on the file system `fs`. The only caller
      uses the default of 3 attempts. */
  function DownloadFrom(w: World, dest: Path, subject: string, maxAttempts: nat, fs: Fs): DlTrace
    requires maxAttempts <= 65 && WellFormed(dest)
  {
    Run(StepOf(w, dest, subject, maxAttempts), maxAttempts, 0, fs)
  }

  /** The loop state after `attempt` attempts: the waits so far, and the rest of
      the download still to come. */
  ghost predicate Resumes(step: (nat, Fs) -> Turn, maxAttempts: nat, whole: DlTrace,
                          attempt: nat, fs: Fs, waits: seq<nat>)
    requires Bounded(step, maxAttempts)
  {
    |waits| == attempt && (attempt == 0 || attempt < maxAttempts)
    && whole == var t := Run(step, maxAttempts, attempt, fs); DlTrace(t.result, t.fs, t.requests, waits + t.waits)
  }

  lemma ResumesStart(step: (nat, Fs) -> Turn, maxAttempts: nat, fs0: Fs)
    requires Bounded(step, maxAttempts)
    ensures Resumes(step, maxAttempts, Run(step, maxAttempts, 0, fs0), 0, fs0, [])
  {
    var t := Run(step, maxAttempts, 0, fs0);
    assert [] + t.waits == t.waits;
  }

  /** One turn of the loop: `attempt += 1`, then the attempt. */
  method DownloadPass(w: World, dest: Path, subject: string, maxAttempts: nat, ghost whole: DlTrace,
                      attempt: nat, fs: Fs, waits: seq<nat>)
    returns (done: bool, result: Result<()>, fs': Fs, requests: nat, waits': seq<nat>)
    requires maxAttempts <= 65 && WellFormed(dest)
    requires Resumes(StepOf(w, dest, subject, maxAttempts), maxAttempts, whole, attempt, fs, waits)
    ensures done ==> DlTrace(result, fs', requests, waits') == whole
    ensures !done ==> (attempt + 1 < maxAttempts
      && Resumes(StepOf(w, dest, subject, maxAttempts), maxAttempts, whole, attempt + 1, fs', waits'))
  {
    ghost var step := StepOf(w, dest, subject, maxAttempts);
    var turn := Attempt(w, dest, subject, maxAttempts, attempt + 1, fs);
    assert turn == step(attempt, fs);
    if turn.Finish? {
      return true, turn.result, turn.fs, attempt + 1, waits;
    }
    var rest := Run(step, maxAttempts, attempt + 1, turn.fs);
    assert waits + ([turn.wait] + rest.waits) == (waits + [turn.wait]) + rest.waits;
    return false, Ok(()), turn.fs, 0, waits + [turn.wait];
  }

  /** The loop of `download_to_file_with_retry`, from the state `Resumes` describes. */
  method RunAttempts(w: World, dest: Path, subject: string, maxAttempts: nat, ghost whole: DlTrace, fs0: Fs)
    returns (result: Result<()>, fs: Fs, requests: nat, waits: seq<nat>)
    requires maxAttempts <= 65 && WellFormed(dest)
    requires Resumes(StepOf(w, dest, subject, maxAttempts), maxAttempts, whole, 0, fs0, [])
    ensures DlTrace(result, fs, requests, waits) == whole
  {
    var attempt := 0;
    fs, waits := fs0, [];
    while true
      invariant Resumes(StepOf(w, dest, subject, maxAttempts), maxAttempts, whole, attempt, fs, waits)
      decreases maxAttempts - attempt
    {
      var done, r, after, n, slept := DownloadPass(w, dest, subject, maxAttempts, whole, attempt, fs, waits);
      if done {
        return r, after, n, slept;
      }
      attempt, fs, waits := attempt + 1, after, slept;
    }
  }

  /** `download_to_file_with_retry`: `fs0` is the file system before the call. */
  method DownloadToFileWithRetry(w: World, dest: Path, subject: string, maxAttempts: nat, fs0: Fs)
    returns (result: Result<()>, fs: Fs, requests: nat, waits: seq<nat>)
    requires maxAttempts <= 65 && WellFormed(dest)
    ensures DlTrace(result, fs, requests, waits) == DownloadFrom(w, dest, subject, maxAttempts, fs0)
  {
    ResumesStart(StepOf(w, dest, subject, maxAttempts), maxAttempts, fs0);
    result, fs, requests, waits := RunAttempts(w, dest, subject, maxAttempts, DownloadFrom(w, dest, subject, maxAttempts, fs0), fs0);
  }

  // ------------------------------------------------------------ loop shape

  /** At least one request, at most `maxAttempts` once there is a retry, and one
      wait between each two. */
  lemma {:induction false} RunCount(step: (nat, Fs) -> Turn, maxAttempts: nat, done: nat, fs: Fs)
    requires Bounded(step, maxAttempts)
    ensures var t := Run(step, maxAttempts, done, fs);
      done < t.requests && (t.requests == done + 1 || t.requests <= maxAttempts)
      && |t.waits| == t.requests - done - 1
    decreases maxAttempts - done
  {
    var turn := step(done, fs);
    if turn.Again? {
      RunCount(step, maxAttempts, done + 1, turn.fs);
    }
  }

  /** The file system the last attempt starts from. */
  function LastFs(step: (nat, Fs) -> Turn, maxAttempts: nat, done: nat, fs: Fs): Fs
    requires Bounded(step, maxAttempts)
    decreases maxAttempts - done
  {
    match step(done, fs)
    case Finish(_, _) => fs
    case Again(after, _) => LastFs(step, maxAttempts, done + 1, after)
  }

  /** The loop ends with the last attempt's result and file system. */
  lemma {:induction false} RunLast(step: (nat, Fs) -> Turn, maxAttempts: nat, done: nat, fs: Fs)
    requires Bounded(step, maxAttempts)
    ensures var t := Run(step, maxAttempts, done, fs);
      1 <= t.requests && step(t.requests - 1, LastFs(step, maxAttempts, done, fs)) == Finish(t.result, t.fs)
    decreases maxAttempts - done
  {
    var turn := step(done, fs);
    if turn.Again? {
      RunLast(step, maxAttempts, done + 1, turn.fs);
    }
  }

  /** The file system attempt `done + j` starts from. */
  function FsAt(step: (nat, Fs) -> Turn, done: nat, fs: Fs, j: nat): Fs
    decreases j
  {
    if j == 0 then fs
    else match step(done, fs)
      case Finish(_, _) => fs
      case Again(after, _) => FsAt(step, done + 1, after, j - 1)
  }

  /** Each attempt before the last was retried, and the wait slept after it is
      the one that attempt asked for. */
  lemma {:induction false} RunRetries(step: (nat, Fs) -> Turn, maxAttempts: nat, done: nat, fs: Fs)
    requires Bounded(step, maxAttempts)
    ensures var t := Run(step, maxAttempts, done, fs);
      |t.waits| == t.requests - done - 1
      && forall j :: 0 <= j < |t.waits| ==>
           step(done + j, FsAt(step, done, fs, j)).Again?
           && step(done + j, FsAt(step, done, fs, j)).wait == t.waits[j]
    decreases maxAttempts - done
  {
    RunCount(step, maxAttempts, done, fs);
    var turn := step(done, fs);
    if turn.Again? {
      RunRetries(step, maxAttempts, done + 1, turn.fs);
      var t := Run(step, maxAttempts, done, fs);
      var rest := Run(step, maxAttempts, done + 1, turn.fs);
      assert t.waits == [turn.wait] + rest.waits;
      forall j | 0 <= j < |t.waits|
        ensures step(done + j, FsAt(step, done, fs, j)).Again?
        ensures step(done + j, FsAt(step, done, fs, j)).wait == t.waits[j]
      {
        if j > 0 {
          assert FsAt(step, done, fs, j) == FsAt(step, done + 1, turn.fs, j - 1);
          assert done + j == (done + 1) + (j - 1);
          assert t.waits[j] == rest.waits[j - 1];
        }
      }
    }
  }

  /** A path no attempt touches keeps its contents. */
  lemma {:induction false} RunFrame(step: (nat, Fs) -> Turn, maxAttempts: nat, done: nat, fs: Fs,
                                    touched: nat -> set<Path>, p: Path)
    requires Bounded(step, maxAttempts)
    requires forall k: nat, f: Fs :: p !in touched(k) ==> Agree(step(k, f).fs, f, p)
    ensures var t := Run(step, maxAttempts, done, fs);
      (forall i :: done <= i < t.requests ==> p !in touched(i)) ==> Agree(t.fs, fs, p)
    decreases maxAttempts - done
  {
    var t := Run(step, maxAttempts, done, fs);
    var turn := step(done, fs);
    if forall i :: done <= i < t.requests ==> p !in touched(i) {
      RunCount(step, maxAttempts, done, fs);
      assert p !in touched(done);
      assert Agree(turn.fs, fs, p);
      if turn.Again? {
        RunFrame(step, maxAttempts, done + 1, turn.fs, touched, p);
        var rest := Run(step, maxAttempts, done + 1, turn.fs);
        assert t.fs == rest.fs && t.requests == rest.requests;
        assert forall i :: done + 1 <= i < rest.requests ==> p !in touched(i);
      } else {
        assert t.fs == turn.fs;
      }
    }
  }


  /** `p` holds the same thing, or nothing, in both file systems. */
  predicate Agree(f: Fs, g: Fs, p: Path) {
    (p in f <==> p in g) && (p in f ==> f[p] == g[p])
  }

  /** The wait before the next attempt after attempt `k` fails: the retry wait
      of the response's headers, or of no headers after a transport error. */
  function WaitFor(w: World, k: nat): nat
    requires 1 <= k <= 64
  {
    match w.net(k)
    case Refused(_) => RetryWaitMs(map[], k, w.nanos(k))
    case Answered(_, headers, _) => RetryWaitMs(headers, k, w.nanos(k))
  }

  /** An attempt touches the destination and its own temporary file only. */
  lemma TurnFrame(w: World, dest: Path, subject: string, maxAttempts: nat, a: nat, fs: Fs, p: Path)
    requires 1 <= a && maxAttempts <= 65 && WellFormed(dest)
    requires p != dest && p != TmpPath(dest, w.millis(a))
    ensures Agree(AttemptTurn(w, dest, subject, maxAttempts, a, fs).fs, fs, p)
  {
  }

  /** Attempt `a` met a transport error or a retryable status, was not the
      last allowed, and `wait` is its retry wait. */
  predicate Retried(w: World, a: nat, wait: nat) {
    1 <= a <= 64 && wait == WaitFor(w, a)
    && (w.net(a).Refused? || (!IsSuccess(w.net(a).status) && IsRetryable(w.net(a).status)))
  }

  /** A retried attempt waits the retry wait of what it received. */
  lemma TurnWait(w: World, dest: Path, subject: string, maxAttempts: nat, a: nat, fs: Fs)
    requires 1 <= a && maxAttempts <= 65 && WellFormed(dest)
    requires AttemptTurn(w, dest, subject, maxAttempts, a, fs).Again?
    ensures Retried(w, a, AttemptTurn(w, dest, subject, maxAttempts, a, fs).wait)
  {
  }

  /** A transport error or an error status ends the download only when it is not
      retried, and leaves no temporary file. */
  lemma TurnGivesUp(w: World, dest: Path, subject: string, maxAttempts: nat, a: nat, fs: Fs)
    requires 1 <= a && maxAttempts <= 65 && WellFormed(dest)
    requires w.net(a).Refused? || !IsSuccess(w.net(a).status)
    ensures var t := AttemptTurn(w, dest, subject, maxAttempts, a, fs);
      t.Finish? ==>
        t.result == Err(GaveUp(a, subject, dest)) && TmpPath(dest, w.millis(a)) !in t.fs
        && (a >= maxAttempts || (w.net(a).Answered? && !IsRetryable(w.net(a).status)))
  {
  }

  /** A success status always ends the download; it succeeds exactly when the
      file is created, the stream completes and the rename works, and then the
      destination holds the received bytes and the temporary file is gone. */
  lemma TurnDelivers(w: World, dest: Path, subject: string, maxAttempts: nat, a: nat, fs: Fs)
    requires 1 <= a && maxAttempts <= 65 && WellFormed(dest)
    requires w.net(a).Answered? && IsSuccess(w.net(a).status)
    ensures var t := AttemptTurn(w, dest, subject, maxAttempts, a, fs);
      var tmp := TmpPath(dest, w.millis(a));
      var (bytes, complete) := Received(w.net(a).chunks);
      t.Finish?
      && (t.result.Ok? <==> w.canCreate(a) && complete && w.canRename(a))
      && (t.result.Ok? ==> dest in t.fs && t.fs[dest] == bytes && tmp !in t.fs)
      && (!w.canCreate(a) ==> t.result == Err("Failed to create " + Display(tmp)) && tmp !in t.fs)
      && (w.canCreate(a) && !complete ==>
            t.result == Err("Download stream error") && tmp in t.fs && t.fs[tmp] == bytes)
      && (w.canCreate(a) && complete && !w.canRename(a) ==>
            t.result == Err(MoveFailed(tmp, dest)) && dest !in t.fs && tmp in t.fs && t.fs[tmp] == bytes)
  {
    TmpPathBeside(dest, w.millis(a));
  }

  // -------------------------------------------------- the download's promises

  /** At least one request and at most `maxAttempts` (one when the limit is 0),
      with one wait between each two. */
  lemma DownloadCount(w: World, dest: Path, subject: string, maxAttempts: nat, fs: Fs)
    requires maxAttempts <= 65 && WellFormed(dest)
    ensures var t := DownloadFrom(w, dest, subject, maxAttempts, fs);
      1 <= t.requests && (t.requests == 1 || t.requests <= maxAttempts) && |t.waits| == t.requests - 1
  {
    RunCount(StepOf(w, dest, subject, maxAttempts), maxAttempts, 0, fs);
  }

  /** Every attempt before the last met a transport error or a retryable
      status, and the wait after it is that attempt's retry wait. */
  lemma DownloadRetries(w: World, dest: Path, subject: string, maxAttempts: nat, fs: Fs)
    requires maxAttempts <= 65 && WellFormed(dest)
    ensures var t := DownloadFrom(w, dest, subject, maxAttempts, fs);
      |t.waits| == t.requests - 1 && forall j :: 0 <= j < |t.waits| ==> Retried(w, j + 1, t.waits[j])
  {
    var step := StepOf(w, dest, subject, maxAttempts);
    RunRetries(step, maxAttempts, 0, fs);
    var t := Run(step, maxAttempts, 0, fs);
    forall j | 0 <= j < |t.waits|
      ensures Retried(w, j + 1, t.waits[j])
    {
      var f := FsAt(step, 0, fs, j);
      assert 0 + j == j;
      RetriedTurn(w, dest, subject, maxAttempts, j, f, t.waits[j]);
    }
  }

  /** A turn of `StepOf` that asks for another attempt is a retried attempt. */
  lemma RetriedTurn(w: World, dest: Path, subject: string, maxAttempts: nat, k: nat, f: Fs, wait: nat)
    requires maxAttempts <= 65 && WellFormed(dest)
    requires StepOf(w, dest, subject, maxAttempts)(k, f).Again?
    requires StepOf(w, dest, subject, maxAttempts)(k, f).wait == wait
    ensures Retried(w, k + 1, wait)
  {
    assert StepOf(w, dest, subject, maxAttempts)(k, f) == AttemptTurn(w, dest, subject, maxAttempts, k + 1, f);
    TurnWait(w, dest, subject, maxAttempts, k + 1, f);
  }

  /** The download changes nothing but the destination and the temporary files
      of its attempts. */
  lemma DownloadFrame(w: World, dest: Path, subject: string, maxAttempts: nat, fs: Fs)
    requires maxAttempts <= 65 && WellFormed(dest)
    ensures var t := DownloadFrom(w, dest, subject, maxAttempts, fs);
      forall p :: p != dest && (forall i :: 1 <= i <= t.requests ==> p != TmpPath(dest, w.millis(i))) ==>
        Agree(t.fs, fs, p)
  {
    var step := StepOf(w, dest, subject, maxAttempts);
    var touched := (k: nat) => {dest, TmpPath(dest, w.millis(k + 1))};
    var t := DownloadFrom(w, dest, subject, maxAttempts, fs);
    forall p | p != dest && (forall i :: 1 <= i <= t.requests ==> p != TmpPath(dest, w.millis(i)))
      ensures Agree(t.fs, fs, p)
    {
      forall k: nat, f: Fs | p !in touched(k)
        ensures Agree(step(k, f).fs, f, p)
      {
        TurnFrame(w, dest, subject, maxAttempts, k + 1, f, p);
      }
      forall i | 0 <= i < t.requests
        ensures p !in touched(i)
      {
        assert p != TmpPath(dest, w.millis(i + 1));
      }
      RunFrame(step, maxAttempts, 0, fs, touched, p);
    }
  }

  /** The last attempt and the file system it starts from. */
  lemma DownloadLast(w: World, dest: Path, subject: string, maxAttempts: nat, fs: Fs) returns (before: Fs)
    requires maxAttempts <= 65 && WellFormed(dest)
    ensures var t := DownloadFrom(w, dest, subject, maxAttempts, fs);
      1 <= t.requests && AttemptTurn(w, dest, subject, maxAttempts, t.requests, before) == Finish(t.result, t.fs)
  {
    var step := StepOf(w, dest, subject, maxAttempts);
    RunLast(step, maxAttempts, 0, fs);
    before := LastFs(step, maxAttempts, 0, fs);
    var t := Run(step, maxAttempts, 0, fs);
    var k: nat := t.requests - 1;
    assert step(k, before) == AttemptTurn(w, dest, subject, maxAttempts, k + 1, before);
  }

  /** A successful download: the last response was a success whose stream
      completed, the destination holds exactly its bytes, and the last
      temporary file is gone. */
  lemma DownloadSucceeds(w: World, dest: Path, subject: string, maxAttempts: nat, fs: Fs)
    requires maxAttempts <= 65 && WellFormed(dest)
    requires DownloadFrom(w, dest, subject, maxAttempts, fs).result.Ok?
    ensures var t := DownloadFrom(w, dest, subject, maxAttempts, fs);
      var f := w.net(t.requests);
      f.Answered? && IsSuccess(f.status) && Received(f.chunks).1
      && dest in t.fs && t.fs[dest] == Received(f.chunks).0
      && TmpPath(dest, w.millis(t.requests)) !in t.fs
  {
    var t := DownloadFrom(w, dest, subject, maxAttempts, fs);
    var before := DownloadLast(w, dest, subject, maxAttempts, fs);
    var f := w.net(t.requests);
    if f.Refused? || !IsSuccess(f.status) {
      TurnGivesUp(w, dest, subject, maxAttempts, t.requests, before);
    } else {
      TurnDelivers(w, dest, subject, maxAttempts, t.requests, before);
    }
  }

  /** A transport error or an error status on the last attempt ends in the
      "Download failed after n attempt(s)" error, at the attempt limit or on a
      status that is not retried, with no temporary file left. */
  lemma DownloadGivesUp(w: World, dest: Path, subject: string, maxAttempts: nat, fs: Fs)
    requires maxAttempts <= 65 && WellFormed(dest)
    ensures var t := DownloadFrom(w, dest, subject, maxAttempts, fs);
      var f := w.net(t.requests);
      f.Refused? || !IsSuccess(f.status) ==>
        t.result == Err(GaveUp(t.requests, subject, dest))
        && TmpPath(dest, w.millis(t.requests)) !in t.fs
        && (t.requests >= maxAttempts || (f.Answered? && !IsRetryable(f.status)))
  {
    var t := DownloadFrom(w, dest, subject, maxAttempts, fs);
    var before := DownloadLast(w, dest, subject, maxAttempts, fs);
    var f := w.net(t.requests);
    if f.Refused? || !IsSuccess(f.status) {
      TurnGivesUp(w, dest, subject, maxAttempts, t.requests, before);
    }
  }

  /** A stream error is not retried and leaves the partial temporary file behind. */
  lemma DownloadStreamError(w: World, dest: Path, subject: string, maxAttempts: nat, fs: Fs)
    requires maxAttempts <= 65 && WellFormed(dest)
    ensures var t := DownloadFrom(w, dest, subject, maxAttempts, fs);
      var f := w.net(t.requests);
      var tmp := TmpPath(dest, w.millis(t.requests));
      f.Answered? && IsSuccess(f.status) && w.canCreate(t.requests) && !Received(f.chunks).1 ==>
        t.result == Err("Download stream error") && tmp in t.fs && t.fs[tmp] == Received(f.chunks).0
  {
    var t := DownloadFrom(w, dest, subject, maxAttempts, fs);
    var before := DownloadLast(w, dest, subject, maxAttempts, fs);
    var f := w.net(t.requests);
    if f.Answered? && IsSuccess(f.status) {
      TurnDelivers(w, dest, subject, maxAttempts, t.requests, before);
    }
  }
}
