/**
 * src/helpers.rs and what the command handlers share: the context flags, the
 * requests a handler sends, what it shows, and the selection rules of
 * `resolve_download_path`, `add_markdown_header`, `read_body`,
 * `derive_title_from_file` and `human_size`.
 *
 * A handler is modelled as a function from its arguments and the answers it
 * receives (the resolved page id, each response, each confirmation) to a
 * `Run`: the requests it sent in order, what it showed, and its result.
 */
module Helpers {
  import opened Wrappers
  import opened Strings
  import opened Json
  import opened Paths

  /** `AppContext` (src/context.rs) without the verbosity level. */
  datatype Ctx = Ctx(quiet: bool, dryRun: bool)

  /** Which API base a request goes to: `v1_url` or `v2_url`. */
  datatype Api = V1 | V2

  datatype Verb = GET | POST | PUT | DELETE

  /** A request: verb, base, the path after the base (with any query text the
      handler formats into it), the pairs `url_with_query` appends (their
      form-encoding belongs to the `url` crate), and the JSON body, if any. */
  datatype Call = Call(verb: Verb, api: Api, path: string, query: seq<(string, string)>, body: Option<Json>)

  /** What a handler shows: a line, a JSON document, key/value rows, or a
      table with headers. */
  datatype Shown = Line(text: string) | JsonOut(value: Json) | Pairs(rows: seq<seq<string>>)
                 | Rows(headers: seq<string>, rows: seq<seq<string>>)

  /** `OutputFormat` of src/output.rs. */
  datatype Format = JsonFormat | TableFormat | MarkdownFormat

  /** The JSON document for `--output json`, the rows otherwise (their layout
      per format belongs to src/output.rs). */
  function ShowAs(ctx: Ctx, fmt: Format, json: Json, rows: seq<seq<string>>): (r: seq<Shown>)
    ensures ctx.quiet ==> r == []
    ensures !ctx.quiet ==> r == [if fmt == JsonFormat then JsonOut(json) else Pairs(rows)]
  {
    Show(ctx, if fmt == JsonFormat then JsonOut(json) else Pairs(rows))
  }

  /** `print_write_action_result`: the message line without `--output`, else
      the JSON document or the key/value rows. */
  function WriteActionResult(ctx: Ctx, output: Option<Format>, text: string, json: Json,
                             rows: seq<seq<string>>): (r: seq<Shown>)
    ensures ctx.quiet ==> r == []
    ensures !ctx.quiet && output.None? ==> r == [Line(text)]
    ensures !ctx.quiet && output == Some(JsonFormat) ==> r == [JsonOut(json)]
    ensures !ctx.quiet && output.Some? && output != Some(JsonFormat) ==> r == [Pairs(rows)]
  {
    match output
    case None => Show(ctx, Line(text))
    case Some(fmt) => ShowAs(ctx, fmt, json, rows)
  }

  datatype Run = Run(calls: seq<Call>, shown: seq<Shown>, result: Result<()>)

  /** `print_line`, `maybe_print_json`, `maybe_print_kv` and
      `maybe_print_table`: nothing is shown when `quiet` is set. */
  function Show(ctx: Ctx, s: Shown): (r: seq<Shown>)
    ensures |r| <= 1
    ensures ctx.quiet ==> r == []
    ensures !ctx.quiet ==> r == [s]
  {
    if ctx.quiet then [] else [s]
  }

  /** A handler that returns `Ok` after showing `s` and sending nothing. */
  function Says(ctx: Ctx, s: Shown): Run {
    Run([], Show(ctx, s), Ok(()))
  }

  /** A handler that stops with `error` after sending `calls`. */
  function Fails(calls: seq<Call>, error: string): Run {
    Run(calls, [], Err(error))
  }

  /** Every request of the run is a GET: the command only reads. */
  predicate ReadsOnly(r: Run) {
    forall i :: 0 <= i < |r.calls| ==> r.calls[i].verb == GET
  }

  /** A run that fails has shown nothing: handlers return the error before
      they print. */
  predicate ShowsOnlyOnSuccess(r: Run) {
    r.result.Err? ==> r.shown == []
  }

  /** A step that fails: the error, with the earlier requests kept. */
  function After(calls: seq<Call>, r: Run): (out: Run)
    ensures out.calls == calls + r.calls && out.shown == r.shown && out.result == r.result
  {
    Run(calls + r.calls, r.shown, r.result)
  }

  // ---------------------------------------------------------------- human_size

  /** `human_size`: a negative count is shown as its decimal text; any other
      count goes to the `humansize` crate, which is given as `format`. */
  function HumanSize(bytes: int, format: nat -> string): string {
    if bytes < 0 then IntToString(bytes) else format(bytes)
  }

  lemma HumanSizeNegative(bytes: int, format: nat -> string)
    requires bytes < 0
    ensures ParseIntText(HumanSize(bytes, format)) == Some(bytes)
    ensures |HumanSize(bytes, format)| >= 2 && HumanSize(bytes, format)[0] == '-'
  {
    IntToStringRoundTrip(bytes);
  }

  // ------------------------------------------------------------ download link

  /** The download link of an attachment: `downloadLink`, else
      `_links.download`, whichever is first a string. */
  function DownloadLink(item: Json): (r: Option<string>)
    ensures GetStr(item, "downloadLink").Some? ==> r == GetStr(item, "downloadLink")
    ensures GetStr(item, "downloadLink").None? ==>
      r == match GetPath(item, ["_links", "download"]) case Some(JStr(l)) => Some(l) case _ => None
  {
    match GetStr(item, "downloadLink")
    case Some(l) => Some(l)
    case None =>
      match GetPath(item, ["_links", "download"])
      case Some(JStr(l)) => Some(l)
      case _ => None
  }

  // ------------------------------------------------------ resolve_download_path

  const UNSAFE_TITLE: string := "Unsafe or missing attachment title. Provide --output to choose a file path."

  /** `resolve_download_path`: an explicit path wins; otherwise the last
      component of the attachment title, which must not be empty. */
  function ResolveDownloadPath(output: Option<Path>, json: Json): (r: Result<Path>)
    ensures output.Some? ==> r == Ok(output.value)
    ensures output.None? && r.Ok? ==>
      r.value.parts != [] && Some(r.value.parts[0]) == FileName(FromString(GetStr(json, "title").GetOr("")))
    ensures output.None? && r.Err? ==> FileName(FromString(GetStr(json, "title").GetOr(""))).None? && r.error == UNSAFE_TITLE
  {
    if output.Some? then Ok(output.value)
    else
      var title := GetStr(json, "title").GetOr("");
      match FileName(FromString(title))
      case None => Err(UNSAFE_TITLE)
      case Some(name) => Ok(Path(false, [name]))
  }

  /** A path derived from the title is one plain relative component: it
      cannot leave the working directory. */
  lemma DerivedPathStaysHere(json: Json)
    requires ResolveDownloadPath(None, json).Ok?
    ensures var p := ResolveDownloadPath(None, json).value;
      !p.absolute && |p.parts| == 1 && WellFormed(p) && p.parts[0] != ".."
  {
    var title := GetStr(json, "title").GetOr("");
    FromStringWellFormed(title);
    var parts := FromString(title).parts;
    assert parts[|parts| - 1] in parts;
  }

  // -------------------------------------------------------- add_markdown_header

  /** The header line put before exported markdown. */
  function SourceHeader(baseUrl: string, webui: string): string {
    "<!-- Source: " + baseUrl + webui + " -->\n\n"
  }

  /** `add_markdown_header`: the source comment and a blank line go before the
      markdown only when `_links.webui` is a string. */
  function AddMarkdownHeader(baseUrl: string, json: Json, markdown: string): (r: string)
    ensures EndsWith(r, markdown)
    ensures match GetPath(json, ["_links", "webui"])
      case Some(JStr(w)) => r == SourceHeader(baseUrl, w) + markdown
      case _ => r == markdown
  {
    match GetPath(json, ["_links", "webui"])
    case Some(JStr(w)) =>
      var r := SourceHeader(baseUrl, w) + markdown;
      assert r[|r| - |markdown|..] == markdown;
      r
    case _ => markdown
  }

  /** The header can be taken off again: what follows it is the markdown. */
  lemma HeaderStrips(baseUrl: string, webui: string, markdown: string)
    ensures var r := SourceHeader(baseUrl, webui) + markdown;
      StartsWith(r, "<!-- Source: ") && r[|SourceHeader(baseUrl, webui)|..] == markdown
      && r[|r| - |markdown| - 2..|r| - |markdown|] == "\n\n"
  {
  }

  // ------------------------------------------------------------------ read_body

  const BOTH_BODIES: string := "Use either --body or --body-file, not both"
  const NO_BODY: string := "Provide --body or --body-file (use '-' for stdin)"

  /** The path `-`, which `read_body` reads from standard input. */
  const STDIN_PATH: Path := Path(false, ["-"])

  /** Where `read_body` takes the text from. */
  datatype BodySource = Inline(text: string) | Stdin | File(path: Path)

  /** The argument rules of `read_body`: reading stdin or a file is I/O and is
      not part of this choice. */
  function BodySourceOf(body: Option<string>, bodyFile: Option<Path>): (r: Result<BodySource>)
    ensures body.Some? && bodyFile.Some? ==> r == Err(BOTH_BODIES)
    ensures body.Some? && bodyFile.None? ==> r == Ok(Inline(body.value))
    ensures body.None? && bodyFile.Some? ==> r.Ok? && (r.value.Stdin? <==> bodyFile.value == STDIN_PATH)
    ensures body.None? && bodyFile.Some? && bodyFile.value != STDIN_PATH ==> r == Ok(File(bodyFile.value))
    ensures body.None? && bodyFile.None? ==> r == Err(NO_BODY)
  {
    if body.Some? && bodyFile.Some? then Err(BOTH_BODIES)
    else if body.Some? then Ok(Inline(body.value))
    else if bodyFile.Some? then (if bodyFile.value == STDIN_PATH then Ok(Stdin) else Ok(File(bodyFile.value)))
    else Err(NO_BODY)
  }

  /** `read_body`: `stdin` is what standard input holds and `readFile` reads a
      file; a failed file read is reported by its "Failed to read" context, the
      outermost message. */
  function ReadBody(body: Option<string>, bodyFile: Option<Path>, stdin: Result<string>,
                    readFile: Path -> Result<string>): (r: Result<string>)
    ensures body.Some? && bodyFile.Some? ==> r == Err(BOTH_BODIES)
    ensures body.None? && bodyFile.None? ==> r == Err(NO_BODY)
    // `--body` wins as given; `--body-file -` reads standard input
    ensures body.Some? && bodyFile.None? ==> r == Ok(body.value)
    ensures body.None? && bodyFile == Some(STDIN_PATH) ==> r == stdin
    // any other path: its content, or the read error naming the path
    ensures body.None? && bodyFile.Some? && bodyFile.value != STDIN_PATH ==>
      (r.Ok? <==> readFile(bodyFile.value).Ok?)
      && (r.Ok? ==> r.value == readFile(bodyFile.value).value)
      && (r.Err? ==> r.error == "Failed to read " + Display(bodyFile.value))
  {
    match BodySourceOf(body, bodyFile)
    case Err(e) => Err(e)
    case Ok(Inline(t)) => Ok(t)
    case Ok(Stdin) => stdin
    case Ok(File(p)) =>
      match readFile(p)
      case Ok(t) => Ok(t)
      case Err(_) => Err("Failed to read " + Display(p))
  }

  // ----------------------------------------------------- derive_title_from_file

  /** `derive_title_from_file`: no title for no file or `-`, else the stem. */
  function DeriveTitleFromFile(bodyFile: Option<Path>): (r: Option<string>)
    ensures bodyFile.None? || bodyFile == Some(STDIN_PATH) ==> r.None?
    ensures bodyFile.Some? && bodyFile.value != STDIN_PATH ==> r == FileStem(bodyFile.value)
  {
    if bodyFile.None? || bodyFile.value == STDIN_PATH then None else FileStem(bodyFile.value)
  }

  /** A derived title is the file name, or the file name less its extension. */
  lemma DerivedTitleIsStem(bodyFile: Option<Path>)
    requires DeriveTitleFromFile(bodyFile).Some?
    ensures var p := bodyFile.value; var t := DeriveTitleFromFile(bodyFile).value;
      FileName(p) == Some(t) || (Extension(p).Some? && FileName(p).value == t + "." + Extension(p).value)
  {
    StemExtension(bodyFile.value);
  }
}
