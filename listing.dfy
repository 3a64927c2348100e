/**
 * src/commands/page/listing.rs: the query `page list` sends and its space
 * column, the request `page get` makes for each output format and the rows
 * it shows, and the body-format dispatch of `page body`.
 */
module Listing {
  import opened Wrappers
  import opened Strings
  import opened Json
  import opened Helpers
  import Markdown

  /** A pair for an optional argument: present exactly when it is given. */
  function Given(key: string, value: Option<string>): (r: seq<(string, string)>)
    ensures value.None? ==> r == []
    ensures value.Some? ==> r == [(key, value.value)]
  {
    if value.Some? then [(key, value.value)] else []
  }

  // ------------------------------------------------------------------ page_list

  /** The query pairs of `page list`: the limit, then the space id, status
      and title that were given, in that order. */
  function PageListPairs(limit: nat, spaceId: Option<string>, status: Option<string>, title: Option<string>): seq<(string, string)> {
    [("limit", NatToString(limit))] + Given("space-id", spaceId) + Given("status", status) + Given("title", title)
  }

  /** `page_list` pushes each optional pair in turn. */
  method BuildPageListPairs(limit: nat, spaceId: Option<string>, status: Option<string>, title: Option<string>)
    returns (pairs: seq<(string, string)>)
    ensures pairs == PageListPairs(limit, spaceId, status, title)
  {
    pairs := [("limit", NatToString(limit))];
    if spaceId.Some? {
      pairs := pairs + [("space-id", spaceId.value)];
    }
    if status.Some? {
      pairs := pairs + [("status", status.value)];
    }
    if title.Some? {
      pairs := pairs + [("title", title.value)];
    }
  }

  /** The limit comes first and each filter appears once exactly when given. */
  lemma PageListPairsShape(limit: nat, spaceId: Option<string>, status: Option<string>, title: Option<string>)
    ensures var p := PageListPairs(limit, spaceId, status, title);
      p[0] == ("limit", NatToString(limit))
      && |p| == 1 + (if spaceId.Some? then 1 else 0) + (if status.Some? then 1 else 0) + (if title.Some? then 1 else 0)
      && (title.Some? ==> p[|p| - 1] == ("title", title.value))
      && (spaceId.Some? ==> p[1] == ("space-id", spaceId.value))
  {
  }

  /** The space column: the key resolved for the page's space id, else the
      id itself. */
  function SpaceColumn(item: Json, keys: map<string, string>): (r: string)
    ensures JsonStr(item, "spaceId") in keys ==> r == keys[JsonStr(item, "spaceId")]
    ensures JsonStr(item, "spaceId") !in keys ==> r == JsonStr(item, "spaceId")
  {
    var id := JsonStr(item, "spaceId");
    if id in keys then keys[id] else id
  }

  const PAGE_LIST_HEADERS: seq<string> := ["ID", "Title", "Space", "Status"]

  function PageListRow(item: Json, keys: map<string, string>): seq<string> {
    [JsonStr(item, "id"), JsonStr(item, "title"), SpaceColumn(item, keys), JsonStr(item, "status")]
  }

  /** `page_list`; `spaceId` is the resolved `--space` (used only when given),
      `fetched` what the paging returns, `spaceKeys` the keys looked up for
      the table. */
  function PageList(ctx: Ctx, limit: nat, space: Option<string>, status: Option<string>, title: Option<string>,
                    output: Format, spaceId: Result<string>, fetched: Result<seq<Json>>,
                    spaceKeys: Result<map<string, string>>): (r: Run)
    ensures space.Some? && spaceId.Err? ==> r == Fails([], spaceId.error)
    ensures |r.calls| <= 1 && ReadsOnly(r) && ShowsOnlyOnSuccess(r)
    ensures r.result.Ok? <==> (space.None? || spaceId.Ok?) && fetched.Ok? && (output == JsonFormat || spaceKeys.Ok?)
    ensures ctx.quiet ==> r.shown == []
  {
    if space.Some? && spaceId.Err? then Fails([], spaceId.error)
    else
      var sid := if space.Some? then Some(spaceId.value) else None;
      var call := Call(GET, V2, "/pages", PageListPairs(limit, sid, status, title), None);
      match fetched
      case Err(e) => Fails([call], e)
      case Ok(items) =>
        if output == JsonFormat then Run([call], Show(ctx, JsonOut(JArr(items))), Ok(()))
        else
          match spaceKeys
          case Err(e) => Fails([call], e)
          case Ok(keys) =>
            Run([call], Show(ctx, Rows(PAGE_LIST_HEADERS, seq(|items|, i requires 0 <= i < |items| => PageListRow(items[i], keys)))), Ok(()))
  }

  /** One row per page, in order, with the space key or, failing that, its id. */
  lemma PageListRows(ctx: Ctx, limit: nat, space: Option<string>, status: Option<string>, title: Option<string>,
                     output: Format, spaceId: Result<string>, items: seq<Json>, keys: map<string, string>)
    requires !ctx.quiet && output != JsonFormat && (space.Some? ==> spaceId.Ok?)
    ensures var r := PageList(ctx, limit, space, status, title, output, spaceId, Ok(items), Ok(keys));
      |r.calls| == 1 && r.calls[0].path == "/pages" && r.shown[0].Rows?
      && |r.shown[0].rows| == |items|
      && forall i :: 0 <= i < |items| ==> r.shown[0].rows[i] == PageListRow(items[i], keys)
  {
  }

  // ------------------------------------------------------------------- page_get

  /** The query of the table form of `page get`: `body-format` only with
      `--show-body`, `version` only when given. */
  function PageGetPairs(showBody: bool, bodyFormat: string, version: Option<int>): (r: seq<(string, string)>)
    ensures r == [] <==> !showBody && version.None?
  {
    (if showBody then [("body-format", bodyFormat)] else [])
      + (if version.Some? then [("version", IntToString(version.value))] else [])
  }

  /** The table form builds its pairs step by step. */
  method BuildPageGetPairs(showBody: bool, bodyFormat: string, version: Option<int>) returns (pairs: seq<(string, string)>)
    ensures pairs == PageGetPairs(showBody, bodyFormat, version)
  {
    pairs := [];
    if showBody {
      pairs := pairs + [("body-format", bodyFormat)];
    }
    if version.Some? {
      pairs := pairs + [("version", IntToString(version.value))];
    }
  }

  /** The version asked for reads back from the query text. */
  lemma PageGetVersionReadsBack(showBody: bool, bodyFormat: string, v: int)
    ensures var p := PageGetPairs(showBody, bodyFormat, Some(v));
      p[|p| - 1].0 == "version" && ParseIntText(p[|p| - 1].1) == Some(v)
  {
    IntToStringRoundTrip(v);
  }

  /** The body value of a page in a representation, when it is a string. */
  function BodyValue(page: Json, representation: string): Option<string> {
    match GetPath(page, ["body", representation, "value"])
    case Some(JStr(v)) => Some(v)
    case _ => None
  }

  /** What `page get` meets outside the model: `serialize` renders a JSON
      value as text (for the version), `convert` is the HTML conversion before
      post-processing, `spaceKey` the key looked up for the page's space. */
  datatype GetIo = GetIo(serialize: Json -> string, convert: string -> Result<string>, spaceKey: Result<string>)

  /** The rows of the table form. */
  function PageGetRows(page: Json, baseUrl: string, showBody: bool, bodyFormat: string, io: GetIo): (rows: seq<seq<string>>)
    ensures |rows| == 7 || |rows| == 8
    ensures rows[2] == ["Space", if io.spaceKey.Ok? then io.spaceKey.value else JsonStr(page, "spaceId")]
    ensures |rows| == 8 <==> showBody && BodyValue(page, bodyFormat).Some?
    ensures |rows| == 8 ==> rows[7] == ["Body", BodyValue(page, bodyFormat).value]
  {
    var webui := match GetPath(page, ["_links", "webui"]) case Some(JStr(w)) => w case _ => "";
    var version := match GetPath(page, ["version", "number"]) case Some(v) => io.serialize(v) case None => "";
    var key := if io.spaceKey.Ok? then io.spaceKey.value else JsonStr(page, "spaceId");
    var rows := [
      ["ID", JsonStr(page, "id")], ["Title", JsonStr(page, "title")], ["Space", key],
      ["Status", JsonStr(page, "status")], ["Version", version], ["Parent", JsonStr(page, "parentId")],
      ["URL", baseUrl + webui]];
    if showBody && BodyValue(page, bodyFormat).Some? then rows + [["Body", BodyValue(page, bodyFormat).value]] else rows
  }

  /** The request `page get` makes for an output format. */
  function PageGetCall(id: string, output: Format, bodyFormat: string, version: Option<int>, showBody: bool): Call {
    match output
    case JsonFormat =>
      Call(GET, V2, "/pages/" + id + "?body-format=" + bodyFormat
                    + (if version.Some? then "&version=" + IntToString(version.value) else ""), [], None)
    case TableFormat => Call(GET, V2, "/pages/" + id, PageGetPairs(showBody, bodyFormat, version), None)
    case MarkdownFormat => Call(GET, V2, "/pages/" + id + "?body-format=view", [], None)
  }

  /** `page_get`; `fetched` answers its one request. */
  function PageGet(ctx: Ctx, baseUrl: string, pageId: Result<string>, output: Format, bodyFormat: string,
                   version: Option<int>, showBody: bool, keepEmptyListItems: bool, io: GetIo,
                   fetched: Result<Json>): (r: Run)
    ensures pageId.Err? ==> r == Fails([], pageId.error)
    ensures |r.calls| <= 1 && ReadsOnly(r) && ShowsOnlyOnSuccess(r)
    ensures pageId.Ok? ==> |r.calls| == 1
    ensures output != MarkdownFormat ==> (r.result.Ok? <==> pageId.Ok? && fetched.Ok?)
    ensures ctx.quiet ==> r.shown == []
  {
    match pageId
    case Err(e) => Fails([], e)
    case Ok(id) =>
      var call := PageGetCall(id, output, bodyFormat, version, showBody);
      match fetched
      case Err(e) => Fails([call], e)
      case Ok(page) =>
        match output
        case JsonFormat => Run([call], Show(ctx, JsonOut(page)), Ok(()))
        case TableFormat => Run([call], Show(ctx, Pairs(PageGetRows(page, baseUrl, showBody, bodyFormat, io))), Ok(()))
        case MarkdownFormat =>
          match BodyValue(page, "view")
          case None => Fails([call], "Missing view body content")
          case Some(html) =>
            match Markdown.HtmlToMarkdown(html, keepEmptyListItems, io.convert)
            case Err(e) => Fails([call], e)
            case Ok(markdown) =>
              Run([call], if ctx.quiet then [] else [Line(AddMarkdownHeader(baseUrl, page, markdown))], Ok(()))
  }

  /** The JSON form asks for the version in the path; the table form carries
      a query only when it has something to ask. */
  lemma PageGetRequests(id: string, bodyFormat: string, version: Option<int>, showBody: bool)
    ensures PageGetCall(id, JsonFormat, bodyFormat, version, showBody).query == []
    ensures version.Some? ==>
      EndsWith(PageGetCall(id, JsonFormat, bodyFormat, version, showBody).path, "&version=" + IntToString(version.value))
    ensures PageGetCall(id, TableFormat, bodyFormat, version, showBody).path == "/pages/" + id
    ensures PageGetCall(id, TableFormat, bodyFormat, version, showBody).query == [] <==> !showBody && version.None?
  {
    if version.Some? {
      var p := PageGetCall(id, JsonFormat, bodyFormat, version, showBody).path;
      var tail := "&version=" + IntToString(version.value);
      assert p[|p| - |tail|..] == tail;
    }
  }

  // ------------------------------------------------------------------ page_body

  /** The representations `page body` can ask for. */
  datatype BodyKind = MarkdownBody | ViewBody | StorageBody | AdfBody

  /** `page_body`'s dispatch on the lowercased format. */
  function BodyKindOf(format: string): (r: Result<BodyKind>)
    ensures r == Ok(MarkdownBody) <==> LowerAscii(format) in {"markdown", "md"}
    ensures r == Ok(ViewBody) <==> LowerAscii(format) == "view"
    ensures r == Ok(StorageBody) <==> LowerAscii(format) == "storage"
    ensures r == Ok(AdfBody) <==> LowerAscii(format) in {"atlas_doc_format", "adf"}
    ensures r.Err? ==> r.error == "Invalid body format: " + format + ". Use markdown, view, storage, atlas_doc_format, or adf."
  {
    var f := LowerAscii(format);
    if f == "markdown" || f == "md" then Ok(MarkdownBody)
    else if f == "view" then Ok(ViewBody)
    else if f == "storage" then Ok(StorageBody)
    else if f == "atlas_doc_format" || f == "adf" then Ok(AdfBody)
    else Err("Invalid body format: " + format + ". Use markdown, view, storage, atlas_doc_format, or adf.")
  }

  /** The representation requested for each kind: the markdown is made from
      the view. */
  function Representation(k: BodyKind): string {
    match k
    case MarkdownBody => "view"
    case ViewBody => "view"
    case StorageBody => "storage"
    case AdfBody => "atlas_doc_format"
  }

  function MissingBody(k: BodyKind): string {
    match k
    case StorageBody => "Missing storage body content"
    case AdfBody => "Missing ADF body content"
    case _ => "Missing view body content"
  }

  /** The body text for a kind; ADF that parses as JSON is pretty-printed,
      and ADF that does not is given back unchanged. */
  function BodyText(ctx: Ctx, k: BodyKind, baseUrl: string, page: Json, keepEmptyListItems: bool,
                    convert: string -> Result<string>, serde: Serde): (r: Result<string>)
    ensures BodyValue(page, Representation(k)).None? ==> r == Err(MissingBody(k))
    ensures BodyValue(page, Representation(k)).Some? ==>
      var v := BodyValue(page, Representation(k)).value;
      match k
      case ViewBody => r == Ok(Markdown.Decode(v))
      case StorageBody => r == Ok(v)
      case AdfBody =>
        (serde.parse(v).None? ==> r == Ok(v)) && (serde.parse(v).Some? ==> r == Ok(serde.pretty(serde.parse(v).value)))
      case MarkdownBody =>
        (r.Ok? <==> Markdown.HtmlToMarkdown(v, keepEmptyListItems, convert).Ok?)
        && (r.Ok? ==> var m := Markdown.HtmlToMarkdown(v, keepEmptyListItems, convert).value;
                      r.value == if ctx.quiet then m else AddMarkdownHeader(baseUrl, page, m))
  {
    match BodyValue(page, Representation(k))
    case None => Err(MissingBody(k))
    case Some(v) =>
      match k
      case ViewBody => Ok(Markdown.Decode(v))
      case StorageBody => Ok(v)
      case AdfBody => Ok(Reformat(v, serde.parse, serde.pretty))
      case MarkdownBody =>
        match Markdown.HtmlToMarkdown(v, keepEmptyListItems, convert)
        case Err(e) => Err(e)
        case Ok(m) => Ok(if ctx.quiet then m else AddMarkdownHeader(baseUrl, page, m))
  }

  /** `page_body`; `fetched` answers its one request. */
  function PageBody(ctx: Ctx, baseUrl: string, pageId: Result<string>, format: string, output: Format,
                    keepEmptyListItems: bool, convert: string -> Result<string>, serde: Serde,
                    fetched: Result<Json>): (r: Run)
    ensures pageId.Err? ==> r == Fails([], pageId.error)
    ensures |r.calls| <= 1 && ReadsOnly(r) && ShowsOnlyOnSuccess(r)
    ensures r.result.Ok? ==> pageId.Ok? && BodyKindOf(format).Ok? && fetched.Ok?
    ensures ctx.quiet ==> r.shown == []
  {
    match pageId
    case Err(e) => Fails([], e)
    case Ok(id) =>
      match BodyKindOf(format)
      case Err(e) => Fails([], e)
      case Ok(k) =>
        var call := Call(GET, V2, "/pages/" + id + "?body-format=" + Representation(k), [], None);
        match fetched
        case Err(e) => Fails([call], e)
        case Ok(page) =>
          match BodyText(ctx, k, baseUrl, page, keepEmptyListItems, convert, serde)
          case Err(e) => Fails([call], e)
          case Ok(body) =>
            var shown := if output == JsonFormat
              then Show(ctx, JsonOut(JObj(map["pageId" := JStr(id), "format" := JStr(format), "body" := JStr(body)])))
              else Show(ctx, Line(body));
            Run([call], shown, Ok(()))
  }

  /** An unknown format is refused before any request; a known one makes one
      request for its representation, and the JSON form reports the format
      as typed. */
  lemma PageBodyRequests(ctx: Ctx, baseUrl: string, id: string, format: string, output: Format,
                         keepEmptyListItems: bool, convert: string -> Result<string>, serde: Serde,
                         fetched: Result<Json>)
    ensures var r := PageBody(ctx, baseUrl, Ok(id), format, output, keepEmptyListItems, convert, serde, fetched);
      (BodyKindOf(format).Err? ==> r.calls == [] && r.result == Err(BodyKindOf(format).error))
      && (BodyKindOf(format).Ok? ==>
            r.calls == [Call(GET, V2, "/pages/" + id + "?body-format=" + Representation(BodyKindOf(format).value), [], None)])
  {
  }

  lemma PageBodyJson(ctx: Ctx, baseUrl: string, id: string, format: string, keepEmptyListItems: bool,
                     convert: string -> Result<string>, serde: Serde, page: Json)
    requires !ctx.quiet && BodyKindOf(format).Ok?
    requires BodyText(ctx, BodyKindOf(format).value, baseUrl, page, keepEmptyListItems, convert, serde).Ok?
    ensures var r := PageBody(ctx, baseUrl, Ok(id), format, JsonFormat, keepEmptyListItems, convert, serde, Ok(page));
      var body := BodyText(ctx, BodyKindOf(format).value, baseUrl, page, keepEmptyListItems, convert, serde).value;
      r.shown == [JsonOut(JObj(map["pageId" := JStr(id), "format" := JStr(format), "body" := JStr(body)]))]
  {
  }
}
