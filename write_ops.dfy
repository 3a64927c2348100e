/**
 * src/commands/page/write_ops.rs: the decisions of `page edit`, `page create`,
 * `page update` and `page delete` — which requests go out, in what order,
 * with what payload, and when the command stops instead.
 *
 * Page references (`resolve_page_id`, `resolve_space_id`) arrive resolved, as
 * results; each request's answer is a parameter.
 */
module WriteOps {
  import opened Wrappers
  import opened Strings
  import opened Json
  import opened Paths
  import opened Helpers

  /** `version.number` of a page, when it is a 64-bit integer. */
  function VersionNumber(page: Json): (r: Option<int>)
    ensures r.Some? ==> GetPath(page, ["version", "number"]) == Some(JNum(r.value)) && I64_MIN <= r.value <= I64_MAX
  {
    match GetPath(page, ["version", "number"])
    case Some(v) => AsI64(v)
    case None => None
  }

  /** The page fields `page edit` and `page update` send. */
  function PageFields(id: string, title: string, status: string, representation: string,
                      value: string, number: int): map<string, Json> {
    map[
      "id" := JStr(id),
      "title" := JStr(title),
      "status" := JStr(status),
      "body" := JObj(map["representation" := JStr(representation), "value" := JStr(value)]),
      "version" := JObj(map["number" := JNum(number)])]
  }

  /** The rows shown after a page is written. */
  function WrittenRows(result: Json, third: seq<string>): seq<seq<string>> {
    var webui := match GetPath(result, ["_links", "webui"]) case Some(JStr(w)) => w case _ => "";
    [["ID", JsonStr(result, "id")], ["Title", JsonStr(result, "title")], third, ["Web", webui]]
  }

  const CONFIRM_HINT: string := ". Use --yes to skip confirmation in non-interactive shells."

  // ------------------------------------------------------------------ page_edit

  /** The body format `page edit` asks for. */
  function EditFormat(format: string): (r: Result<string>)
    ensures r == Ok("storage") <==> LowerAscii(format) == "storage"
    ensures r == Ok("atlas_doc_format") <==> LowerAscii(format) == "atlas_doc_format" || LowerAscii(format) == "adf"
    ensures r.Ok? ==> r.value == "storage" || r.value == "atlas_doc_format"
    ensures r.Err? ==> r.error == "Invalid --format: " + format + ". Use storage or adf."
  {
    var f := LowerAscii(format);
    if f == "storage" then Ok("storage")
    else if f == "atlas_doc_format" || f == "adf" then Ok("atlas_doc_format")
    else Err("Invalid --format: " + format + ". Use storage or adf.")
  }

  /** `$EDITOR` when set and not blank, else `$VISUAL` when set and not
      blank, else `vi`. */
  function EditorString(editor: Option<string>, visual: Option<string>): (r: string)
    ensures editor.Some? && Trim(editor.value) != [] ==> r == editor.value
    ensures !(editor.Some? && Trim(editor.value) != []) && visual.Some? && Trim(visual.value) != [] ==> r == visual.value
    ensures !(editor.Some? && Trim(editor.value) != []) && !(visual.Some? && Trim(visual.value) != []) ==> r == "vi"
    ensures Trim(r) != []
  {
    if editor.Some? && Trim(editor.value) != [] then editor.value
    else if visual.Some? && Trim(visual.value) != [] then visual.value
    else
      assert Trim("vi") != [] by {
        assert !IsWhitespace('v') && !IsWhitespace('i');
        TrimNoEdges("vi");
      }
      "vi"
  }

  /** The program and arguments from the editor string; `words` is what
      `shell_words::split` gives (`None` when the string does not split). The
      program is taken off the front of the words (`parts.remove(0)`). */
  method EditorCommand(editorString: string, words: Option<seq<string>>) returns (program: string, args: seq<string>)
    ensures words.Some? && words.value != [] ==> program == words.value[0] && args == words.value[1..]
    ensures words.Some? && words.value == [] ==> program == "vi" && args == []
    ensures words.None? ==> program == editorString && args == []
  {
    var parts := if words.Some? then words.value else [editorString];
    if |parts| == 0 {
      parts := parts + ["vi"];
    }
    program := parts[0];
    parts := parts[1..];
    args := parts;
  }

  /** What `page edit` meets outside the model: `serde` parses and writes out
      JSON, `edited` is what the editor session leaves in the file (or why it
      failed), `confirm` answers "Save changes?". */
  datatype EditIo = EditIo(serde: Serde, edited: Result<string>, confirm: Result<bool>)

  /** The text put in the editor's file: the current body, pretty-printed
      for ADF that parses as JSON. */
  function EditorText(bodyFormat: string, page: Json, serde: Serde): string {
    var body := match GetPath(page, ["body", bodyFormat, "value"]) case Some(JStr(b)) => b case _ => "";
    if bodyFormat == "atlas_doc_format" then Reformat(body, serde.parse, serde.pretty) else body
  }

  /** The PUT `page edit` sends once the edit is saved. */
  function EditPut(id: string, bodyFormat: string, page: Json, current: int, edited: string,
                   serde: Serde): Call {
    var value := if bodyFormat == "atlas_doc_format" then Reformat(edited, serde.parse, serde.compact) else edited;
    Call(PUT, V2, "/pages/" + id, [],
         Some(JObj(PageFields(id, GetStr(page, "title").GetOr(""), GetStr(page, "status").GetOr("current"),
                              bodyFormat, value, current + 1))))
  }

  /** `page_edit`: `fetched` answers the GET of the page with its body,
      `latest` the second GET, `put` the PUT. */
  function PageEdit(ctx: Ctx, pageId: Result<string>, format: string, yes: bool, io: EditIo,
                    fetched: Result<Json>, latest: Result<Json>, put: Result<Json>): (r: Run)
    ensures pageId.Err? ==> r == Fails([], pageId.error)
    ensures GetGetPut(r.calls) && ShowsOnlyOnSuccess(r)
    ensures |r.calls| >= 2 ==> yes || io.confirm == Ok(true)
    ensures ctx.quiet ==> r.shown == []
  {
    match pageId
    case Err(e) => Fails([], e)
    case Ok(id) =>
      match EditFormat(format)
      case Err(e) => Fails([], e)
      case Ok(bf) =>
        var get := Call(GET, V2, "/pages/" + id + "?body-format=" + bf, [], None);
        match fetched
        case Err(e) => Fails([get], e)
        case Ok(page) =>
          match VersionNumber(page)
          case None => Fails([get], "Missing current version number")
          case Some(current) =>
            var original := EditorText(bf, page, io.serde);
            match io.edited
            case Err(e) => Fails([get], e)
            case Ok(edited) =>
              if edited == original then Run([get], Show(ctx, Line("No changes.")), Ok(()))
              else if !yes && io.confirm.Err? then Fails([get], io.confirm.error + CONFIRM_HINT)
              else if !yes && !io.confirm.value then Run([get], Show(ctx, Line("Cancelled.")), Ok(()))
              else EditSave(ctx, id, bf, page, current, edited, io.serde, latest, put, [get])
  }

  /** The end of `page_edit`: re-read the version, refuse on a conflict,
      then PUT the next version. */
  function EditSave(ctx: Ctx, id: string, bf: string, page: Json, current: int, edited: string,
                    serde: Serde, latest: Result<Json>, put: Result<Json>, sent: seq<Call>): (r: Run)
    ensures |sent| < |r.calls| <= |sent| + 2 && r.calls[..|sent|] == sent && ShowsOnlyOnSuccess(r)
    ensures r.calls[|sent|].verb == GET
    ensures |r.calls| == |sent| + 2 ==> r.calls[|sent| + 1].verb == PUT
    ensures |r.calls| == |sent| + 1 ==> r.result.Err?
    ensures |sent| == 1 && sent[0].verb == GET ==> GetGetPut(r.calls)
    ensures ctx.quiet ==> r.shown == []
  {
    var check := Call(GET, V2, "/pages/" + id, [], None);
    var checked := sent + [check];
    assert |checked| == |sent| + 1 && checked[..|sent|] == sent && checked[|sent|] == check;
    match latest
    case Err(e) => Fails(checked, e)
    case Ok(l) =>
      match VersionNumber(l)
      case None => Fails(checked, "Missing latest version number")
      case Some(now) =>
        if now != current then
          Fails(checked, "Version conflict: page is now at v" + IntToString(now) + " (was v"
                         + IntToString(current) + "). Re-run `confcli page edit`.")
        else
          var call := EditPut(id, bf, page, current, edited, serde);
          var saved := checked + [call];
          assert |saved| == |sent| + 2 && saved[..|sent|] == sent && saved[|sent|] == check && saved[|sent| + 1] == call;
          match put
          case Err(e) => Fails(saved, e)
          case Ok(result) =>
            Run(saved, Show(ctx, Pairs(WrittenRows(result, ["Status", JsonStr(result, "status")]))), Ok(()))
  }

  /** At most a GET of the page, a GET of its latest version, then a PUT. */
  predicate GetGetPut(calls: seq<Call>) {
    |calls| <= 3 && (|calls| >= 1 ==> calls[0].verb == GET) && (|calls| >= 2 ==> calls[1].verb == GET)
    && (|calls| == 3 ==> calls[2].verb == PUT)
  }

  predicate SendsPut(r: Run) {
    exists i :: 0 <= i < |r.calls| && r.calls[i].verb == PUT
  }

  /** An edit that changes nothing says so and writes nothing. */
  lemma UnchangedEditWritesNothing(ctx: Ctx, id: string, format: string, yes: bool, io: EditIo,
                                   page: Json, latest: Result<Json>, put: Result<Json>)
    requires EditFormat(format).Ok? && VersionNumber(page).Some?
    requires io.edited == Ok(EditorText(EditFormat(format).value, page, io.serde))
    ensures var r := PageEdit(ctx, Ok(id), format, yes, io, Ok(page), latest, put);
      r.result.Ok? && !SendsPut(r) && r.shown == Show(ctx, Line("No changes."))
  {
  }

  /** When the page's version moved since it was read, the edit stops with a
      conflict and nothing is written. */
  lemma ConflictWritesNothing(ctx: Ctx, id: string, bf: string, page: Json, current: int, edited: string,
                              serde: Serde, l: Json, put: Result<Json>, sent: seq<Call>)
    requires forall i :: 0 <= i < |sent| ==> sent[i].verb == GET
    requires VersionNumber(l).Some? && VersionNumber(l).value != current
    ensures var r := EditSave(ctx, id, bf, page, current, edited, serde, Ok(l), put, sent);
      r.result.Err? && !SendsPut(r) && StartsWith(r.result.error, "Version conflict: page is now at v")
  {
    var r := EditSave(ctx, id, bf, page, current, edited, serde, Ok(l), put, sent);
    assert forall i :: 0 <= i < |r.calls| ==> r.calls[i] == (sent + [Call(GET, V2, "/pages/" + id, [], None)])[i];
  }

  /** A saved edit writes version `current + 1`, after reading the page and
      checking its version again. */
  lemma SavedEditWritesNextVersion(ctx: Ctx, id: string, bf: string, page: Json, current: int, edited: string,
                                   serde: Serde, put: Result<Json>, sent: seq<Call>)
    ensures var r := EditSave(ctx, id, bf, page, current, edited, serde,
                              Ok(JObj(map["version" := JObj(map["number" := JNum(current)])])), put, sent);
      I64_MIN <= current <= I64_MAX ==>
        |r.calls| == |sent| + 2 && r.calls[|sent|] == Call(GET, V2, "/pages/" + id, [], None)
        && r.calls[|sent| + 1] == EditPut(id, bf, page, current, edited, serde)
  {
    var l := JObj(map["version" := JObj(map["number" := JNum(current)])]);
    var path := ["version", "number"];
    assert path[1..] == ["number"] && path[1..][1..] == [];
  }

  /** The PUT of an edit carries the next version and the edited body. */
  lemma EditPutPayload(id: string, bf: string, page: Json, current: int, edited: string, serde: Serde)
    ensures var body := EditPut(id, bf, page, current, edited, serde).body.value;
      GetPath(body, ["version", "number"]) == Some(JNum(current + 1))
      && GetPath(body, ["body", "value"]) == Some(JStr(if bf != "atlas_doc_format" then edited
                                                else if serde.parse(edited).None? then edited
                                                else serde.compact(serde.parse(edited).value)))
      && GetPath(body, ["body", "representation"]) == Some(JStr(bf))
  {
    var fields := EditPut(id, bf, page, current, edited, serde).body.value.fields;
    assert "version" in fields && "body" in fields;
    var vp, bp, rp := ["version", "number"], ["body", "value"], ["body", "representation"];
    assert vp[1..] == ["number"] && vp[1..][1..] == [];
    assert bp[1..] == ["value"] && bp[1..][1..] == [];
    assert rp[1..] == ["representation"] && rp[1..][1..] == [];
  }

  // ---------------------------------------------------------------- page_create

  const CREATE_TITLE_REQUIRED: string := "Title is required when reading from stdin"

  /** The title of a new page: `--title`, else the body file's stem. */
  function CreateTitle(title: Option<string>, bodyFile: Option<Path>): (r: Result<string>)
    ensures title.Some? ==> r == Ok(title.value)
    ensures title.None? && r.Ok? ==> bodyFile.Some? && bodyFile.value != STDIN_PATH && Some(r.value) == FileStem(bodyFile.value)
    ensures title.None? && (bodyFile.None? || bodyFile == Some(STDIN_PATH)) ==> r == Err(CREATE_TITLE_REQUIRED)
  {
    if title.Some? then Ok(title.value)
    else match DeriveTitleFromFile(bodyFile)
      case Some(t) => Ok(t)
      case None => Err(CREATE_TITLE_REQUIRED)
  }

  /** The payload `page create` posts. */
  function CreatePayload(spaceId: string, title: string, bodyFormat: string, body: string,
                         status: Option<string>, parentId: Option<string>): Json {
    var fields := map[
      "spaceId" := JStr(spaceId),
      "title" := JStr(title),
      "body" := JObj(map["representation" := JStr(bodyFormat), "value" := JStr(body)]),
      "status" := JStr(status.GetOr("current"))];
    JObj(if parentId.Some? then fields["parentId" := JStr(parentId.value)] else fields)
  }

  /** `page_create` sets `parentId` on the payload only after the parent
      resolves. */
  method BuildCreatePayload(spaceId: string, title: string, bodyFormat: string, body: string,
                            status: Option<string>, parentId: Option<string>) returns (payload: Json)
    ensures payload == CreatePayload(spaceId, title, bodyFormat, body, status, parentId)
  {
    var fields := map[
      "spaceId" := JStr(spaceId),
      "title" := JStr(title),
      "body" := JObj(map["representation" := JStr(bodyFormat), "value" := JStr(body)]),
      "status" := JStr(status.GetOr("current"))];
    if parentId.Some? {
      fields := fields["parentId" := JStr(parentId.value)];
    }
    payload := JObj(fields);
  }

  lemma CreateKeysDiffer()
    ensures "parentId" != "status" && "parentId" != "title" && "parentId" != "spaceId"
  {
    assert "parentId"[0] != "status"[0] && "parentId"[0] != "title"[0];
    assert "parentId"[1] != "spaceId"[1];
  }

  /** The status defaults to `current`, and `parentId` is sent exactly when a
      parent is given. */
  lemma CreatePayloadFields(spaceId: string, title: string, bodyFormat: string, body: string,
                            status: Option<string>, parentId: Option<string>)
    ensures var p := CreatePayload(spaceId, title, bodyFormat, body, status, parentId);
      Get(p, "status") == Some(JStr(status.GetOr("current"))) && Get(p, "title") == Some(JStr(title))
      && Get(p, "spaceId") == Some(JStr(spaceId))
      && (Get(p, "parentId").Some? <==> parentId.Some?)
      && (parentId.Some? ==> Get(p, "parentId") == Some(JStr(parentId.value)))
  {
    CreateKeysDiffer();
  }

  /** The arguments of `page create` and `page update` that carry the body. */
  datatype BodyArgs = BodyArgs(body: Option<string>, bodyFile: Option<Path>, bodyFormat: string)

  /** Standard input and file reads, for `read_body`. */
  datatype Input = Input(stdin: Result<string>, readFile: Path -> Result<string>)

  /** `page_create`; `spaceId` is the resolved space, `parentId` the resolved
      parent (used only with a parent), `spaceKey` the key looked up for the
      table. */
  function PageCreate(ctx: Ctx, space: string, title: Option<string>, parent: Option<string>, status: Option<string>,
                      b: BodyArgs, output: Format, input: Input, spaceId: Result<string>,
                      parentId: Result<string>, posted: Result<Json>, spaceKey: Result<string>): (r: Run)
    ensures r.calls != [] ==>
      !ctx.dryRun && CreateTitle(title, b.bodyFile).Ok? && spaceId.Ok?
      && ReadBody(b.body, b.bodyFile, input.stdin, input.readFile).Ok? && (parent.Some? ==> parentId.Ok?)
    ensures r.result.Ok? && !ctx.dryRun ==> |r.calls| == 1
    ensures ShowsOnlyOnSuccess(r)
    ensures ctx.quiet ==> r.shown == []
  {
    match CreateTitle(title, b.bodyFile)
    case Err(e) => Fails([], e)
    case Ok(t) =>
      if ctx.dryRun then Says(ctx, Line("Would create page '" + t + "' in space " + space))
      else
        match spaceId
        case Err(e) => Fails([], e)
        case Ok(sid) =>
          match ReadBody(b.body, b.bodyFile, input.stdin, input.readFile)
          case Err(e) => Fails([], e)
          case Ok(body) =>
            if parent.Some? && parentId.Err? then Fails([], parentId.error)
            else
              var pid := if parent.Some? then Some(parentId.value) else None;
              var call := Call(POST, V2, "/pages", [], Some(CreatePayload(sid, t, b.bodyFormat, body, status, pid)));
              match posted
              case Err(e) => Fails([call], e)
              case Ok(result) =>
                var key := if spaceKey.Ok? then spaceKey.value else "";
                Run([call], ShowAs(ctx, output, result, WrittenRows(result, ["Space", key])), Ok(()))
  }

  /** A dry run sends nothing, and a real run sends at most the one POST; the
      title is decided before either. */
  lemma CreateRequests(ctx: Ctx, space: string, title: Option<string>, parent: Option<string>, status: Option<string>,
                       b: BodyArgs, output: Format, input: Input, spaceId: Result<string>,
                       parentId: Result<string>, posted: Result<Json>, spaceKey: Result<string>)
    ensures var r := PageCreate(ctx, space, title, parent, status, b, output, input, spaceId, parentId, posted, spaceKey);
      (CreateTitle(title, b.bodyFile).Err? ==> r.calls == [] && r.result == Err(CREATE_TITLE_REQUIRED))
      && (ctx.dryRun ==> r.calls == [])
      && |r.calls| <= 1 && (|r.calls| == 1 ==> r.calls[0].verb == POST && r.calls[0].path == "/pages")
  {
  }

  // ---------------------------------------------------------------- page_update

  const NOTHING_TO_UPDATE: string := "Nothing to update. Provide at least one of --title, --parent, --status, --body/--body-file, or --message (or use `confcli page edit`)."

  /** The arguments of `page update`. */
  datatype UpdateArgs = UpdateArgs(title: Option<string>, parent: Option<string>, status: Option<string>,
                                   b: BodyArgs, message: Option<string>, output: Format)

  predicate NothingToUpdate(a: UpdateArgs) {
    a.title.None? && a.parent.None? && a.status.None? && a.b.body.None? && a.b.bodyFile.None? && a.message.None?
  }

  /** The payload `page update` sends. */
  function UpdatePayload(id: string, title: string, status: string, bodyFormat: string, body: string,
                         current: int, message: Option<string>, parentId: Option<string>): Json {
    var base := PageFields(id, title, status, bodyFormat, body, current + 1);
    var withMessage := if message.Some? then base["version" := JObj(map["number" := JNum(current + 1), "message" := JStr(message.value)])] else base;
    JObj(if parentId.Some? then withMessage["parentId" := JStr(parentId.value)] else withMessage)
  }

  /** `page_update` sets `version.message` and `parentId` on the payload in
      place. */
  method BuildUpdatePayload(id: string, title: string, status: string, bodyFormat: string, body: string,
                            current: int, message: Option<string>, parentId: Option<string>) returns (payload: Json)
    ensures payload == UpdatePayload(id, title, status, bodyFormat, body, current, message, parentId)
  {
    var fields := PageFields(id, title, status, bodyFormat, body, current + 1);
    if message.Some? {
      var version := fields["version"];
      fields := fields["version" := JObj(version.fields["message" := JStr(message.value)])];
    }
    if parentId.Some? {
      fields := fields["parentId" := JStr(parentId.value)];
    }
    payload := JObj(fields);
  }

  lemma UpdateKeysDiffer()
    ensures "parentId" != "version" && "parentId" != "body" && "parentId" != "title" && "parentId" != "status"
    ensures "message" != "number"
  {
    assert "parentId"[0] != "version"[0] && "parentId"[0] != "body"[0] && "parentId"[0] != "title"[0];
    assert "parentId"[0] != "status"[0] && "message"[0] != "number"[0];
  }

  /** The update writes version `current + 1`, with the message when one is
      given, and `parentId` exactly when a parent is given. */
  lemma UpdatePayloadVersion(id: string, title: string, status: string, bodyFormat: string, body: string,
                             current: int, message: Option<string>, parentId: Option<string>)
    ensures var p := UpdatePayload(id, title, status, bodyFormat, body, current, message, parentId);
      GetPath(p, ["version", "number"]) == Some(JNum(current + 1))
      && (GetPath(p, ["version", "message"]).Some? <==> message.Some?)
      && (message.Some? ==> GetPath(p, ["version", "message"]) == Some(JStr(message.value)))
  {
    UpdateKeysDiffer();
    var vp, mp := ["version", "number"], ["version", "message"];
    assert vp[1..] == ["number"] && vp[1..][1..] == [] && mp[1..] == ["message"] && mp[1..][1..] == [];
  }

  lemma UpdatePayloadFields(id: string, title: string, status: string, bodyFormat: string, body: string,
                            current: int, message: Option<string>, parentId: Option<string>)
    ensures var p := UpdatePayload(id, title, status, bodyFormat, body, current, message, parentId);
      Get(p, "title") == Some(JStr(title)) && Get(p, "status") == Some(JStr(status))
      && GetPath(p, ["body", "value"]) == Some(JStr(body))
  {
    UpdateKeysDiffer();
    var bp := ["body", "value"];
    assert bp[1..] == ["value"] && bp[1..][1..] == [];
  }

  lemma UpdatePayloadParent(id: string, title: string, status: string, bodyFormat: string, body: string,
                            current: int, message: Option<string>, parentId: Option<string>)
    ensures var p := UpdatePayload(id, title, status, bodyFormat, body, current, message, parentId);
      (Get(p, "parentId").Some? <==> parentId.Some?)
      && (parentId.Some? ==> Get(p, "parentId") == Some(JStr(parentId.value)))
  {
    UpdateKeysDiffer();
    assert "parentId" !in PageFields(id, title, status, bodyFormat, body, current + 1);
  }

  /** The title sent: `--title`, else the current title. */
  function UpdateTitle(title: Option<string>, page: Json): (r: Result<string>)
    ensures title.Some? ==> r == Ok(title.value)
    ensures title.None? ==> (r.Ok? <==> GetStr(page, "title").Some?) && (r.Ok? ==> Some(r.value) == GetStr(page, "title"))
    ensures r.Err? ==> r.error == "Title is required"
  {
    match title.Or(GetStr(page, "title"))
    case Some(t) => Ok(t)
    case None => Err("Title is required")
  }

  /** The status sent: `--status`, else the current status, else `current`. */
  function UpdateStatus(status: Option<string>, page: Json): (r: string)
    ensures status.Some? ==> r == status.value
    ensures status.None? && GetStr(page, "status").Some? ==> r == GetStr(page, "status").value
    ensures status.None? && GetStr(page, "status").None? ==> r == "current"
  {
    status.Or(GetStr(page, "status")).GetOr("current")
  }

  /** The body sent: the one given, else the current body in that format. */
  function UpdateBody(b: BodyArgs, page: Json, input: Input): (r: Result<string>)
    ensures b.body.None? && b.bodyFile.None? ==>
      r == (match GetPath(page, ["body", b.bodyFormat, "value"])
            case Some(JStr(v)) => Ok(v)
            case _ => Err("Missing body content for update"))
    ensures b.body.Some? || b.bodyFile.Some? ==> r == ReadBody(b.body, b.bodyFile, input.stdin, input.readFile)
  {
    if b.body.None? && b.bodyFile.None? then
      match GetPath(page, ["body", b.bodyFormat, "value"])
      case Some(JStr(v)) => Ok(v)
      case _ => Err("Missing body content for update")
    else ReadBody(b.body, b.bodyFile, input.stdin, input.readFile)
  }

  /** `page_update`; `fetched` answers the GET of the current page, `put`
      the PUT. */
  function PageUpdate(ctx: Ctx, a: UpdateArgs, pageId: Result<string>, input: Input, fetched: Result<Json>,
                      parentId: Result<string>, put: Result<Json>): (r: Run)
    ensures r.calls != [] ==> !NothingToUpdate(a) && pageId.Ok?
    ensures SendsPut(r) ==>
      !ctx.dryRun && fetched.Ok? && VersionNumber(fetched.value).Some? && UpdateTitle(a.title, fetched.value).Ok?
      && UpdateBody(a.b, fetched.value, input).Ok? && (a.parent.Some? ==> parentId.Ok?)
    ensures ShowsOnlyOnSuccess(r)
    ensures ctx.quiet ==> r.shown == []
  {
    if NothingToUpdate(a) then Fails([], NOTHING_TO_UPDATE)
    else
      match pageId
      case Err(e) => Fails([], e)
      case Ok(id) =>
        var get := Call(GET, V2, "/pages/" + id + "?body-format=" + a.b.bodyFormat, [], None);
        match fetched
        case Err(e) => Fails([get], e)
        case Ok(page) =>
          match VersionNumber(page)
          case None => Fails([get], "Missing current version number")
          case Some(current) =>
            match UpdateTitle(a.title, page)
            case Err(e) => Fails([get], e)
            case Ok(title) =>
              if ctx.dryRun then
                Run([get], Show(ctx, Line("Would update page " + id + " to version " + IntToString(current + 1))), Ok(()))
              else
                match UpdateBody(a.b, page, input)
                case Err(e) => Fails([get], e)
                case Ok(body) =>
                  if a.parent.Some? && parentId.Err? then Fails([get], parentId.error)
                  else
                    var pid := if a.parent.Some? then Some(parentId.value) else None;
                    var payload := UpdatePayload(id, title, UpdateStatus(a.status, page), a.b.bodyFormat, body,
                                                 current, a.message, pid);
                    var call := Call(PUT, V2, "/pages/" + id, [], Some(payload));
                    match put
                    case Err(e) => Fails([get, call], e)
                    case Ok(result) =>
                      Run([get, call], ShowAs(ctx, a.output, result,
                          WrittenRows(result, ["Status", JsonStr(result, "status")])), Ok(()))
  }

  /** With nothing to change the command stops before it resolves or reads
      anything. */
  lemma NothingToUpdateFailsFirst(ctx: Ctx, a: UpdateArgs, pageId: Result<string>, input: Input,
                                  fetched: Result<Json>, parentId: Result<string>, put: Result<Json>)
    requires NothingToUpdate(a)
    ensures PageUpdate(ctx, a, pageId, input, fetched, parentId, put) == Fails([], NOTHING_TO_UPDATE)
  {
  }

  /** A dry run reads the page and reports the version it would write; it
      writes nothing. A real run writes at most once, with a PUT. */
  lemma UpdateWrites(ctx: Ctx, a: UpdateArgs, id: string, input: Input, fetched: Result<Json>,
                     parentId: Result<string>, put: Result<Json>)
    ensures var r := PageUpdate(ctx, a, Ok(id), input, fetched, parentId, put);
      |r.calls| <= 2 && (forall i :: 0 <= i < |r.calls| && r.calls[i].verb != GET ==> i == 1 && r.calls[i].verb == PUT)
      && (ctx.dryRun ==> !SendsPut(r))
  {
    var r := PageUpdate(ctx, a, Ok(id), input, fetched, parentId, put);
    assert GetThenPut(r.calls) && (ctx.dryRun ==> |r.calls| <= 1);
    GetThenPutShape(r.calls);
  }

  /** At most a GET, then at most a PUT. */
  predicate GetThenPut(calls: seq<Call>) {
    |calls| <= 2 && (|calls| >= 1 ==> calls[0].verb == GET) && (|calls| == 2 ==> calls[1].verb == PUT)
  }

  lemma GetThenPutShape(calls: seq<Call>)
    requires GetThenPut(calls)
    ensures forall i :: 0 <= i < |calls| && calls[i].verb != GET ==> i == 1 && calls[i].verb == PUT
    ensures |calls| <= 1 ==> forall i :: 0 <= i < |calls| ==> calls[i].verb != PUT
  {
  }

  /** The dry-run message names version `current + 1`. */
  lemma UpdateDryRunPlan(ctx: Ctx, a: UpdateArgs, id: string, input: Input, page: Json,
                         parentId: Result<string>, put: Result<Json>)
    requires ctx.dryRun && !ctx.quiet && !NothingToUpdate(a)
    requires VersionNumber(page).Some? && UpdateTitle(a.title, page).Ok?
    ensures var r := PageUpdate(ctx, a, Ok(id), input, Ok(page), parentId, put);
      r.result.Ok? && r.shown == [Line("Would update page " + id + " to version " + IntToString(VersionNumber(page).value + 1))]
  {
  }

  // ---------------------------------------------------------------- page_delete

  /** The arguments of `page delete`. */
  datatype DeleteArgs = DeleteArgs(purge: bool, force: bool, yes: bool, output: Option<Format>)

  function Action(purge: bool): string {
    if purge then "purge" else "delete"
  }

  /** `page_delete`; `statusPage` answers the status lookup of a purge,
      `trashed` the plain DELETE and `purged` the purging one. */
  function PageDelete(ctx: Ctx, a: DeleteArgs, pageId: Result<string>, confirm: Result<bool>,
                      statusPage: Result<Json>, trashed: Result<Json>, purged: Result<Json>): (r: Run)
    ensures pageId.Err? ==> r == Fails([], pageId.error)
    ensures r.calls != [] ==> !ctx.dryRun && (a.yes || confirm == Ok(true))
    ensures |r.calls| <= 3 && ShowsOnlyOnSuccess(r)
    ensures ctx.quiet ==> r.shown == []
  {
    match pageId
    case Err(e) => Fails([], e)
    case Ok(id) =>
      var action := Action(a.purge);
      if ctx.dryRun then
        Run([], WriteActionResult(ctx, a.output, "Would " + action + " page " + id,
              JObj(map["dryRun" := JBool(true), "action" := JStr(action), "deleted" := JBool(false), "id" := JStr(id)]),
              [["DryRun", "true"], ["Action", action], ["Deleted", "false"], ["ID", id]]), Ok(()))
      else if !a.yes && confirm.Err? then Fails([], confirm.error + CONFIRM_HINT)
      else if !a.yes && !confirm.value then Says(ctx, Line("Cancelled."))
      else
        match DeleteCalls(id, a, statusPage, trashed, purged)
        case Stopped(calls, e) => Fails(calls, e)
        case Done(calls) =>
          Run(calls, WriteActionResult(ctx, a.output, (if a.purge then "Purged" else "Deleted") + " page " + id,
                JObj(map["action" := JStr(action), "deleted" := JBool(true), "id" := JStr(id)]),
                [["Action", action], ["Deleted", "true"], ["ID", id]]), Ok(()))
  }

  function Trash(id: string): Call { Call(DELETE, V2, "/pages/" + id, [], None) }
  function Purge(id: string): Call { Call(DELETE, V2, "/pages/" + id + "?purge=true", [], None) }
  function StatusLookup(id: string): Call { Call(GET, V2, "/pages/" + id, [], None) }

  /** The requests a step sent, and whether it finished or stopped. */
  datatype Sent = Done(calls: seq<Call>) | Stopped(calls: seq<Call>, error: string)

  /** The requests of a confirmed delete, or those sent before it failed. */
  function DeleteCalls(id: string, a: DeleteArgs, statusPage: Result<Json>, trashed: Result<Json>,
                       purged: Result<Json>): Sent {
    if !a.purge then
      if trashed.Err? then Stopped([Trash(id)], trashed.error) else Done([Trash(id)])
    else
      match statusPage
      case Err(e) => Stopped([StatusLookup(id)], e)
      case Ok(page) =>
        var status := GetStr(page, "status").GetOr("current");
        if status != "trashed" && !a.force then
          Stopped([StatusLookup(id)], "Page " + id + " is not trashed. Delete first or use --force to trash then purge.")
        else if status != "trashed" && trashed.Err? then Stopped([StatusLookup(id), Trash(id)], trashed.error)
        else
          var before := if status != "trashed" then [StatusLookup(id), Trash(id)] else [StatusLookup(id)];
          if purged.Err? then Stopped(before + [Purge(id)], purged.error) else Done(before + [Purge(id)])
  }

  /** A plain delete sends the one DELETE. */
  lemma PlainDelete(id: string, a: DeleteArgs, statusPage: Result<Json>, trashed: Result<Json>, purged: Result<Json>)
    requires !a.purge
    ensures trashed.Ok? ==> DeleteCalls(id, a, statusPage, trashed, purged) == Done([Trash(id)])
    ensures trashed.Err? ==> DeleteCalls(id, a, statusPage, trashed, purged) == Stopped([Trash(id)], trashed.error)
  {
  }

  /** Purging a trashed page sends the one purging DELETE; a page not in the
      trash is refused without `--force`, and with it is trashed first. */
  lemma PurgeDecisions(id: string, a: DeleteArgs, page: Json, trashed: Result<Json>, purged: Result<Json>)
    requires a.purge && purged.Ok?
    ensures var r := DeleteCalls(id, a, Ok(page), trashed, purged);
      var status := GetStr(page, "status").GetOr("current");
      (status == "trashed" ==> r == Done([StatusLookup(id), Purge(id)]))
      && (status != "trashed" && !a.force ==>
            r == Stopped([StatusLookup(id)], "Page " + id + " is not trashed. Delete first or use --force to trash then purge."))
      && (status != "trashed" && a.force && trashed.Ok? ==> r == Done([StatusLookup(id), Trash(id), Purge(id)]))
  {
  }

  /** A dry run and a declined prompt delete nothing, and a dry run reports
      `deleted: false`. */
  lemma DeleteDryRunAndDecline(ctx: Ctx, a: DeleteArgs, id: string, confirm: Result<bool>,
                               statusPage: Result<Json>, trashed: Result<Json>, purged: Result<Json>)
    ensures var r := PageDelete(ctx, a, Ok(id), confirm, statusPage, trashed, purged);
      (ctx.dryRun || (!a.yes && confirm != Ok(true)) ==> r.calls == [])
      && (ctx.dryRun && !ctx.quiet && a.output == Some(JsonFormat) ==>
            r.shown == [JsonOut(JObj(map["dryRun" := JBool(true), "action" := JStr(Action(a.purge)),
                                          "deleted" := JBool(false), "id" := JStr(id)]))])
  {
  }
}
