/**
 * src/commands/comment.rs: where a comment sits (`comment_location`), the
 * comment it answers (`comment_parent_id`), the query `comment list` sends,
 * the payload `comment add` posts, and the dry-run and confirmation paths of
 * `comment add` and `comment delete`.
 */
module Comment {
  import opened Wrappers
  import opened Strings
  import opened Json
  import opened Paths
  import opened Helpers

  // ----------------------------------------------------------- comment_location

  /** `comment_location`: `extensions.location` when it is a string, else
      `extensions.location.value`, else `""`. */
  function CommentLocation(item: Json): (r: string)
    ensures match GetPath(item, ["extensions", "location"])
      case Some(JStr(s)) => r == s
      case Some(loc) => r == GetStr(loc, "value").GetOr("")
      case None => r == ""
  {
    match GetPath(item, ["extensions", "location"])
    case Some(JStr(s)) => s
    case Some(loc) => GetStr(loc, "value").GetOr("")
    case None => ""
  }

  /** The two shapes the server uses: a plain string, or an object holding
      the location under `value`. */
  lemma LocationShapes(s: string, rest: map<string, Json>)
    ensures CommentLocation(JObj(map["extensions" := JObj(map["location" := JStr(s)])])) == s
    ensures CommentLocation(JObj(map["extensions" := JObj(map["location" := JObj(rest["value" := JStr(s)])])])) == s
  {
  }

  // ---------------------------------------------------------- comment_parent_id

  /** An ancestor that names a parent comment: its type is `comment` in any
      letter case, and it has a string id. */
  predicate NamesComment(a: Json) {
    LowerAscii(GetStr(a, "type").GetOr("")) == "comment" && GetStr(a, "id").Some?
  }

  /** The id of the last ancestor that names a comment. */
  function LastCommentId(ancestors: seq<Json>): Option<string>
    decreases |ancestors|
  {
    if ancestors == [] then None
    else if NamesComment(ancestors[|ancestors| - 1]) then GetStr(ancestors[|ancestors| - 1], "id")
    else LastCommentId(ancestors[..|ancestors| - 1])
  }

  /** An id is found exactly when some ancestor names a comment, and it is the
      id of one that does. */
  lemma {:induction false} LastCommentIdFound(ancestors: seq<Json>)
    ensures LastCommentId(ancestors).None? <==> forall i :: 0 <= i < |ancestors| ==> !NamesComment(ancestors[i])
    ensures LastCommentId(ancestors).Some? ==>
      exists i :: 0 <= i < |ancestors| && NamesComment(ancestors[i]) && GetStr(ancestors[i], "id") == LastCommentId(ancestors)
    decreases |ancestors|
  {
    if ancestors != [] {
      var n := |ancestors| - 1;
      if !NamesComment(ancestors[n]) {
        var init := ancestors[..n];
        LastCommentIdFound(init);
        assert forall i :: 0 <= i < n ==> init[i] == ancestors[i];
        if LastCommentId(init).Some? {
          var i :| 0 <= i < n && NamesComment(init[i]) && GetStr(init[i], "id") == LastCommentId(init);
          assert ancestors[i] == init[i];
        }
      }
    }
  }

  /** No later ancestor names a comment: the one found is the last. */
  lemma {:induction false} LastCommentIdIsLast(ancestors: seq<Json>, i: nat)
    requires i < |ancestors| && NamesComment(ancestors[i])
    requires forall j :: i < j < |ancestors| ==> !NamesComment(ancestors[j])
    ensures LastCommentId(ancestors) == GetStr(ancestors[i], "id")
    decreases |ancestors|
  {
    if i < |ancestors| - 1 {
      var init := ancestors[..|ancestors| - 1];
      assert forall j :: i < j < |init| ==> init[j] == ancestors[j];
      LastCommentIdIsLast(init, i);
    }
  }

  /** What `comment_parent_id` answers: `None` without an `ancestors` array. */
  function ParentIdOf(item: Json): Option<string> {
    match Get(item, "ancestors")
    case Some(JArr(a)) => LastCommentId(a)
    case _ => None
  }

  /** `comment_parent_id`: the loop keeps the id of the last ancestor seen
      that names a comment. */
  method CommentParentId(item: Json) returns (last: Option<string>)
    ensures last == ParentIdOf(item)
  {
    var ancestors: seq<Json>;
    match Get(item, "ancestors") {
      case Some(JArr(a)) => ancestors := a;
      case _ => return None;
    }
    last := None;
    for k := 0 to |ancestors|
      invariant last == LastCommentId(ancestors[..k])
    {
      var a := ancestors[k];
      assert ancestors[..k + 1][..k] == ancestors[..k];
      if LowerAscii(GetStr(a, "type").GetOr("")) == "comment" && GetStr(a, "id").Some? {
        last := GetStr(a, "id");
      }
    }
    assert ancestors[..|ancestors|] == ancestors;
  }

  // ------------------------------------------------------------- comment_list

  const DEFAULT_EXPAND: string := "history,extensions,ancestors"

  /** The non-empty images of the pieces under `f`, in order. */
  function Kept(pieces: seq<string>, f: string -> string): seq<string>
    decreases |pieces|
  {
    if pieces == [] then []
    else (if f(pieces[0]) == [] then [] else [f(pieces[0])]) + Kept(pieces[1..], f)
  }

  /** The values of `--location`: split on `,`, trimmed, empties dropped. */
  function LocationValues(location: string): seq<string> {
    Kept(Split(location, ','), Trim)
  }

  /** What is kept is not empty and is a fixed point of `f` when `f` is
      idempotent on the pieces; nothing is added. */
  lemma {:induction false} KeptClean(pieces: seq<string>, f: string -> string)
    requires forall j :: 0 <= j < |pieces| ==> f(f(pieces[j])) == f(pieces[j])
    ensures |Kept(pieces, f)| <= |pieces|
    ensures forall i :: 0 <= i < |Kept(pieces, f)| ==> Kept(pieces, f)[i] != [] && f(Kept(pieces, f)[i]) == Kept(pieces, f)[i]
    decreases |pieces|
  {
    if pieces != [] {
      assert forall j :: 0 <= j < |pieces[1..]| ==> pieces[1..][j] == pieces[j + 1];
      KeptClean(pieces[1..], f);
    }
  }

  /** Each location value is trimmed and not empty. */
  lemma LocationValuesTrimmed(location: string)
    ensures forall i :: 0 <= i < |LocationValues(location)| ==>
      LocationValues(location)[i] != [] && Trim(LocationValues(location)[i]) == LocationValues(location)[i]
  {
    var pieces := Split(location, ',');
    forall j | 0 <= j < |pieces| ensures Trim(Trim(pieces[j])) == Trim(pieces[j]) {
      TrimIdempotent(pieces[j]);
    }
    KeptClean(pieces, Trim);
  }

  lemma {:induction false} KeptKeeps(vs: seq<string>, f: string -> string)
    requires forall i :: 0 <= i < |vs| ==> vs[i] != [] && f(vs[i]) == vs[i]
    ensures Kept(vs, f) == vs
    decreases |vs|
  {
    if vs != [] {
      assert forall i :: 0 <= i < |vs[1..]| ==> vs[1..][i] == vs[i + 1];
      KeptKeeps(vs[1..], f);
    }
  }

  /** Values that are trimmed, non-empty and free of commas come back from a
      comma-joined `--location` exactly. */
  lemma LocationValuesRoundTrip(vs: seq<string>)
    requires |vs| >= 1
    requires forall i :: 0 <= i < |vs| ==> vs[i] != [] && Trim(vs[i]) == vs[i] && ',' !in vs[i]
    ensures LocationValues(Join(vs, ",")) == vs
  {
    assert [','] == ",";
    SplitJoin(vs, ',');
    KeptKeeps(vs, Trim);
  }

  /** One pair per value, all under `key`. */
  function Keyed(key: string, values: seq<string>): seq<(string, string)>
    decreases |values|
  {
    if values == [] then [] else [(key, values[0])] + Keyed(key, values[1..])
  }

  lemma {:induction false} KeyedShape(key: string, values: seq<string>)
    ensures |Keyed(key, values)| == |values|
    ensures forall i :: 0 <= i < |values| ==> Keyed(key, values)[i] == (key, values[i])
    decreases |values|
  {
    if values != [] {
      KeyedShape(key, values[1..]);
    }
  }

  /** The query pairs of `comment list`: the limit, the expansions (a small
      default), then one `location` pair per location value. */
  function ListPairs(limit: nat, expand: Option<string>, location: Option<string>): seq<(string, string)> {
    [("limit", NatToString(limit)), ("expand", expand.GetOr(DEFAULT_EXPAND))]
      + (if location.Some? then Keyed("location", LocationValues(location.value)) else [])
  }

  lemma {:induction false} KeptSnoc(pieces: seq<string>, x: string, f: string -> string)
    ensures Kept(pieces + [x], f) == Kept(pieces, f) + (if f(x) == [] then [] else [f(x)])
    decreases |pieces|
  {
    if pieces == [] {
      assert [x][1..] == [];
    } else {
      assert (pieces + [x])[1..] == pieces[1..] + [x];
      KeptSnoc(pieces[1..], x, f);
    }
  }

  /** One more piece adds at most its one pair. */
  lemma LocationStep(pieces: seq<string>, k: nat)
    requires k < |pieces|
    ensures Keyed("location", Kept(pieces[..k + 1], Trim))
      == Keyed("location", Kept(pieces[..k], Trim)) + (if Trim(pieces[k]) == [] then [] else [("location", Trim(pieces[k]))])
  {
    assert pieces[..k + 1] == pieces[..k] + [pieces[k]];
    KeptSnoc(pieces[..k], pieces[k], Trim);
    KeyedAppend("location", Kept(pieces[..k], Trim), if Trim(pieces[k]) == [] then [] else [Trim(pieces[k])]);
  }

  lemma {:induction false} KeyedAppend(key: string, a: seq<string>, b: seq<string>)
    ensures Keyed(key, a + b) == Keyed(key, a) + Keyed(key, b)
    decreases |a|
  {
    if a == [] {
      assert a + b == b;
    } else {
      assert (a + b)[1..] == a[1..] + b;
      KeyedAppend(key, a[1..], b);
    }
  }

  /** The loop of `comment_list` over the comma-separated pieces: each
      non-empty trimmed piece is pushed as a `location` pair. */
  method PushLocations(pairs: seq<(string, string)>, pieces: seq<string>) returns (out: seq<(string, string)>)
    ensures out == pairs + Keyed("location", Kept(pieces, Trim))
  {
    out := pairs;
    for k := 0 to |pieces|
      invariant out == pairs + Keyed("location", Kept(pieces[..k], Trim))
    {
      LocationStep(pieces, k);
      var value := Trim(pieces[k]);
      ghost var extra := if value == [] then [] else [("location", value)];
      Regroup(pairs, Keyed("location", Kept(pieces[..k], Trim)), extra);
      if value != [] {
        out := out + [("location", value)];
      } else {
        assert out + extra == out;
      }
    }
    assert pieces[..|pieces|] == pieces;
  }

  lemma Regroup<T>(a: seq<T>, b: seq<T>, c: seq<T>)
    ensures (a + b) + c == a + (b + c)
  {
  }

  /** The query pairs `comment_list` builds. */
  method BuildListPairs(limit: nat, expand: Option<string>, location: Option<string>)
    returns (pairs: seq<(string, string)>)
    ensures pairs == ListPairs(limit, expand, location)
  {
    pairs := [("limit", NatToString(limit)), ("expand", expand.GetOr(DEFAULT_EXPAND))];
    if location.Some? {
      pairs := PushLocations(pairs, Split(location.value, ','));
    }
  }

  /** The limit and the expansions come first, and each location value is
      sent, in order, under `location`. */
  lemma ListPairsShape(limit: nat, expand: Option<string>, location: string)
    ensures var p := ListPairs(limit, expand, Some(location));
      var vs := LocationValues(location);
      |p| == 2 + |vs| && p[0] == ("limit", NatToString(limit)) && p[1] == ("expand", expand.GetOr(DEFAULT_EXPAND))
      && forall i :: 0 <= i < |vs| ==> p[2 + i] == ("location", vs[i])
  {
    KeyedShape("location", LocationValues(location));
  }

  /** The request `comment list` starts its paging with. */
  function ListRequest(pageId: string, limit: nat, expand: Option<string>, location: Option<string>): Call {
    Call(GET, V1, "/content/" + pageId + "/descendant/comment", ListPairs(limit, expand, location), None)
  }

  /** One table row: id, location, author, creation time and parent;
      `formatTimestamp` is `format_timestamp`, which is not part of this model. */
  function CommentRow(item: Json, formatTimestamp: string -> string): (row: seq<string>)
    ensures |row| == 5 && row[0] == JsonStr(item, "id") && row[1] == CommentLocation(item)
    ensures row[4] == ParentIdOf(item).GetOr("")
  {
    var created := match GetPath(item, ["history", "createdDate"]) case Some(JStr(d)) => formatTimestamp(d) case _ => "";
    var author := match GetPath(item, ["history", "createdBy", "displayName"]) case Some(JStr(a)) => a case _ => "";
    [JsonStr(item, "id"), CommentLocation(item), author, created, ParentIdOf(item).GetOr("")]
  }

  const LIST_HEADERS: seq<string> := ["ID", "Location", "Author", "Created", "Parent"]

  /** `comment_list` once the page is resolved; `fetched` is what the paging
      from the first request returns, all pages or the first. */
  function CommentList(ctx: Ctx, pageId: Result<string>, limit: nat, expand: Option<string>,
                       location: Option<string>, output: Format, fetched: Result<seq<Json>>,
                       formatTimestamp: string -> string): (r: Run)
    ensures pageId.Err? ==> r == Fails([], pageId.error)
    ensures |r.calls| <= 1 && ReadsOnly(r) && ShowsOnlyOnSuccess(r)
    ensures r.result.Ok? <==> pageId.Ok? && fetched.Ok?
    ensures ctx.quiet ==> r.shown == []
  {
    match pageId
    case Err(e) => Fails([], e)
    case Ok(id) =>
      var call := ListRequest(id, limit, expand, location);
      match fetched
      case Err(e) => Fails([call], e)
      case Ok(items) =>
        var shown := if output == JsonFormat then Show(ctx, JsonOut(JArr(items)))
                     else Show(ctx, Rows(LIST_HEADERS, seq(|items|, i requires 0 <= i < |items| => CommentRow(items[i], formatTimestamp))));
        Run([call], shown, Ok(()))
  }

  /** One request to the page's comment descendants; the rows follow the
      items one for one. */
  lemma ListShowsEachComment(ctx: Ctx, id: string, limit: nat, expand: Option<string>, location: Option<string>,
                             output: Format, items: seq<Json>, formatTimestamp: string -> string)
    requires !ctx.quiet && output != JsonFormat
    ensures var r := CommentList(ctx, Ok(id), limit, expand, location, output, Ok(items), formatTimestamp);
      r.calls == [Call(GET, V1, "/content/" + id + "/descendant/comment", ListPairs(limit, expand, location), None)]
      && |r.shown| == 1 && r.shown[0].Rows? && r.shown[0].headers == LIST_HEADERS
      && |r.shown[0].rows| == |items|
      && forall i :: 0 <= i < |items| ==>
           (r.shown[0].rows[i][0] == JsonStr(items[i], "id") && r.shown[0].rows[i][4] == ParentIdOf(items[i]).GetOr(""))
  {
  }

  // -------------------------------------------------------------- comment_add

  /** The `extensions` map: a non-blank `--location`, the inline properties,
      and `inline` as the location when properties come without one. */
  function Extensions(location: Option<string>, inline: Option<Json>): (ext: map<string, Json>)
    ensures location.Some? && Trim(location.value) != [] ==> "location" in ext && ext["location"] == JStr(location.value)
    ensures !(location.Some? && Trim(location.value) != []) ==>
      ("location" in ext <==> inline.Some?) && (inline.Some? ==> ext["location"] == JStr("inline"))
    ensures ("inlineProperties" in ext <==> inline.Some?) && (inline.Some? ==> ext["inlineProperties"] == inline.value)
    ensures ext.Keys <= {"location", "inlineProperties"}
  {
    var withLocation := if location.Some? && Trim(location.value) != [] then map["location" := JStr(location.value)] else map[];
    if inline.None? then withLocation
    else
      var withInline := withLocation["inlineProperties" := inline.value];
      if "location" in withInline then withInline else withInline["location" := JStr("inline")]
  }

  /** The payload's keys are distinct strings. */
  lemma KeysDiffer()
    ensures "type" != "container" && "type" != "body" && "container" != "body"
    ensures "ancestors" != "type" && "ancestors" != "container" && "ancestors" != "body"
    ensures "extensions" != "type" && "extensions" != "container" && "extensions" != "body" && "extensions" != "ancestors"
  {
    assert "type"[0] != "body"[0];
    assert "container"[0] != "ancestors"[0];
  }

  /** The fields every comment payload has: the type, the page it belongs to
      and the storage body. */
  function BaseFields(pageId: string, storage: string): map<string, Json> {
    map[
      "type" := JStr("comment"),
      "container" := JObj(map["id" := JStr(pageId), "type" := JStr("page")]),
      "body" := JObj(map["storage" := JObj(map["value" := JStr(storage), "representation" := JStr("storage")])])]
  }

  function ParentFields(base: map<string, Json>, parent: Option<string>): map<string, Json> {
    if parent.Some? then base["ancestors" := JArr([JObj(map["id" := JStr(parent.value)])])] else base
  }

  /** The payload `comment add` posts, with `ext` as its extensions. */
  function CommentPayload(pageId: string, storage: string, parent: Option<string>, ext: map<string, Json>): Json {
    var withParent := ParentFields(BaseFields(pageId, storage), parent);
    JObj(if ext != map[] then withParent["extensions" := JObj(ext)] else withParent)
  }

  /** The three base fields survive the parent and the extensions. */
  lemma PayloadKeepsBase(pageId: string, storage: string, parent: Option<string>, ext: map<string, Json>)
    ensures var all := CommentPayload(pageId, storage, parent, ext).fields;
      forall k :: k in BaseFields(pageId, storage) ==> k in all && all[k] == BaseFields(pageId, storage)[k]
  {
    KeysDiffer();
    var b := BaseFields(pageId, storage);
    assert b.Keys == {"type", "container", "body"};
  }

  /** The payload is a comment on the page. */
  lemma PayloadNamesPage(pageId: string, storage: string, parent: Option<string>, ext: map<string, Json>)
    ensures var p := CommentPayload(pageId, storage, parent, ext);
      Get(p, "type") == Some(JStr("comment")) && GetPath(p, ["container", "id"]) == Some(JStr(pageId))
  {
    PayloadKeepsBase(pageId, storage, parent, ext);
    assert "container" in BaseFields(pageId, storage) && "type" in BaseFields(pageId, storage);
    var path := ["container", "id"];
    assert path[0] == "container" && path[1..] == ["id"] && path[1..][1..] == [];
  }

  /** The payload carries the body in storage representation. */
  lemma PayloadBody(pageId: string, storage: string, parent: Option<string>, ext: map<string, Json>)
    ensures GetPath(CommentPayload(pageId, storage, parent, ext), ["body", "storage", "value"]) == Some(JStr(storage))
  {
    PayloadKeepsBase(pageId, storage, parent, ext);
    assert "body" in BaseFields(pageId, storage);
    var path := ["body", "storage", "value"];
    assert path[1..] == ["storage", "value"] && path[1..][1..] == ["value"] && path[1..][1..][1..] == [];
  }

  /** `ancestors` is there exactly when a parent is given, and names it. */
  lemma PayloadAncestors(pageId: string, storage: string, parent: Option<string>, ext: map<string, Json>)
    ensures var p := CommentPayload(pageId, storage, parent, ext);
      (Get(p, "ancestors").Some? <==> parent.Some?)
      && (parent.Some? ==> Get(p, "ancestors") == Some(JArr([JObj(map["id" := JStr(parent.value)])])))
  {
    KeysDiffer();
    assert "ancestors" !in BaseFields(pageId, storage);
  }

  /** `extensions` is there exactly when the map is not empty, and holds it. */
  lemma PayloadExtensions(pageId: string, storage: string, parent: Option<string>, ext: map<string, Json>)
    ensures var p := CommentPayload(pageId, storage, parent, ext);
      (Get(p, "extensions").Some? <==> ext != map[])
      && (ext != map[] ==> Get(p, "extensions") == Some(JObj(ext)))
  {
    KeysDiffer();
    assert "extensions" !in ParentFields(BaseFields(pageId, storage), parent);
  }

  /** The extensions are not empty exactly when a non-blank location or inline
      properties are given. */
  lemma ExtensionsPresent(location: Option<string>, inline: Option<Json>)
    ensures Extensions(location, inline) != map[] <==> (location.Some? && Trim(location.value) != []) || inline.Some?
  {
    var ext := Extensions(location, inline);
    if inline.Some? {
      assert "inlineProperties" in ext;
    } else if location.Some? && Trim(location.value) != [] {
      assert "location" in ext;
    }
  }

  /** `comment_add` mutates its payload in place: the ancestors, then the
      extensions map key by key. */
  method BuildPayload(pageId: string, storage: string, parent: Option<string>,
                      location: Option<string>, inline: Option<Json>) returns (payload: Json)
    ensures payload == CommentPayload(pageId, storage, parent, Extensions(location, inline))
  {
    var fields := BaseFields(pageId, storage);
    if parent.Some? {
      fields := fields["ancestors" := JArr([JObj(map["id" := JStr(parent.value)])])];
    }
    var extensions: map<string, Json> := map[];
    if location.Some? && Trim(location.value) != [] {
      extensions := extensions["location" := JStr(location.value)];
    }
    if inline.Some? {
      extensions := extensions["inlineProperties" := inline.value];
      if "location" !in extensions {
        extensions := extensions["location" := JStr("inline")];
      }
    }
    if extensions != map[] {
      fields := fields["extensions" := JObj(extensions)];
    }
    payload := JObj(fields);
  }

  /** The storage value for a body format; `toStorage` is
      `markdown_to_storage`, which is not part of this model. */
  function StorageValue(format: string, body: string, toStorage: string -> string): (r: Result<string>)
    ensures LowerAscii(format) == "storage" || LowerAscii(format) == "html" ==> r == Ok(body)
    ensures LowerAscii(format) == "markdown" || LowerAscii(format) == "md" ==> r == Ok(toStorage(body))
    ensures r.Err? <==> LowerAscii(format) !in {"storage", "html", "markdown", "md"}
  {
    var f := LowerAscii(format);
    if f == "storage" || f == "html" then Ok(body)
    else if f == "markdown" || f == "md" then Ok(toStorage(body))
    else Err("Invalid body format: " + format + ". Use storage, html, or markdown.")
  }

  /** The arguments of `comment add`. */
  datatype AddArgs = AddArgs(body: Option<string>, message: Option<string>, bodyFile: Option<Path>,
                             bodyFormat: string, parent: Option<string>, location: Option<string>,
                             inline: Option<string>, output: Format)

  /** What `comment add` meets outside the model: standard input, file reads,
      markdown conversion, JSON parsing of `--inline-properties`. */
  datatype World = World(stdin: Result<string>, readFile: Path -> Result<string>,
                         toStorage: string -> string, parseJson: string -> Option<Json>)

  /** The inline properties, parsed when given. */
  function InlineOf(args: AddArgs, w: World): Result<Option<Json>> {
    match args.inline
    case None => Ok(None)
    case Some(text) =>
      match w.parseJson(text)
      case None => Err("Invalid --inline-properties JSON")
      case Some(v) => Ok(Some(v))
  }

  /** `comment_add` once the page is resolved; `posted` answers the POST. */
  function CommentAdd(ctx: Ctx, pageId: Result<string>, args: AddArgs, w: World, posted: Result<Json>): (r: Run)
    ensures pageId.Err? ==> r == Fails([], pageId.error)
    ensures r.calls != [] ==> !ctx.dryRun && pageId.Ok?
    ensures r.result.Ok? && !ctx.dryRun ==> |r.calls| == 1
    ensures ShowsOnlyOnSuccess(r)
    ensures ctx.quiet ==> r.shown == []
  {
    match pageId
    case Err(e) => Fails([], e)
    case Ok(id) =>
      if ctx.dryRun then Says(ctx, Line("Would add comment on page " + id))
      else
        match ReadBody(args.body.Or(args.message), args.bodyFile, w.stdin, w.readFile)
        case Err(e) => Fails([], e)
        case Ok(body) =>
          match StorageValue(args.bodyFormat, body, w.toStorage)
          case Err(e) => Fails([], e)
          case Ok(storage) =>
            match InlineOf(args, w)
            case Err(e) => Fails([], e)
            case Ok(inline) =>
              var call := Call(POST, V1, "/content", [], Some(CommentPayload(id, storage, args.parent, Extensions(args.location, inline))));
              match posted
              case Err(e) => Fails([call], e)
              case Ok(result) =>
                Run([call], ShowAs(ctx, args.output, result,
                    [["ID", JsonStr(result, "id")], ["Status", JsonStr(result, "status")]]), Ok(()))
  }

  /** A dry run posts nothing; otherwise at most the one POST goes out, and
      only after the body, format and properties are all accepted. */
  lemma AddRequests(ctx: Ctx, id: string, args: AddArgs, w: World, posted: Result<Json>)
    ensures ctx.dryRun ==> CommentAdd(ctx, Ok(id), args, w, posted).calls == []
    ensures var r := CommentAdd(ctx, Ok(id), args, w, posted);
      var body := ReadBody(args.body.Or(args.message), args.bodyFile, w.stdin, w.readFile);
      |r.calls| <= 1
      && (|r.calls| == 1 ==>
            r.calls[0].verb == POST && r.calls[0].path == "/content" && body.Ok?
            && StorageValue(args.bodyFormat, body.value, w.toStorage).Ok? && InlineOf(args, w).Ok?)
  {
  }

  // ----------------------------------------------------------- comment_delete

  /** `comment_delete`; `output` is `--output` when given, `confirm` the
      answer to the prompt (asked only without `--yes`), `deleted` the answer
      to the DELETE. */
  function CommentDelete(ctx: Ctx, commentId: string, output: Option<Format>, yes: bool,
                         confirm: Result<bool>, deleted: Result<Json>): (r: Run)
    ensures |r.calls| <= 1 && ShowsOnlyOnSuccess(r)
    ensures r.result.Err? ==> !ctx.dryRun && ((!yes && confirm.Err?) || deleted.Err?)
    ensures ctx.quiet ==> r.shown == []
  {
    if ctx.dryRun then
      match output
      case Some(fmt) =>
        Run([], ShowAs(ctx, fmt, JObj(map["dryRun" := JBool(true), "deleted" := JBool(false), "id" := JStr(commentId)]),
                       [["DryRun", "true"], ["Deleted", "false"], ["ID", commentId]]), Ok(()))
      case None => Says(ctx, Line("Would delete comment " + commentId))
    else if !yes && confirm.Err? then
      Fails([], confirm.error + ". Use --yes to skip confirmation in non-interactive shells.")
    else if !yes && !confirm.value then Says(ctx, Line("Cancelled."))
    else
      var call := Call(DELETE, V1, "/content/" + commentId, [], None);
      match deleted
      case Err(e) => Fails([call], e)
      case Ok(_) =>
        match output
        case Some(fmt) =>
          Run([call], ShowAs(ctx, fmt, JObj(map["deleted" := JBool(true), "id" := JStr(commentId)]),
                             [["Deleted", "true"], ["ID", commentId]]), Ok(()))
        case None => Run([call], Show(ctx, Line("Deleted comment " + commentId)), Ok(()))
  }

  /** Nothing is deleted on a dry run or when the prompt is declined; otherwise
      exactly the one DELETE of that comment goes out. */
  lemma DeleteRequests(ctx: Ctx, commentId: string, output: Option<Format>, yes: bool,
                       confirm: Result<bool>, deleted: Result<Json>)
    ensures var r := CommentDelete(ctx, commentId, output, yes, confirm, deleted);
      (r.calls != [] <==> !ctx.dryRun && (yes || confirm == Ok(true)))
      && (r.calls != [] ==> r.calls == [Call(DELETE, V1, "/content/" + commentId, [], None)])
      && (ctx.dryRun ==> r.result.Ok?)
  {
    var r := CommentDelete(ctx, commentId, output, yes, confirm, deleted);
    if ctx.dryRun {
      assert r.calls == [] && r.result.Ok?;
    } else if !yes && confirm.Err? {
      assert r.calls == [];
    } else if !yes && !confirm.value {
      assert r.calls == [];
    } else {
      assert r.calls == [Call(DELETE, V1, "/content/" + commentId, [], None)];
    }
  }
}
