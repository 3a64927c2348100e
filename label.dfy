/**
 * src/commands/label.rs: the CQL query `label pages` sends, the row it shows
 * for each search result, and what `label add` and `label remove` do.
 * `escape_cql_text` here is the same three-pass escaping as in
 * src/commands/search.rs, modelled once as `Cql.EscapeCqlText`.
 */
module Label {
  import opened Wrappers
  import opened Strings
  import opened Json
  import opened Cql
  import opened Helpers

  // ------------------------------------------------------------------ label_cql

  /** The body of a quoted CQL string, its closing quote, and what follows. */
  function Lit(body: string, rest: string): string {
    body + "\"" + rest
  }

  /** The query for a label with a prefix: `label = "<l>"`. */
  function ExactQuery(l: string): string {
    "label = \"" + Lit(l, "")
  }

  /** The last alternative, `, "my:<l>")`. */
  function AltLast(l: string): string {
    ", \"" + Lit("my:" + l, ")")
  }

  /** The later alternatives, `, "team:<l>", "my:<l>")`. */
  function AltLater(l: string): string {
    ", \"" + Lit("team:" + l, AltLast(l))
  }

  /** The query for a label without a prefix: `label in ("<l>", "team:<l>", "my:<l>")`. */
  function AltQuery(l: string): string {
    "label in (\"" + Lit(l, AltLater(l))
  }

  /** `label_cql`: an exact match for a label that names its prefix (has a
      `:`), otherwise the label under no prefix, `team:` and `my:`. */
  function LabelCql(subject: string): (r: string)
    ensures ':' in subject <==> StartsWith(r, "label = \"")
    ensures ':' !in subject ==> StartsWith(r, "label in (\"")
  {
    EscapeKeepsColon(subject);
    var l := EscapeCqlText(subject);
    if ':' in l then ExactQuery(l)
    else
      assert AltQuery(l)[6] == 'i';
      AltQuery(l)
  }

  lemma {:induction false} EachKeepsColon(s: string)
    ensures ':' in EscapeEach(s) <==> ':' in s
    decreases |s|
  {
    if s != [] {
      EachKeepsColon(s[1..]);
      assert s == [s[0]] + s[1..];
      assert ':' in EscapeChar(s[0]) <==> s[0] == ':';
    }
  }

  /** Escaping neither adds nor removes a `:`, so the choice can be read off
      the label as typed. */
  lemma EscapeKeepsColon(s: string)
    ensures ':' in EscapeCqlText(s) <==> ':' in s
  {
    EscapeCharwise(s);
    EachKeepsColon(s);
  }

  /** Text without quotes or backslashes. */
  predicate Plain(p: string) {
    forall i :: 0 <= i < |p| ==> p[i] != '"' && p[i] != '\\'
  }

  lemma PlainPrefixes()
    ensures Plain("team:") && Plain("my:")
  {
  }

  lemma PlainTail(p: string)
    requires Plain(p) && p != []
    ensures Plain(p[1..]) && p[0] != '"' && p[0] != '\\'
  {
    assert forall i :: 0 <= i < |p[1..]| ==> p[1..][i] == p[i + 1];
  }

  /** One character that is neither a quote nor a backslash reads as itself. */
  lemma ReadOnePlain(c: char, t: string, v: string, rest: string)
    requires c != '"' && c != '\\'
    requires ReadLiteral(t) == Some((v, rest))
    ensures ReadLiteral([c] + t) == Some(([c] + v, rest))
  {
    assert ([c] + t)[0] == c;
    assert ([c] + t)[1..] == t;
  }

  /** Text without quotes or backslashes reads through unchanged. */
  lemma {:induction false} ReadPlainPrefix(p: string, t: string, v: string, rest: string)
    requires Plain(p)
    requires ReadLiteral(t) == Some((v, rest))
    ensures ReadLiteral(p + t) == Some((p + v, rest))
    decreases |p|
  {
    if p == [] {
      assert p + t == t && p + v == v;
    } else {
      PlainTail(p);
      ReadPlainPrefix(p[1..], t, v, rest);
      ReadOnePlain(p[0], p[1..] + t, p[1..] + v, rest);
      assert p + t == [p[0]] + (p[1..] + t);
      assert p + v == [p[0]] + (p[1..] + v);
    }
  }

  lemma DropPrefix(p: string, x: string)
    ensures (p + x)[|p|..] == x
  {
  }

  lemma LitPrefix(p: string, l: string, rest: string)
    ensures Lit(p + l, rest) == p + Lit(l, rest)
  {
  }

  /** A label with a `:` gives `label = "<l>"`, whose one quoted string reads
      back as the label and closes at the end of the query. */
  lemma LabelCqlExact(subject: string)
    requires ':' in subject
    ensures LabelCql(subject) == "label = \"" + EscapeCqlText(subject) + "\""
    ensures ReadLiteral(LabelCql(subject)[9..]) == Some((Blank(subject), ""))
  {
    EscapeKeepsColon(subject);
    var l := EscapeCqlText(subject);
    EscapeReadsBack(subject, "");
    DropPrefix("label = \"", Lit(l, ""));
  }

  /** The alternative after the first: `team:` and the label, read back whole. */
  lemma ReadsTeam(subject: string)
    ensures ReadLiteral(AltLater(EscapeCqlText(subject))[3..]) == Some(("team:" + Blank(subject), AltLast(EscapeCqlText(subject))))
  {
    var l := EscapeCqlText(subject);
    DropPrefix(", \"", Lit("team:" + l, AltLast(l)));
    LitPrefix("team:", l, AltLast(l));
    EscapeReadsBack(subject, AltLast(l));
    PlainPrefixes();
    ReadPlainPrefix("team:", Lit(l, AltLast(l)), Blank(subject), AltLast(l));
  }

  /** The last alternative: `my:` and the label, then `)`. */
  lemma ReadsMy(subject: string)
    ensures ReadLiteral(AltLast(EscapeCqlText(subject))[3..]) == Some(("my:" + Blank(subject), ")"))
  {
    var l := EscapeCqlText(subject);
    DropPrefix(", \"", Lit("my:" + l, ")"));
    LitPrefix("my:", l, ")");
    EscapeReadsBack(subject, ")");
    PlainPrefixes();
    ReadPlainPrefix("my:", Lit(l, ")"), Blank(subject), ")");
  }

  /** A label without a `:` gives `label in (...)` with three quoted strings:
      the label, `team:` and the label, `my:` and the label, each read back
      whole, in that order, with `)` after the last. */
  lemma LabelCqlAlternatives(subject: string)
    requires ':' !in subject
    ensures LabelCql(subject) == AltQuery(EscapeCqlText(subject))
    ensures var l := EscapeCqlText(subject); var v := Blank(subject);
      ReadLiteral(LabelCql(subject)[11..]) == Some((v, AltLater(l)))
      && ReadLiteral(AltLater(l)[3..]) == Some(("team:" + v, AltLast(l)))
      && ReadLiteral(AltLast(l)[3..]) == Some(("my:" + v, ")"))
  {
    EscapeKeepsColon(subject);
    var l := EscapeCqlText(subject);
    var v := Blank(subject);
    DropPrefix("label in (\"", Lit(l, AltLater(l)));
    EscapeReadsBack(subject, AltLater(l));
    ReadsTeam(subject);
    ReadsMy(subject);
  }

  // ----------------------------------------------------------- label_result_row

  /** The type column of a result without `content`: `type` when the key is
      there (as text, `""` when it is not a string), else `entityType`. */
  function TypeColumn(item: Json): string {
    match Get(item, "type")
    case Some(t) => AsStr(t).GetOr("")
    case None => GetStr(item, "entityType").GetOr("")
  }

  /** `label_result_row`: id, type and title of a search result. */
  function LabelResultRow(item: Json): (row: seq<string>)
    ensures |row| == 3
    ensures Get(item, "content").Some? ==>
      var c := Get(item, "content").value;
      row == [JsonStr(c, "id"), JsonStr(c, "type"), JsonStr(c, "title")]
    ensures Get(item, "content").None? && GetStr(item, "entityType") == Some("space") ==>
      row[1] == "space" && row[2] == GetStr(item, "title").GetOr("")
      && (match GetPath(item, ["space", "key"]) case Some(JStr(k)) => row[0] == k case _ => row[0] == "")
    ensures Get(item, "content").None? && GetStr(item, "entityType") != Some("space") ==>
      row == [JsonStr(item, "id"), TypeColumn(item), JsonStr(item, "title")]
  {
    match Get(item, "content")
    case Some(c) => [JsonStr(c, "id"), JsonStr(c, "type"), JsonStr(c, "title")]
    case None =>
      if GetStr(item, "entityType").GetOr("") == "space" then
        var key := match GetPath(item, ["space", "key"]) case Some(JStr(k)) => k case _ => "";
        [key, "space", GetStr(item, "title").GetOr("")]
      else [JsonStr(item, "id"), TypeColumn(item), JsonStr(item, "title")]
  }

  /** Without `content` and `type`, the type column falls back to `entityType`. */
  lemma TypeFallsBackToEntityType(item: Json, e: string)
    requires Get(item, "content").None? && Get(item, "type").None?
    requires GetStr(item, "entityType") == Some(e) && e != "space"
    ensures LabelResultRow(item)[1] == e
  {
  }

  /** A `type` that is present but not a string hides `entityType`: the
      fallback applies only to a missing key. */
  lemma NonStringTypeIsBlank(item: Json, n: int)
    requires Get(item, "content").None? && GetStr(item, "entityType") != Some("space")
    requires Get(item, "type") == Some(JNum(n))
    ensures LabelResultRow(item)[1] == ""
  {
  }

  /** `content` decides the row whatever else the result holds, even when it
      is `null`. */
  lemma NullContentIsBlank(item: Json)
    requires Get(item, "content") == Some(JNull)
    ensures LabelResultRow(item) == ["", "", ""]
  {
  }

  /** The rows `label pages` shows: one per element of `results`, none when
      it is missing or not an array. */
  function LabelPagesRows(json: Json): (rows: seq<seq<string>>)
    ensures match Get(json, "results")
      case Some(JArr(items)) => |rows| == |items| && forall i :: 0 <= i < |items| ==> rows[i] == LabelResultRow(items[i])
      case _ => rows == []
  {
    match Get(json, "results")
    case Some(JArr(items)) => seq(|items|, i requires 0 <= i < |items| => LabelResultRow(items[i]))
    case _ => []
  }

  // ---------------------------------------------------------- label add/remove

  /** The body `label add` posts: one global label. */
  function AddBody(subject: string): Json {
    JArr([JObj(map["prefix" := JStr("global"), "name" := JStr(subject)])])
  }

  /** `label_add`, once the page id is resolved (`pageId`); `posted` is the
      answer to the POST. */
  function LabelAdd(ctx: Ctx, pageId: Result<string>, subject: string, posted: Result<Json>): (r: Run)
    ensures pageId.Err? ==> r == Fails([], pageId.error)
    ensures |r.calls| <= 1 && (r.calls != [] ==> !ctx.dryRun && r.calls[0].verb == POST)
    ensures r.result.Ok? <==> pageId.Ok? && (ctx.dryRun || posted.Ok?)
    ensures ShowsOnlyOnSuccess(r) && (ctx.quiet ==> r.shown == [])
  {
    match pageId
    case Err(e) => Fails([], e)
    case Ok(id) =>
      if ctx.dryRun then Says(ctx, Line("Would add label '" + subject + "' to page " + id))
      else
        var call := Call(POST, V1, "/content/" + id + "/label", [], Some(AddBody(subject)));
        match posted
        case Err(e) => Fails([call], e)
        case Ok(_) => Run([call], Show(ctx, Line("Added label.")), Ok(()))
  }

  /** `label_remove`; `encode` is `urlencoding::encode`, `deleted` the answer
      to the DELETE. */
  function LabelRemove(ctx: Ctx, pageId: Result<string>, subject: string, encode: string -> string,
                       deleted: Result<Json>): (r: Run)
    ensures pageId.Err? ==> r == Fails([], pageId.error)
    ensures |r.calls| <= 1 && (r.calls != [] ==> !ctx.dryRun && r.calls[0].verb == DELETE)
    ensures r.result.Ok? <==> pageId.Ok? && (ctx.dryRun || deleted.Ok?)
    ensures ShowsOnlyOnSuccess(r) && (ctx.quiet ==> r.shown == [])
  {
    match pageId
    case Err(e) => Fails([], e)
    case Ok(id) =>
      if ctx.dryRun then Says(ctx, Line("Would remove label '" + subject + "' from page " + id))
      else
        var call := Call(DELETE, V1, "/content/" + id + "/label?name=" + encode(subject) + "&prefix=global", [], None);
        match deleted
        case Err(e) => Fails([call], e)
        case Ok(_) => Run([call], Show(ctx, Line("Removed label.")), Ok(()))
  }

  /** A dry run sends nothing, succeeds, and shows only the intended action. */
  lemma DryRunSendsNothing(ctx: Ctx, id: string, subject: string, encode: string -> string, answer: Result<Json>)
    requires ctx.dryRun
    ensures var add := LabelAdd(ctx, Ok(id), subject, answer);
      add.calls == [] && add.result.Ok? && add.shown == Show(ctx, Line("Would add label '" + subject + "' to page " + id))
    ensures var rm := LabelRemove(ctx, Ok(id), subject, encode, answer);
      rm.calls == [] && rm.result.Ok? && rm.shown == Show(ctx, Line("Would remove label '" + subject + "' from page " + id))
  {
  }

  /** Otherwise each sends exactly one request to the page's labels, and
      succeeds exactly when that request does. */
  lemma WriteSendsOne(ctx: Ctx, id: string, subject: string, encode: string -> string, answer: Result<Json>)
    requires !ctx.dryRun
    ensures var add := LabelAdd(ctx, Ok(id), subject, answer);
      |add.calls| == 1 && add.calls[0].verb == POST && StartsWith(add.calls[0].path, "/content/" + id + "/label")
      && add.calls[0].body == Some(AddBody(subject)) && (add.result.Ok? <==> answer.Ok?)
    ensures var rm := LabelRemove(ctx, Ok(id), subject, encode, answer);
      |rm.calls| == 1 && rm.calls[0].verb == DELETE && StartsWith(rm.calls[0].path, "/content/" + id + "/label")
      && (rm.result.Ok? <==> answer.Ok?)
  {
  }
}
