/**
 * src/commands/export.rs: `confcli export` writes one page into a folder
 * `<dest>/<sanitised title>--<page id>/`: a `meta.json`, the body in the
 * chosen format, and (unless `--skip-attachments`) the attachments whose
 * titles match `--pattern` under `attachments/`.
 *
 * The page, the answers and the downloads are oracles. Writing a file is a
 * pair of path and contents and is taken to succeed. The downloads are
 * modelled one after another, in selection order, which is how they run with
 * `--concurrency 1` (the default is 4): each free-name search sees the files
 * written before it. The model uses the
 * corrected attachment naming of `Target` (see `TargetAsWritten`).
 */
module Export {
  import opened Wrappers
  import opened Strings
  import opened Json
  import opened Paths
  import opened Helpers
  import Download
  import Pattern
  import Urls
  import Markdown
  import Listing

  // ------------------------------------------------------------------ format

  datatype ExportKind = MarkdownExport | StorageExport | AdfExport

  /** The dispatch on the lowercased `--format`. */
  function ExportKindOf(format: string): (r: Result<ExportKind>)
    ensures r == Ok(MarkdownExport) <==> LowerAscii(format) in {"md", "markdown"}
    ensures r == Ok(StorageExport) <==> LowerAscii(format) == "storage"
    ensures r == Ok(AdfExport) <==> LowerAscii(format) in {"adf", "atlas_doc_format"}
    ensures r.Err? ==> r.error == "Invalid --format: " + format + ". Use md, storage, or adf."
  {
    var f := LowerAscii(format);
    if f == "md" || f == "markdown" then Ok(MarkdownExport)
    else if f == "storage" then Ok(StorageExport)
    else if f == "adf" || f == "atlas_doc_format" then Ok(AdfExport)
    else Err("Invalid --format: " + format + ". Use md, storage, or adf.")
  }

  /** The body representation fetched for each kind: markdown is made from the view. */
  function Representation(k: ExportKind): string {
    match k
    case MarkdownExport => "view"
    case StorageExport => "storage"
    case AdfExport => "atlas_doc_format"
  }

  /** The name of the content file in the page folder. */
  function ContentFile(k: ExportKind): string {
    match k
    case MarkdownExport => "page.md"
    case StorageExport => "page.storage.html"
    case AdfExport => "page.adf.json"
  }

  /** Every format export accepts is one `page body` accepts too, and both
      fetch the same representation for it. */
  lemma ExportFormatsAreBodyFormats(format: string)
    requires ExportKindOf(format).Ok?
    ensures Listing.BodyKindOf(format).Ok?
    ensures Listing.Representation(Listing.BodyKindOf(format).value) == Representation(ExportKindOf(format).value)
  {
  }

  /** The content of the body file: the markdown conversion (empty list items
      dropped), the storage text as is, or the ADF pretty-printed when it
      parses as JSON and as is otherwise. */
  function Content(k: ExportKind, body: string, convert: string -> Result<string>,
                   parse: string -> Option<Json>, pretty: Json -> string): Result<string> {
    match k
    case MarkdownExport => Markdown.HtmlToMarkdown(body, false, convert)
    case StorageExport => Ok(body)
    case AdfExport => Ok(Reformat(body, parse, pretty))
  }

  // ------------------------------------------------------------------ layout

  /** `format!("{}--{}", sanitize_filename(title), page_id)` */
  function FolderName(title: string, pageId: string): string {
    Download.Sanitized(title) + "--" + pageId
  }

  /** A name without `/` that is neither empty nor `.` is one path component. */
  lemma OneComponent(s: string)
    requires '/' !in s && s != "" && s != "."
    ensures Components(s) == [s]
  {
    assert Split(s, '/') == [s];
    assert [s][1..] == [];
    assert Keep([s]) == [s] + Keep([]);
  }

  /** A name that is one component other than `..`. */
  predicate Plain(name: string) {
    '/' !in name && name != "" && name != "." && name != ".."
  }

  /** `p.join(name)` for one plain name: `p` with the name appended. */
  lemma JoinOne(p: Path, name: string)
    requires Plain(name)
    ensures JoinName(p, name) == Path(p.absolute, p.parts + [name])
    ensures Parent(JoinName(p, name)) == Some(p)
    ensures FileName(JoinName(p, name)) == Some(name)
  {
    OneComponent(name);
    var q := p.parts + [name];
    assert q[..|q| - 1] == p.parts;
  }

  lemma SanitizedNoSlash(title: string)
    ensures '/' !in Download.Sanitized(title)
  {
    var t := Download.Sanitized(title);
    Download.SanitizedSafe(title);
    forall i | 0 <= i < |t| ensures t[i] != '/' {
      assert Download.SafeChar(t[i]);
    }
  }

  /** The folder name keeps the sanitised title and the page id apart: the
      title part has no slash or control character, and the id follows it
      after `--`. */
  lemma FolderNameParts(title: string, pageId: string)
    ensures var f := FolderName(title, pageId);
      f[..|f| - |pageId| - 2] == Download.Sanitized(title) && f[|f| - |pageId| - 2..] == "--" + pageId
      && Download.AllSafe(Download.Sanitized(title))
  {
    Download.SanitizedSafe(title);
    SeparatedBy(Download.Sanitized(title), "--", pageId);
  }

  lemma SeparatedBy(a: string, sep: string, b: string)
    ensures var f := a + sep + b; f[..|f| - |b| - |sep|] == a && f[|f| - |b| - |sep|..] == sep + b
  {
  }

  /** With a page id that has no slash, the folder is one new directory
      directly under the destination. */
  lemma FolderDirectory(dest: Path, title: string, pageId: string)
    requires '/' !in pageId
    ensures JoinName(dest, FolderName(title, pageId)) == Path(dest.absolute, dest.parts + [FolderName(title, pageId)])
  {
    SanitizedNoSlash(title);
    DashedPlain(Download.Sanitized(title), pageId);
    JoinOne(dest, FolderName(title, pageId));
  }

  lemma DashedPlain(a: string, b: string)
    requires '/' !in a && '/' !in b
    ensures Plain(a + "--" + b)
  {
    var f := a + "--" + b;
    assert f[|a|] == '-' && f[|a| + 1] == '-';
  }

  /** Where the export writes: the page folder, its `meta.json`, the
      content file and the attachments directory. */
  datatype Layout = Layout(outDir: Path, metaPath: Path, contentPath: Path, attachmentsDir: Path)

  function LayoutOf(dest: Path, title: string, pageId: string, k: ExportKind): (l: Layout) {
    var outDir := JoinName(dest, FolderName(title, pageId));
    Layout(outDir, JoinName(outDir, "meta.json"), JoinName(outDir, ContentFile(k)), JoinName(outDir, "attachments"))
  }

  /** The three names inside the folder are distinct entries of it. */
  lemma LayoutEntries(dest: Path, title: string, pageId: string, k: ExportKind)
    ensures var l := LayoutOf(dest, title, pageId, k);
      Parent(l.metaPath) == Some(l.outDir) && Parent(l.contentPath) == Some(l.outDir)
      && Parent(l.attachmentsDir) == Some(l.outDir)
      && FileName(l.metaPath) == Some("meta.json") && FileName(l.contentPath) == Some(ContentFile(k))
      && FileName(l.attachmentsDir) == Some("attachments")
      && l.metaPath != l.contentPath && l.contentPath != l.attachmentsDir && l.metaPath != l.attachmentsDir
  {
    var l := LayoutOf(dest, title, pageId, k);
    EntriesOf(l.outDir, k);
  }

  lemma EntriesOf(dir: Path, k: ExportKind)
    ensures var m, c, a := JoinName(dir, "meta.json"), JoinName(dir, ContentFile(k)), JoinName(dir, "attachments");
      Parent(m) == Some(dir) && Parent(c) == Some(dir) && Parent(a) == Some(dir)
      && FileName(m) == Some("meta.json") && FileName(c) == Some(ContentFile(k)) && FileName(a) == Some("attachments")
      && m != c && c != a && m != a
  {
    PlainNames(k);
    Siblings(dir, "meta.json", ContentFile(k));
    Siblings(dir, ContentFile(k), "attachments");
    Siblings(dir, "meta.json", "attachments");
  }

  lemma PlainNames(k: ExportKind)
    ensures Plain("meta.json") && Plain("attachments") && Plain(ContentFile(k))
    ensures "meta.json" != ContentFile(k) && "attachments" != ContentFile(k) && "meta.json" != "attachments"
  {
    assert "meta.json"[0] == 'm' && "attachments"[0] == 'a' && ContentFile(k)[0] == 'p';
  }

  /** Two different plain names joined onto one directory are two entries of it. */
  lemma Siblings(dir: Path, x: string, y: string)
    requires Plain(x) && Plain(y) && x != y
    ensures Parent(JoinName(dir, x)) == Some(dir) && Parent(JoinName(dir, y)) == Some(dir)
    ensures FileName(JoinName(dir, x)) == Some(x) && FileName(JoinName(dir, y)) == Some(y)
    ensures JoinName(dir, x) != JoinName(dir, y)
  {
    JoinOne(dir, x);
    JoinOne(dir, y);
    assert JoinName(dir, x).parts[|dir.parts|] == x;
    assert JoinName(dir, y).parts[|dir.parts|] == y;
  }

  /** The space key in `meta.json`: looked up only when the page names a
      space, and `""` when the lookup fails. */
  function MetaSpaceKey(spaceId: string, lookup: Result<string>): (r: string)
    ensures spaceId == "" ==> r == ""
    ensures spaceId != "" && lookup.Ok? ==> r == lookup.value
    ensures spaceId != "" && lookup.Err? ==> r == ""
  {
    if spaceId != "" then (if lookup.Ok? then lookup.value else "") else ""
  }

  function Meta(pageId: string, page: Json, siteUrl: string, lookup: Result<string>): Json {
    var spaceId := JsonStr(page, "spaceId");
    JObj(map["id" := JStr(pageId), "title" := JStr(JsonStr(page, "title")), "spaceId" := JStr(spaceId),
             "spaceKey" := JStr(MetaSpaceKey(spaceId, lookup)), "siteUrl" := JStr(siteUrl)])
  }

  // --------------------------------------------------------------- selection

  function TitleOf(item: Json): string {
    GetStr(item, "title").GetOr("")
  }

  /** `args.pattern.map(glob_to_regex).transpose()`: `glob_to_regex` of this
      file is the translation and error text of `Pattern.GlobToRegexCi`. */
  function Matcher(pattern: Option<string>, compile: string -> Option<string>): (r: Result<Option<Pattern.Regex>>)
    ensures pattern.None? ==> r == Ok(None)
    ensures pattern.Some? ==> (r.Ok? <==> compile(Pattern.Translate(pattern.value)).None?)
    ensures pattern.Some? && r.Ok? ==> r.value == Some(Pattern.Regex(Pattern.Translate(pattern.value)))
    ensures pattern.Some? && r.Err? ==>
      r.error == "Invalid glob pattern: " + compile(Pattern.Translate(pattern.value)).value
  {
    match pattern
    case None => Ok(None)
    case Some(glob) =>
      match Pattern.GlobToRegexCi(glob, compile)
      case Ok(re) => Ok(Some(re))
      case Err(e) => Err(e)
  }

  /** The filter: every attachment without a pattern, otherwise those whose
      title (`""` when missing) the pattern matches. */
  predicate Selects(m: Option<Pattern.Regex>, item: Json) {
    m.None? || Pattern.IsMatch(m.value, TitleOf(item))
  }

  function Selected(items: seq<Json>, m: Option<Pattern.Regex>): (r: seq<Json>)
    ensures |r| <= |items|
    ensures forall x :: x in r ==> x in items
    decreases |items|
  {
    if items == [] then []
    else (if Selects(m, items[0]) then [items[0]] else []) + Selected(items[1..], m)
  }

  /** Selection keeps the listing order: it works item by item. */
  lemma {:induction false} SelectedAppend(a: seq<Json>, b: seq<Json>, m: Option<Pattern.Regex>)
    ensures Selected(a + b, m) == Selected(a, m) + Selected(b, m)
    decreases |a|
  {
    if a == [] {
      assert a + b == b;
    } else {
      assert (a + b)[0] == a[0] && (a + b)[1..] == a[1..] + b;
      SelectedAppend(a[1..], b, m);
      var h := if Selects(m, a[0]) then [a[0]] else [];
      assert h + (Selected(a[1..], m) + Selected(b, m)) == (h + Selected(a[1..], m)) + Selected(b, m);
    }
  }

  /** Only attachments the filter accepts are selected. */
  lemma {:induction false} SelectedOnly(items: seq<Json>, m: Option<Pattern.Regex>, x: Json)
    requires x in Selected(items, m)
    ensures Selects(m, x)
    decreases |items|
  {
    if !(Selects(m, items[0]) && x == items[0]) {
      SelectedOnly(items[1..], m, x);
    }
  }

  /** Without a pattern every attachment is selected, in order. */
  lemma {:induction false} SelectedAll(items: seq<Json>)
    ensures Selected(items, None) == items
    decreases |items|
  {
    if items != [] {
      SelectedAll(items[1..]);
      assert [items[0]] + items[1..] == items;
    }
  }

  /** An item is selected exactly when its title matches the glob. */
  lemma {:induction false} SelectedByGlob(items: seq<Json>, glob: string, x: Json)
    requires x in items
    ensures x in Selected(items, Some(Pattern.Regex(Pattern.Translate(glob)))) <==> Pattern.Matches(glob, TitleOf(x))
    decreases |items|
  {
    var m := Some(Pattern.Regex(Pattern.Translate(glob)));
    Pattern.IsMatchGlob(glob, TitleOf(x));
    if items[0] != x {
      SelectedByGlob(items[1..], glob, x);
    } else if x in Selected(items, m) {
      SelectedOnly(items, m, x);
    }
  }

  // ---------------------------------------------------------------- one item

  const MISSING_LINK: string := "Missing attachment download link"

  /** The path `download_attachment_item` asks `unique_path` about, as
      written: refused for a missing link or a title that sanitises to
      nothing. */
  function TargetAsWritten(item: Json, dir: Path): (r: Result<Path>)
    ensures DownloadLink(item).None? ==> r == Err(MISSING_LINK)
    ensures DownloadLink(item).Some? && Download.Sanitized(TitleOf(item)) == "" ==>
      r == Err("Unsafe attachment title: " + TitleOf(item))
    ensures DownloadLink(item).Some? && Download.Sanitized(TitleOf(item)) != "" ==>
      r == Ok(JoinName(dir, Download.Sanitized(TitleOf(item))))
  {
    if DownloadLink(item).None? then Err(MISSING_LINK)
    else
      var name := Download.Sanitized(TitleOf(item));
      if name == "" then Err("Unsafe attachment title: " + TitleOf(item)) else Ok(JoinName(dir, name))
  }

  /** The target the rest of the model uses: a sanitised title `.`, which
      names the attachments directory itself rather than a file in it, is
      refused like the empty one. Every other title, `..` included, is
      handled as written. */
  function Target(item: Json, dir: Path): (r: Result<Path>)
    ensures DownloadLink(item).None? ==> r == Err(MISSING_LINK)
    ensures DownloadLink(item).Some? && Download.Sanitized(TitleOf(item)) in {"", "."} ==>
      r == Err("Unsafe attachment title: " + TitleOf(item))
    ensures r.Ok? <==> DownloadLink(item).Some? && Download.Sanitized(TitleOf(item)) !in {"", "."}
    ensures Download.Sanitized(TitleOf(item)) != "." ==> r == TargetAsWritten(item, dir)
    ensures r.Ok? ==> r.value.absolute == dir.absolute && r.value.parts == dir.parts + [Download.Sanitized(TitleOf(item))]
  {
    if DownloadLink(item).None? then Err(MISSING_LINK)
    else
      var name := Download.Sanitized(TitleOf(item));
      if name in {"", "."} then Err("Unsafe attachment title: " + TitleOf(item))
      else
        SanitizedNoSlash(TitleOf(item));
        OneComponent(name);
        Ok(JoinName(dir, name))
  }

  /** What `unique_path(path)` may return on a file system where `exists`
      holds the paths that exist (the postcondition of `Download.UniquePath`). */
  predicate Chosen(path: Path, exists_: set<Path>, r: Path) {
    (path !in exists_ && r == path)
    || (path in exists_ && ((r == path && forall i :: 1 <= i < 10000 ==> Download.Candidate(path, i) in exists_)
        || (exists i :: 1 <= i < 10000 && r == Download.Candidate(path, i) && r !in exists_
                         && forall j :: 1 <= j < i ==> Download.Candidate(path, j) in exists_)))
  }

  /** Whatever `unique_path` picks for a plain file name sits beside it:
      same directory, again a plain file name. */
  lemma ChosenBeside(path: Path, exists_: set<Path>, r: Path)
    requires WellFormed(path) && FileName(path).Some? && FileName(path).value != "."
    requires Chosen(path, exists_, r)
    ensures Parent(r) == Parent(path) && WellFormed(r) && FileName(r).Some?
  {
    if r != path {
      var i :| 1 <= i < 10000 && r == Download.Candidate(path, i);
      CandidateBeside(path, i);
    }
  }

  lemma CandidateBeside(path: Path, i: nat)
    requires WellFormed(path) && FileName(path).Some?
    ensures var r := Download.Candidate(path, i);
      Parent(r) == Parent(path) && WellFormed(r) && FileName(r).Some?
  {
    var parent := Parent(path).value;
    var stem := FileStem(path).GetOr("file");
    var ext := Extension(path).GetOr("");
    Download.StemNoSlash(path);
    Download.NameComponent(stem, ext, i);
    var n := Download.NameFor(stem, ext, i);
    assert |n| >= 4;
    ParentWellFormed(path);
    JoinOne(parent, n);
    AppendWellFormed(parent, n);
  }

  lemma ParentWellFormed(path: Path)
    requires WellFormed(path) && path.parts != []
    ensures WellFormed(Parent(path).value)
  {
    var q := Parent(path).value.parts;
    forall k | 0 <= k < |q| ensures q[k] != "" && q[k] != "." && '/' !in q[k] {
      assert q[k] == path.parts[k];
    }
  }

  /** A title for which the corrected target is refused but the written one
      is not: `.` sanitises to `.`, and `dir.join(".")` is the attachments
      directory itself. */
  lemma DotTitleNamesDirectory(item: Json, dir: Path)
    requires TitleOf(item) == "." && DownloadLink(item).Some?
    ensures TargetAsWritten(item, dir) == Ok(dir) && Target(item, dir).Err?
  {
    SanitizedDot();
    JoinDot(dir);
  }

  lemma SanitizedDot()
    ensures Download.Sanitized(".") == "."
  {
    assert Download.KeepSafe(".") == ".";
    TrimNoEdges(".");
  }

  lemma JoinDot(dir: Path)
    ensures JoinName(dir, ".") == dir
  {
    assert Split(".", '/') == ["."];
    assert ["."][1..] == [];
    assert Components(".") == [];
  }

  /** The attachments directory exists, so `unique_path` answers the
      directory itself or a sibling `attachments (i)` of it: an attachment
      titled `.` is not written into the attachments directory. */
  lemma DirectoryTargetLeaves(dir: Path, exists_: set<Path>, r: Path)
    requires WellFormed(dir) && FileName(dir).Some? && dir in exists_
    requires Chosen(dir, exists_, r)
    ensures Parent(r) != Some(dir)
  {
    ChosenBeside(dir, exists_, r);
    assert |Parent(dir).value.parts| < |dir.parts|;
  }

  /** A name `download_attachment_item` chooses is a path in the attachments
      directory: a plain file, or, for a title that sanitises to `..`, the
      target `dir/..` itself when `unique_path` finds no free name. */
  lemma TargetInside(item: Json, dir: Path, exists_: set<Path>, r: Path)
    requires WellFormed(dir) && Target(item, dir).Ok? && Chosen(Target(item, dir).value, exists_, r)
    ensures Parent(r) == Some(dir) && WellFormed(r)
    ensures FileName(r).Some? || (r == Target(item, dir).value && Download.Sanitized(TitleOf(item)) == "..")
  {
    var t := Target(item, dir).value;
    var name := Download.Sanitized(TitleOf(item));
    SanitizedNoSlash(TitleOf(item));
    AppendWellFormed(dir, name);
    if name != ".." {
      JoinOne(dir, name);
      ChosenBeside(t, exists_, r);
    } else if r != t {
      var i :| 1 <= i < 10000 && r == Download.Candidate(t, i);
      DotDotCandidate(dir, i);
    } else {
      assert t.parts[..|t.parts| - 1] == dir.parts;
    }
  }

  /** The free names `unique_path` tries for `dir/..`: the target has no
      file name, so the stem is `file` and the parent is `dir` itself. */
  lemma DotDotCandidate(dir: Path, i: nat)
    requires WellFormed(dir)
    ensures var r := Download.Candidate(Path(dir.absolute, dir.parts + [".."]), i);
      r == JoinName(dir, "file (" + NatToString(i) + ")")
      && Parent(r) == Some(dir) && WellFormed(r) && FileName(r).Some?
  {
    var t := Path(dir.absolute, dir.parts + [".."]);
    assert t.parts[..|t.parts| - 1] == dir.parts;
    assert FileName(t).None?;
    var n := Download.NameFor("file", "", i);
    assert n == "file (" + NatToString(i) + ")";
    Download.NameComponent("file", "", i);
    assert Components(n) == [n];
    assert |n| >= 4;
    var q := dir.parts + [n];
    assert q[..|q| - 1] == dir.parts;
    AppendWellFormed(dir, n);
  }

  /** A title that sanitises to `..` is kept, as the source keeps it. Its
      target `dir/..` names the export folder, which exists by then, so
      `unique_path` answers `dir/file (i)` for the first free `i`: the
      download stays in the attachments directory. */
  lemma DotDotTitleStaysInside(item: Json, dir: Path, exists_: set<Path>, r: Path) returns (i: nat)
    requires WellFormed(dir) && DownloadLink(item).Some? && Download.Sanitized(TitleOf(item)) == ".."
    requires Target(item, dir).value in exists_ && Chosen(Target(item, dir).value, exists_, r)
    requires r != Target(item, dir).value
    ensures 1 <= i < 10000 && r == JoinName(dir, "file (" + NatToString(i) + ")")
    ensures Parent(r) == Some(dir) && FileName(r).Some?
  {
    var t := Target(item, dir).value;
    i :| 1 <= i < 10000 && r == Download.Candidate(t, i);
    DotDotCandidate(dir, i);
  }

  lemma AppendWellFormed(dir: Path, name: string)
    requires WellFormed(dir) && '/' !in name && name != "" && name != "."
    ensures WellFormed(Path(dir.absolute, dir.parts + [name]))
  {
    var t := dir.parts + [name];
    forall k | 0 <= k < |t| ensures t[k] != "" && t[k] != "." && '/' !in t[k] {
      if k < |dir.parts| { assert t[k] == dir.parts[k]; }
    }
  }

  /** The results `download_attachment_item` may give: the refusal of the
      target, or the download into `p`, a path `unique_path` may choose for
      it, with `p` on success and the download's error otherwise. */
  ghost predicate ItemResult(item: Json, dir: Path, exists_: set<Path>, origin: Urls.ParsedUrl,
                             fetch: (Download.UrlRequest, Path, string) -> Result<()>, p: Path, r: Result<Path>) {
    Fetched(Target(item, dir), RequestFor(item, origin), TitleOf(item), exists_, fetch, p, r)
  }

  /** The request `attachment_download_url` builds for the item's link (only
      consulted when the link is there). */
  function RequestFor(item: Json, origin: Urls.ParsedUrl): Download.UrlRequest {
    Download.AttachmentDownloadUrl(origin, DownloadLink(item).GetOr(""))
  }

  /** The download of `request` into the path `p` chosen for `target`, or
      the refusal of the target. */
  ghost predicate Fetched(target: Result<Path>, request: Download.UrlRequest, title: string, exists_: set<Path>,
                          fetch: (Download.UrlRequest, Path, string) -> Result<()>, p: Path, r: Result<Path>) {
    match target
    case Err(e) => r == Err(e)
    case Ok(t) =>
      Chosen(t, exists_, p)
      && match fetch(request, p, title)
         case Ok(_) => r == Ok(p)
         case Err(e) => r == Err(e)
  }

  /** Such a result is a refusal or a path in the attachments directory. */
  lemma ItemOutcome(item: Json, dir: Path, exists_: set<Path>, origin: Urls.ParsedUrl,
                    fetch: (Download.UrlRequest, Path, string) -> Result<()>, p: Path, r: Result<Path>)
    requires ItemResult(item, dir, exists_, origin, fetch, p, r)
    ensures Outcome(item, dir, r)
  {
    if r.Ok? && WellFormed(dir) {
      TargetInside(item, dir, exists_, r.value);
    }
  }

  /** `download_attachment_item`. `fetch` is `download_to_file_with_retry`
      of the request built by `attachment_download_url` into a path, with
      the title for its messages (the retrying download itself is
      `Download.DownloadFrom`); `path` is the path `unique_path` chose. */
  method DownloadAttachmentItem(item: Json, dir: Path, exists_: set<Path>, origin: Urls.ParsedUrl,
                                fetch: (Download.UrlRequest, Path, string) -> Result<()>)
    returns (r: Result<Path>, ghost path: Path)
    ensures ItemResult(item, dir, exists_, origin, fetch, path, r)
  {
    var target := Target(item, dir);
    if target.Err? {
      return Err(target.error), dir;
    }
    var chosen := Download.UniquePath(target.value, exists_);
    path := chosen;
    assert Chosen(target.value, exists_, path);
    var request := Download.AttachmentDownloadUrl(origin, DownloadLink(item).value);
    assert request == RequestFor(item, origin);
    match fetch(request, chosen, TitleOf(item)) {
      case Err(e) => r := Err(e);
      case Ok(_) => r := Ok(chosen);
    }
  }

  // ------------------------------------------------------------ the downloads

  /** The files the downloads wrote: the path of every success. */
  function WrittenBy(outcomes: seq<Result<Path>>): set<Path>
    decreases |outcomes|
  {
    if outcomes == [] then {}
    else WrittenBy(outcomes[..|outcomes| - 1])
         + (if outcomes[|outcomes| - 1].Ok? then {outcomes[|outcomes| - 1].value} else {})
  }

  lemma WrittenBySnoc(outcomes: seq<Result<Path>>, o: Result<Path>)
    ensures WrittenBy(outcomes + [o]) == WrittenBy(outcomes) + (if o.Ok? then {o.value} else {})
  {
    assert (outcomes + [o])[..|outcomes|] == outcomes;
  }

  /** What one download may come to: the refusal of its target, or a path in
      the attachments directory (a plain file unless the title is `..`). */
  predicate Outcome(item: Json, dir: Path, o: Result<Path>) {
    (Target(item, dir).Err? ==> o == Err(Target(item, dir).error))
    && (o.Ok? && WellFormed(dir) ==>
          Parent(o.value) == Some(dir) && (FileName(o.value).Some? || Download.Sanitized(TitleOf(item)) == ".."))
  }

  /** A download that succeeded adds its file to those that exist. */
  lemma AddWritten(exists0: set<Path>, outcomes: seq<Result<Path>>, o: Result<Path>, e: set<Path>)
    requires e == exists0 + WrittenBy(outcomes)
    ensures o.Ok? ==> e + {o.value} == exists0 + WrittenBy(outcomes + [o])
    ensures o.Err? ==> e == exists0 + WrittenBy(outcomes + [o])
  {
    WrittenBySnoc(outcomes, o);
  }

  /** Every selected attachment in order, each free-name search seeing the
      files written before it; `paths` are the paths `unique_path` chose. */
  method DownloadAll(selected: seq<Json>, dir: Path, exists0: set<Path>, origin: Urls.ParsedUrl,
                     fetch: (Download.UrlRequest, Path, string) -> Result<()>)
    returns (outcomes: seq<Result<Path>>, exists_: set<Path>, ghost paths: seq<Path>)
    ensures |outcomes| == |selected| == |paths|
    ensures forall i :: 0 <= i < |selected| ==>
      ItemResult(selected[i], dir, exists0 + WrittenBy(outcomes[..i]), origin, fetch, paths[i], outcomes[i])
    ensures forall i :: 0 <= i < |selected| ==> Outcome(selected[i], dir, outcomes[i])
    ensures exists_ == exists0 + WrittenBy(outcomes)
  {
    outcomes := [];
    exists_ := exists0;
    paths := [];
    for i := 0 to |selected|
      invariant |outcomes| == i == |paths|
      invariant Downloads(selected, Targets(selected, dir), exists0, origin, fetch, paths, outcomes)
      invariant exists_ == exists0 + WrittenBy(outcomes)
    {
      var o, p := DownloadAttachmentItem(selected[i], dir, exists_, origin, fetch);
      ItemFetched(selected, i, dir, exists_, origin, fetch, p, o);
      DownloadsSnoc(selected, Targets(selected, dir), exists0, origin, fetch, paths, outcomes, p, o);
      AddWritten(exists0, outcomes, o, exists_);
      outcomes := outcomes + [o];
      paths := paths + [p];
      if o.Ok? {
        exists_ := exists_ + {o.value};
      }
    }
    DownloadsDone(selected, dir, exists0, origin, fetch, paths, outcomes);
  }


  /** All downloads done: each is as `DownloadAttachmentItem` promises it,
      and so ends in a refusal or in the attachments directory. */
  lemma DownloadsDone(selected: seq<Json>, dir: Path, exists0: set<Path>, origin: Urls.ParsedUrl,
                      fetch: (Download.UrlRequest, Path, string) -> Result<()>,
                      paths: seq<Path>, outcomes: seq<Result<Path>>)
    requires Downloads(selected, Targets(selected, dir), exists0, origin, fetch, paths, outcomes)
    requires |outcomes| == |selected|
    ensures forall i :: 0 <= i < |selected| ==>
      ItemResult(selected[i], dir, exists0 + WrittenBy(outcomes[..i]), origin, fetch, paths[i], outcomes[i])
    ensures forall i :: 0 <= i < |selected| ==> Outcome(selected[i], dir, outcomes[i])
  {
    forall i | 0 <= i < |selected|
      ensures ItemResult(selected[i], dir, exists0 + WrittenBy(outcomes[..i]), origin, fetch, paths[i], outcomes[i])
      ensures Outcome(selected[i], dir, outcomes[i])
    {
      DownloadsAt(selected, Targets(selected, dir), exists0, origin, fetch, paths, outcomes, i);
      ItemOutcome(selected[i], dir, exists0 + WrittenBy(outcomes[..i]), origin, fetch, paths[i], outcomes[i]);
    }
  }

  lemma ItemFetched(selected: seq<Json>, i: nat, dir: Path, exists_: set<Path>, origin: Urls.ParsedUrl,
                    fetch: (Download.UrlRequest, Path, string) -> Result<()>, p: Path, r: Result<Path>)
    requires i < |selected| && ItemResult(selected[i], dir, exists_, origin, fetch, p, r)
    ensures |Targets(selected, dir)| == |selected|
    ensures Fetched(Targets(selected, dir)[i], RequestFor(selected[i], origin), TitleOf(selected[i]), exists_, fetch, p, r)
  {
  }

  /** The target of every selected attachment. */
  function Targets(selected: seq<Json>, dir: Path): seq<Result<Path>> {
    seq(|selected|, i requires 0 <= i < |selected| => Target(selected[i], dir))
  }

  /** The first `|outcomes|` downloads of `selected`, each as
      `DownloadAttachmentItem` promises it for its target, seeing the files
      written before it. */
  ghost predicate Downloads(selected: seq<Json>, targets: seq<Result<Path>>, exists0: set<Path>, origin: Urls.ParsedUrl,
                            fetch: (Download.UrlRequest, Path, string) -> Result<()>,
                            paths: seq<Path>, outcomes: seq<Result<Path>>)
    decreases |outcomes|
  {
    |outcomes| <= |selected| == |targets| && |paths| == |outcomes|
    && (outcomes != [] ==>
          var k := |outcomes| - 1;
          Downloads(selected, targets, exists0, origin, fetch, paths[..k], outcomes[..k])
          && Fetched(targets[k], RequestFor(selected[k], origin), TitleOf(selected[k]),
                     exists0 + WrittenBy(outcomes[..k]), fetch, paths[k], outcomes[k]))
  }

  lemma DownloadsSnoc(selected: seq<Json>, targets: seq<Result<Path>>, exists0: set<Path>, origin: Urls.ParsedUrl,
                      fetch: (Download.UrlRequest, Path, string) -> Result<()>,
                      paths: seq<Path>, before: seq<Result<Path>>, p: Path, o: Result<Path>)
    requires Downloads(selected, targets, exists0, origin, fetch, paths, before) && |before| < |selected|
    requires Fetched(targets[|before|], RequestFor(selected[|before|], origin), TitleOf(selected[|before|]),
                     exists0 + WrittenBy(before), fetch, p, o)
    ensures Downloads(selected, targets, exists0, origin, fetch, paths + [p], before + [o])
  {
    var after := before + [o];
    assert after[..|before|] == before && after[|before|] == o;
    assert (paths + [p])[..|paths|] == paths;
  }

  lemma DownloadsInit(selected: seq<Json>, targets: seq<Result<Path>>, exists0: set<Path>, origin: Urls.ParsedUrl,
                      fetch: (Download.UrlRequest, Path, string) -> Result<()>,
                      paths: seq<Path>, outcomes: seq<Result<Path>>)
    requires Downloads(selected, targets, exists0, origin, fetch, paths, outcomes) && outcomes != []
    ensures Downloads(selected, targets, exists0, origin, fetch, paths[..|outcomes| - 1], outcomes[..|outcomes| - 1])
  {
  }

  /** Each download in such a prefix is as `DownloadAttachmentItem` promises. */
  lemma {:induction false} DownloadsAt(selected: seq<Json>, targets: seq<Result<Path>>, exists0: set<Path>,
                                       origin: Urls.ParsedUrl, fetch: (Download.UrlRequest, Path, string) -> Result<()>,
                                       paths: seq<Path>, outcomes: seq<Result<Path>>, j: nat)
    requires Downloads(selected, targets, exists0, origin, fetch, paths, outcomes) && j < |outcomes|
    ensures j < |selected| == |targets| && j < |paths|
    ensures Fetched(targets[j], RequestFor(selected[j], origin), TitleOf(selected[j]),
                    exists0 + WrittenBy(outcomes[..j]), fetch, paths[j], outcomes[j])
    decreases |outcomes|
  {
    var k := |outcomes| - 1;
    if j < k {
      var q := outcomes[..k];
      DownloadsInit(selected, targets, exists0, origin, fetch, paths, outcomes);
      DownloadsAt(selected, targets, exists0, origin, fetch, paths[..k], q, j);
      assert q[..j] == outcomes[..j] && q[j] == outcomes[j] && paths[..k][j] == paths[j];
    }
  }

  /** The paths in `ps`. */
  function PathSet(ps: seq<Path>): set<Path> {
    set j | 0 <= j < |ps| :: ps[j]
  }

  /** When every download succeeded, the files written before item `i` are
      the first `i` gathered paths. */
  lemma {:induction false} WrittenPrefix(outcomes: seq<Result<Path>>, ps: seq<Path>, i: nat)
    requires |ps| == |outcomes| && i <= |outcomes|
    requires forall j :: 0 <= j < |outcomes| ==> outcomes[j] == Ok(ps[j])
    ensures WrittenBy(outcomes[..i]) == PathSet(ps[..i])
    decreases i
  {
    if i > 0 {
      WrittenPrefix(outcomes, ps, i - 1);
      assert outcomes[..i] == outcomes[..i - 1] + [outcomes[i - 1]];
      WrittenBySnoc(outcomes[..i - 1], outcomes[i - 1]);
      assert ps[..i] == ps[..i - 1] + [ps[i - 1]];
      assert PathSet(ps[..i]) == PathSet(ps[..i - 1]) + {ps[i - 1]};
    }
  }

  /** When every download succeeded, the gathered paths are written in
      selection order, each where `unique_path` put it. */
  lemma GatheredWritten(selected: seq<Json>, dir: Path, exists0: set<Path>, origin: Urls.ParsedUrl,
                        fetch: (Download.UrlRequest, Path, string) -> Result<()>,
                        paths: seq<Path>, outcomes: seq<Result<Path>>, ps: seq<Path>)
    requires |outcomes| == |selected| == |paths|
    requires forall i :: 0 <= i < |selected| ==>
      ItemResult(selected[i], dir, exists0 + WrittenBy(outcomes[..i]), origin, fetch, paths[i], outcomes[i])
    requires Gathered(outcomes) == Ok(ps)
    ensures AllWritten(selected, dir, exists0, origin, fetch, ps)
  {
    GatheredAll(outcomes);
    forall i | 0 <= i < |selected|
      ensures ItemResult(selected[i], dir, exists0 + PathSet(ps[..i]), origin, fetch, ps[i], Ok(ps[i]))
    {
      WrittenPrefix(outcomes, ps, i);
      ItemOk(selected[i], dir, exists0 + WrittenBy(outcomes[..i]), exists0 + PathSet(ps[..i]), origin, fetch,
             paths[i], outcomes[i], ps[i]);
    }
  }

  /** A successful download went to the path `unique_path` chose. */
  lemma ItemOk(item: Json, dir: Path, e1: set<Path>, e2: set<Path>, origin: Urls.ParsedUrl,
               fetch: (Download.UrlRequest, Path, string) -> Result<()>, p: Path, o: Result<Path>, q: Path)
    requires ItemResult(item, dir, e1, origin, fetch, p, o) && e1 == e2 && o == Ok(q)
    ensures p == q && ItemResult(item, dir, e2, origin, fetch, q, Ok(q))
  {
  }

  /** `written` is what the downloads of `selected` gave when all of them
      succeeded, in selection order: item `i` went to the path `unique_path`
      chose for its target once the files before it were written, and its
      fetch succeeded. */
  ghost predicate AllWritten(selected: seq<Json>, dir: Path, exists0: set<Path>, origin: Urls.ParsedUrl,
                             fetch: (Download.UrlRequest, Path, string) -> Result<()>, written: seq<Path>) {
    |written| == |selected|
    && forall i :: 0 <= i < |selected| ==>
         ItemResult(selected[i], dir, exists0 + PathSet(written[..i]), origin, fetch, written[i], Ok(written[i]))
  }

  /** The awaiting loop's result: all written paths in task order, or the
      error of the first task that failed. */
  function Gathered(outcomes: seq<Result<Path>>): (r: Result<seq<Path>>)
    decreases |outcomes|
  {
    if outcomes == [] then Ok([])
    else match outcomes[0]
      case Err(e) => Err(e)
      case Ok(p) =>
        match Gathered(outcomes[1..])
        case Err(e) => Err(e)
        case Ok(ps) => Ok([p] + ps)
  }

  /** The result is `Ok` exactly when every task succeeded, and then lists
      every path in task order. */
  lemma {:induction false} GatheredAll(outcomes: seq<Result<Path>>)
    ensures Gathered(outcomes).Ok? <==> forall i :: 0 <= i < |outcomes| ==> outcomes[i].Ok?
    ensures Gathered(outcomes).Ok? ==>
      (|Gathered(outcomes).value| == |outcomes|
       && forall i :: 0 <= i < |outcomes| ==> Gathered(outcomes).value[i] == outcomes[i].value)
    decreases |outcomes|
  {
    if outcomes != [] {
      GatheredAll(outcomes[1..]);
      assert forall i :: 1 <= i < |outcomes| ==> outcomes[i] == outcomes[1..][i - 1];
    }
  }

  /** An `Err` result is the error of the first failed task. */
  lemma {:induction false} GatheredFirstError(outcomes: seq<Result<Path>>) returns (k: nat)
    requires Gathered(outcomes).Err?
    ensures k < |outcomes| && outcomes[k] == Err(Gathered(outcomes).error)
    ensures forall j :: 0 <= j < k ==> outcomes[j].Ok?
    decreases |outcomes|
  {
    if outcomes[0].Err? {
      k := 0;
    } else {
      var k1 := GatheredFirstError(outcomes[1..]);
      k := k1 + 1;
      assert forall j :: 1 <= j < k ==> outcomes[j] == outcomes[1..][j - 1];
    }
  }

  /** Prepends the paths gathered so far to a later result. */
  function Prefixed(written: seq<Path>, rest: Result<seq<Path>>): Result<seq<Path>> {
    match rest
    case Err(e) => Err(e)
    case Ok(ps) => Ok(written + ps)
  }

  /** `for task in tasks { attachments_written.push(task.await??) }` */
  method GatherWritten(outcomes: seq<Result<Path>>) returns (r: Result<seq<Path>>)
    ensures r == Gathered(outcomes)
  {
    var written: seq<Path> := [];
    assert outcomes[0..] == outcomes;
    match Gathered(outcomes) {
      case Ok(ps) => assert [] + ps == ps;
      case Err(_) =>
    }
    for i := 0 to |outcomes|
      invariant Gathered(outcomes) == Prefixed(written, Gathered(outcomes[i..]))
    {
      assert outcomes[i..][0] == outcomes[i] && outcomes[i..][1..] == outcomes[i + 1..];
      if outcomes[i].Err? {
        assert Gathered(outcomes[i..]) == Err(outcomes[i].error);
        return Err(outcomes[i].error);
      }
      assert written + ([outcomes[i].value] + []) == written + [outcomes[i].value];
      match Gathered(outcomes[i + 1..]) {
        case Ok(ps) => assert written + ([outcomes[i].value] + ps) == (written + [outcomes[i].value]) + ps;
        case Err(_) =>
      }
      written := written + [outcomes[i].value];
    }
    assert outcomes[|outcomes|..] == [];
    assert written + [] == written;
    r := Ok(written);
  }

  // ------------------------------------------------------------- the handler

  datatype ExportArgs = ExportArgs(format: string, dest: Path, skipAttachments: bool,
                                   pattern: Option<string>, output: Format)

  /** The answers the handler receives. `siteUrl` is the client's base URL
      and `origin` its parse by the `url` crate; `page` answers the body
      request; `convert` is the HTML-to-markdown converter, `parse` and
      `pretty` the JSON parser and pretty-printer; `spaceKey` is
      `resolve_space_key`; `attachments` answers the paginated listing;
      `compile` is the regex builder; `existing` the paths that exist before
      the downloads. */
  datatype ExportWorld = ExportWorld(
    siteUrl: string, origin: Result<Urls.ParsedUrl>, page: Result<Json>,
    convert: string -> Result<string>, parse: string -> Option<Json>, pretty: Json -> string,
    spaceKey: Result<string>, attachments: Result<seq<Json>>, compile: string -> Option<string>,
    existing: set<Path>, fetch: (Download.UrlRequest, Path, string) -> Result<()>)

  /** What the handler did: its requests, the files it wrote itself (path
      and contents), the attachments written in order, what it showed, and
      its result. */
  datatype Exported = Exported(calls: seq<Call>, files: seq<(Path, string)>, attachments: seq<Path>,
                               shown: seq<Shown>, result: Result<()>)

  function BodyCall(pageId: string, k: ExportKind): Call {
    Call(GET, V2, "/pages/" + pageId + "?body-format=" + Representation(k), [], None)
  }

  function AttachmentsCall(pageId: string): Call {
    Call(GET, V2, "/pages/" + pageId + "/attachments?limit=50", [], None)
  }

  /** The page once fetched and converted, and where it goes. */
  datatype Prepared = Prepared(kind: ExportKind, page: Json, layout: Layout, content: string)

  /** The steps before anything is written: the format, the body request
      (its failure reported with the context of `fetch_page_with_body_format`)
      and the conversion. */
  function Prepare(pageId: string, args: ExportArgs, w: ExportWorld): (r: Result<Prepared>)
    ensures ExportKindOf(args.format).Err? ==> r == Err(ExportKindOf(args.format).error)
    ensures ExportKindOf(args.format).Ok? && w.page.Err? ==>
      r == Err("Failed to fetch page " + pageId + " (body-format=" + Representation(ExportKindOf(args.format).value) + ")")
    ensures r.Ok? ==>
      ExportKindOf(args.format).Ok? && w.page.Ok? && r.value.kind == ExportKindOf(args.format).value
      && r.value.page == w.page.value
      && r.value.layout == LayoutOf(args.dest, JsonStr(w.page.value, "title"), pageId, r.value.kind)
      && Content(r.value.kind, Download.BodyOf(w.page.value, Representation(r.value.kind)), w.convert, w.parse, w.pretty)
         == Ok(r.value.content)
    ensures ExportKindOf(args.format).Ok? && w.page.Ok? && r.Err? ==>
      var k := ExportKindOf(args.format).value;
      Content(k, Download.BodyOf(w.page.value, Representation(k)), w.convert, w.parse, w.pretty) == Err(r.error)
  {
    match ExportKindOf(args.format)
    case Err(e) => Err(e)
    case Ok(k) =>
      match w.page
      case Err(_) => Err("Failed to fetch page " + pageId + " (body-format=" + Representation(k) + ")")
      case Ok(page) =>
        match Content(k, Download.BodyOf(page, Representation(k)), w.convert, w.parse, w.pretty)
        case Err(e) => Err(e)
        case Ok(c) => Ok(Prepared(k, page, LayoutOf(args.dest, JsonStr(page, "title"), pageId, k), c))
  }

  /** `meta.json` and the content file. */
  function Files(p: Prepared, pageId: string, w: ExportWorld): seq<(Path, string)> {
    [(p.layout.metaPath, w.pretty(Meta(pageId, p.page, w.siteUrl, w.spaceKey))), (p.layout.contentPath, p.content)]
  }

  /** The summary: the JSON document, or the rows `Dir`, `Content` and
      `Attachments` (the count). */
  function Summary(ctx: Ctx, output: Format, l: Layout, written: seq<Path>): seq<Shown> {
    var json := JObj(map["dir" := JStr(Display(l.outDir)), "meta" := JStr(Display(l.metaPath)),
                         "content" := JStr(Display(l.contentPath)),
                         "attachments" := JArr(seq(|written|, i requires 0 <= i < |written| => JStr(Display(written[i]))))]);
    ShowAs(ctx, output, json, [["Dir", Display(l.outDir)], ["Content", Display(l.contentPath)],
                               ["Attachments", NatToString(|written|)]])
  }

  /** The downloads of `selected`, in order, each as `DownloadAttachmentItem`
      promises it, seeing the files written before it. */
  ghost predicate Downloaded(selected: seq<Json>, dir: Path, exists0: set<Path>, origin: Urls.ParsedUrl,
                             fetch: (Download.UrlRequest, Path, string) -> Result<()>,
                             paths: seq<Path>, outcomes: seq<Result<Path>>) {
    |outcomes| == |selected| == |paths|
    && forall i :: 0 <= i < |selected| ==>
         ItemResult(selected[i], dir, exists0 + WrittenBy(outcomes[..i]), origin, fetch, paths[i], outcomes[i])
  }

  /** What the attachments part of `export_page` comes to: the listing's
      error, the pattern's error, the origin's error, in that order; past
      them, the downloads `outcomes` of the selected attachments, and a
      result that is `Ok` exactly when every download succeeded (then the
      written paths in selection order) and otherwise the error of the first
      download that failed. */
  ghost predicate AttachmentsResult(dir: Path, pattern: Option<string>, w: ExportWorld,
                                    paths: seq<Path>, outcomes: seq<Result<Path>>, r: Result<seq<Path>>) {
    (w.attachments.Err? ==> r == Err(w.attachments.error))
    && (w.attachments.Ok? && Matcher(pattern, w.compile).Err? ==> r == Err(Matcher(pattern, w.compile).error))
    && (w.attachments.Ok? && Matcher(pattern, w.compile).Ok? && w.origin.Err? ==> r == Err(w.origin.error))
    && (w.attachments.Ok? && Matcher(pattern, w.compile).Ok? && w.origin.Ok? ==>
          var selected := Selected(w.attachments.value, Matcher(pattern, w.compile).value);
          Downloaded(selected, dir, w.existing, w.origin.value, w.fetch, paths, outcomes)
          && (r.Ok? <==> forall i :: 0 <= i < |outcomes| ==> outcomes[i].Ok?)
          && (r.Ok? ==> AllWritten(selected, dir, w.existing, w.origin.value, w.fetch, r.value))
          && (r.Err? ==> exists k :: 0 <= k < |outcomes| && outcomes[k] == Err(r.error)
                                    && forall j :: 0 <= j < k ==> outcomes[j].Ok?))
  }

  /** The attachments part: list, select, download, gather. */
  method ExportAttachments(dir: Path, pattern: Option<string>, w: ExportWorld)
    returns (r: Result<seq<Path>>, ghost paths: seq<Path>, ghost outcomes: seq<Result<Path>>)
    ensures AttachmentsResult(dir, pattern, w, paths, outcomes, r)
    ensures r.Ok? ==> forall i :: 0 <= i < |r.value| ==> WellFormed(dir) ==> Parent(r.value[i]) == Some(dir)
  {
    paths, outcomes := [], [];
    if w.attachments.Err? {
      return Err(w.attachments.error), paths, outcomes;
    }
    var matcher := Matcher(pattern, w.compile);
    if matcher.Err? {
      return Err(matcher.error), paths, outcomes;
    }
    var selected := Selected(w.attachments.value, matcher.value);
    if w.origin.Err? {
      return Err(w.origin.error), paths, outcomes;
    }
    var os, _, ps := DownloadAll(selected, dir, w.existing, w.origin.value, w.fetch);
    paths, outcomes := ps, os;
    r := GatherWritten(os);
    GatheredAll(os);
    if r.Ok? {
      GatheredWritten(selected, dir, w.existing, w.origin.value, w.fetch, ps, os, r.value);
    } else {
      var k := GatheredFirstError(os);
    }
  }

  /** `export_page` after `resolve_page_id` gave `pageId`. */
  method ExportPage(ctx: Ctx, pageId: Result<string>, args: ExportArgs, w: ExportWorld)
    returns (out: Exported, ghost paths: seq<Path>, ghost outcomes: seq<Result<Path>>)
    ensures pageId.Err? ==> out == Exported([], [], [], [], Err(pageId.error))
    ensures pageId.Ok? && Prepare(pageId.value, args, w).Err? ==>
      out.result == Err(Prepare(pageId.value, args, w).error) && out.files == [] && out.attachments == []
      && out.shown == []
      && out.calls == (if ExportKindOf(args.format).Ok? then [BodyCall(pageId.value, ExportKindOf(args.format).value)] else [])
    ensures pageId.Ok? && Prepare(pageId.value, args, w).Ok? ==>
      out.files == Files(Prepare(pageId.value, args, w).value, pageId.value, w)
      && out.calls == [BodyCall(pageId.value, Prepare(pageId.value, args, w).value.kind)]
                      + (if args.skipAttachments then [] else [AttachmentsCall(pageId.value)])
    ensures pageId.Ok? && Prepare(pageId.value, args, w).Ok? && args.skipAttachments ==>
      out.result == Ok(()) && out.attachments == []
    ensures pageId.Ok? && Prepare(pageId.value, args, w).Ok? && out.result.Ok? ==>
      (var l := Prepare(pageId.value, args, w).value.layout;
       out.shown == Summary(ctx, args.output, l, out.attachments)
       && forall i :: 0 <= i < |out.attachments| ==>
            WellFormed(args.dest) ==> Parent(out.attachments[i]) == Some(l.attachmentsDir))
    ensures pageId.Ok? && Prepare(pageId.value, args, w).Ok? && !args.skipAttachments && out.result.Ok? ==>
      w.attachments.Ok? && Matcher(args.pattern, w.compile).Ok? && w.origin.Ok?
      && AllWritten(Selected(w.attachments.value, Matcher(args.pattern, w.compile).value),
                    Prepare(pageId.value, args, w).value.layout.attachmentsDir, w.existing, w.origin.value, w.fetch,
                    out.attachments)
    // the attachments part decides the result as `AttachmentsResult` says
    ensures pageId.Ok? && Prepare(pageId.value, args, w).Ok? && !args.skipAttachments ==>
      AttachmentsResult(Prepare(pageId.value, args, w).value.layout.attachmentsDir, args.pattern, w, paths, outcomes,
                        if out.result.Ok? then Ok(out.attachments) else Err(out.result.error))
    ensures out.result.Err? ==> out.shown == [] && out.attachments == []
  {
    paths, outcomes := [], [];
    if pageId.Err? {
      return Exported([], [], [], [], Err(pageId.error)), paths, outcomes;
    }
    var id := pageId.value;
    var prepared := Prepare(id, args, w);
    if prepared.Err? {
      var calls := if ExportKindOf(args.format).Ok? then [BodyCall(id, ExportKindOf(args.format).value)] else [];
      return Exported(calls, [], [], [], Err(prepared.error)), paths, outcomes;
    }
    var p := prepared.value;
    var calls := [BodyCall(id, p.kind)] + (if args.skipAttachments then [] else [AttachmentsCall(id)]);
    var files := Files(p, id, w);
    var written: seq<Path> := [];
    if !args.skipAttachments {
      var gathered;
      gathered, paths, outcomes := ExportAttachments(p.layout.attachmentsDir, args.pattern, w);
      if gathered.Err? {
        return Exported(calls, files, [], [], Err(gathered.error)), paths, outcomes;
      }
      written := gathered.value;
      if WellFormed(args.dest) {
        AttachmentsDirWellFormed(args.dest, JsonStr(p.page, "title"), id, p.kind);
      }
    }
    out := Exported(calls, files, written, Summary(ctx, args.output, p.layout, written), Ok(()));
  }

  /** Joining names onto a well-formed path gives a well-formed path. */
  lemma JoinWellFormed(p: Path, s: string)
    requires WellFormed(p)
    ensures WellFormed(JoinName(p, s))
  {
    var c := Components(s);
    var q := JoinName(p, s).parts;
    assert q == p.parts + c;
    forall i | 0 <= i < |q| ensures q[i] != "" && q[i] != "." && '/' !in q[i] {
      if i < |p.parts| { assert q[i] == p.parts[i]; } else { assert q[i] == c[i - |p.parts|]; }
    }
  }

  lemma AttachmentsDirWellFormed(dest: Path, title: string, pageId: string, k: ExportKind)
    requires WellFormed(dest)
    ensures WellFormed(LayoutOf(dest, title, pageId, k).attachmentsDir)
  {
    var l := LayoutOf(dest, title, pageId, k);
    JoinWellFormed(dest, FolderName(title, pageId));
    JoinWellFormed(l.outDir, "attachments");
  }
}
