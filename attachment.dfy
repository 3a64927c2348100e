/**
 * src/commands/attachment.rs: `attachment download` (the download-link
 * choice and the order of its failures), `attachment upload` (the approval
 * loop for large files, one task per approved file, the first failure
 * aborting the rest, the results put back into file order) and
 * `attachment delete` (the action, the URL and the confirmation).
 *
 * The file system, the prompts and the tasks are oracles: the size of each
 * file, each answer, the order in which the tasks finish and what each one
 * ends with are parameters.
 */
module Attachment {
  import opened Wrappers
  import opened Strings
  import opened Json
  import opened Paths
  import opened Helpers
  import Download
  import Urls
  import Sorting

  // ----------------------------------------------------------------- download

  const MISSING_LINK: string := "Missing download link"

  /** The request for an attachment's metadata. */
  function AttachmentCall(id: string): Call {
    Call(GET, V2, "/attachments/" + id, [], None)
  }

  /** What `attachment download` is given: the answer to the metadata
      request, the site URL as the `url` crate parses it, whether the crate
      accepts a download request, and `download_to_file_with_retry` of a
      request into a path with a subject for its messages (the retrying
      download itself is `Download.DownloadFrom`). */
  datatype DownloadWorld = DownloadWorld(
    attachment: Result<Json>,
    origin: Result<Urls.ParsedUrl>,
    parses: Download.UrlRequest -> bool,
    fetch: (Download.UrlRequest, Path, string) -> Result<()>)

  /** `attachment_download`. The link is checked before the site URL, the
      URL before the destination, and the destination before anything is
      downloaded. */
  function AttachmentDownload(ctx: Ctx, id: string, dest: Option<Path>, w: DownloadWorld): (r: Run)
    ensures r.calls == [AttachmentCall(id)]
    ensures r.result.Err? ==> r.shown == []
    ensures w.attachment.Err? ==> r.result == Err(w.attachment.error)
    ensures w.attachment.Ok? && DownloadLink(w.attachment.value).None? ==> r.result == Err(MISSING_LINK)
    ensures w.attachment.Ok? && DownloadLink(w.attachment.value).Some? && w.origin.Err? ==>
      r.result == Err(w.origin.error)
    ensures w.attachment.Ok? && DownloadLink(w.attachment.value).Some? && w.origin.Ok? ==>
      var link := DownloadLink(w.attachment.value).value;
      var request := Download.AttachmentDownloadUrl(w.origin.value, link);
      var path := ResolveDownloadPath(dest, w.attachment.value);
      (!w.parses(request) ==> r.result == Err(Download.DownloadUrlError(request, link)))
      && (w.parses(request) && path.Err? ==> r.result == Err(path.error))
      && (w.parses(request) && path.Ok? ==>
            r.result == w.fetch(request, path.value, "attachment " + id)
            && (r.result.Ok? ==> r.shown == Show(ctx, Line("Downloaded to " + Display(path.value)))))
  {
    var calls := [AttachmentCall(id)];
    match w.attachment
    case Err(e) => Fails(calls, e)
    case Ok(json) =>
      match DownloadLink(json)
      case None => Fails(calls, MISSING_LINK)
      case Some(link) =>
        match w.origin
        case Err(e) => Fails(calls, e)
        case Ok(base) =>
          var request := Download.AttachmentDownloadUrl(base, link);
          if !w.parses(request) then Fails(calls, Download.DownloadUrlError(request, link))
          else
            match ResolveDownloadPath(dest, json)
            case Err(e) => Fails(calls, e)
            case Ok(path) =>
              var fetched := w.fetch(request, path, "attachment " + id);
              if fetched.Err? then Fails(calls, fetched.error)
              else Run(calls, Show(ctx, Line("Downloaded to " + Display(path))), fetched)
  }

  /** `downloadLink` wins over `_links.download`, whatever the latter holds. */
  lemma DownloadLinkChoice(ctx: Ctx, id: string, dest: Option<Path>, w: DownloadWorld,
                           link: string, other: Json)
    requires w.attachment == Ok(JObj(map["downloadLink" := JStr(link), "_links" := other]))
    requires w.origin.Ok? && w.parses(Download.AttachmentDownloadUrl(w.origin.value, link))
    requires dest.Some?
    ensures AttachmentDownload(ctx, id, dest, w).result
      == w.fetch(Download.AttachmentDownloadUrl(w.origin.value, link), dest.value, "attachment " + id)
  {
    var json := w.attachment.value;
    assert Get(json, "downloadLink") == Some(JStr(link));
  }

  /** Without `downloadLink`, the link under `_links.download` is used. */
  lemma DownloadLinkFallback(ctx: Ctx, id: string, dest: Option<Path>, w: DownloadWorld, link: string)
    requires w.attachment == Ok(JObj(map["_links" := JObj(map["download" := JStr(link)])]))
    requires w.origin.Ok? && w.parses(Download.AttachmentDownloadUrl(w.origin.value, link))
    requires dest.Some?
    ensures AttachmentDownload(ctx, id, dest, w).result
      == w.fetch(Download.AttachmentDownloadUrl(w.origin.value, link), dest.value, "attachment " + id)
  {
    var json := w.attachment.value;
    assert Get(json, "downloadLink") == None;
    assert ["_links", "download"][1..] == ["download"];
    assert GetPath(json, ["_links", "download"]) == Some(JStr(link));
  }

  /** A file is written only under the given destination or under the last
      component of the attachment title, in the working directory. */
  lemma DownloadDestination(ctx: Ctx, id: string, dest: Option<Path>, w: DownloadWorld)
    requires AttachmentDownload(ctx, id, dest, w).result.Ok?
    ensures exists path: Path, request: Download.UrlRequest ::
      w.fetch(request, path, "attachment " + id).Ok?
      && (dest.Some? ==> path == dest.value)
      && (dest.None? ==> !path.absolute && |path.parts| == 1 && path.parts[0] != ".."
                         && Some(path.parts[0]) == FileName(FromString(GetStr(w.attachment.value, "title").GetOr(""))))
  {
    var json := w.attachment.value;
    var request := Download.AttachmentDownloadUrl(w.origin.value, DownloadLink(json).value);
    var path := ResolveDownloadPath(dest, json).value;
    if dest.None? {
      DerivedPathStaysHere(json);
    }
    assert w.fetch(request, path, "attachment " + id).Ok?;
  }

  // ------------------------------------------------------------ upload approval

  /** Files larger than this many bytes are uploaded only after a yes. */
  const LARGE: nat := 5 * 1024 * 1024

  /** The approval loop's state: the positions of the approved files and of
      the declined ones, and the error that ended the loop, if any. */
  datatype Approval = Approval(approved: seq<nat>, skipped: seq<nat>, error: Option<string>)

  /** The turn of the file at position `i`: `size` is its length or the error
      of reading its metadata, `confirm` the answer to the prompt, which is
      only asked for a large file. */
  function Consider(a: Approval, i: nat, size: Result<nat>, confirm: Result<bool>): Approval {
    match size
    case Err(e) => a.(error := Some(e))
    case Ok(s) =>
      if s <= LARGE then a.(approved := a.approved + [i])
      else
        match confirm
        case Err(e) => a.(error := Some(e))
        case Ok(yes) =>
          if yes then a.(approved := a.approved + [i]) else a.(skipped := a.skipped + [i])
  }

  /** The loop over the first `n` files, stopping at the first error. */
  function Approve(n: nat, size: nat -> Result<nat>, confirm: nat -> Result<bool>): Approval
    decreases n
  {
    if n == 0 then Approval([], [], None)
    else
      var a := Approve(n - 1, size, confirm);
      if a.error.Some? then a else Consider(a, n - 1, size(n - 1), confirm(n - 1))
  }

  /** Strictly increasing positions below `n`. */
  predicate Ascending(idx: seq<nat>, n: nat) {
    (forall j :: 0 <= j < |idx| ==> idx[j] < n)
    && forall j, k :: 0 <= j < k < |idx| ==> idx[j] < idx[k]
  }

  lemma AscendingSnoc(idx: seq<nat>, n: nat)
    requires Ascending(idx, n)
    ensures Ascending(idx + [n], n + 1)
  {
  }

  lemma AscendingWiden(idx: seq<nat>, n: nat)
    requires Ascending(idx, n)
    ensures Ascending(idx, n + 1)
  {
  }

  /** One turn adds its position to at most one of the two lists. */
  predicate Grows(a: Approval, b: Approval, i: nat) {
    (b.approved == a.approved && b.skipped == a.skipped)
    || (b.approved == a.approved + [i] && b.skipped == a.skipped)
    || (b.approved == a.approved && b.skipped == a.skipped + [i])
  }

  lemma ConsiderGrows(a: Approval, i: nat, size: Result<nat>, confirm: Result<bool>)
    ensures Grows(a, Consider(a, i, size, confirm), i)
  {
  }

  /** Positions below `n` that are in at most one of two lists. */
  predicate Apart(xs: seq<nat>, ys: seq<nat>) {
    forall i :: i in xs ==> i !in ys
  }

  lemma GrowsOrdered(a: Approval, b: Approval, i: nat)
    requires Grows(a, b, i)
    requires Ascending(a.approved, i) && Ascending(a.skipped, i) && Apart(a.approved, a.skipped)
    ensures Ascending(b.approved, i + 1) && Ascending(b.skipped, i + 1) && Apart(b.approved, b.skipped)
  {
    AscendingWiden(a.approved, i);
    AscendingWiden(a.skipped, i);
    AscendingSnoc(a.approved, i);
    AscendingSnoc(a.skipped, i);
  }

  /** Approved and declined files keep their order on the command line, and
      each position is in at most one of the two lists. */
  lemma {:induction false} ApproveOrdered(n: nat, size: nat -> Result<nat>, confirm: nat -> Result<bool>)
    ensures Ascending(Approve(n, size, confirm).approved, n)
    ensures Ascending(Approve(n, size, confirm).skipped, n)
    ensures Apart(Approve(n, size, confirm).approved, Approve(n, size, confirm).skipped)
    decreases n
  {
    if n > 0 {
      ApproveOrdered(n - 1, size, confirm);
      ApproveGrows(n, size, confirm);
      GrowsOrdered(Approve(n - 1, size, confirm), Approve(n, size, confirm), n - 1);
    }
  }

  lemma ApproveGrows(n: nat, size: nat -> Result<nat>, confirm: nat -> Result<bool>)
    requires n > 0
    ensures Grows(Approve(n - 1, size, confirm), Approve(n, size, confirm), n - 1)
  {
    var a := Approve(n - 1, size, confirm);
    if a.error.None? {
      ConsiderGrows(a, n - 1, size(n - 1), confirm(n - 1));
    }
  }

  /** Whether the file at position `i` goes up, given that its turn came. */
  predicate Approved(i: nat, size: nat -> Result<nat>, confirm: nat -> Result<bool>) {
    size(i).Ok? && (size(i).value <= LARGE || confirm(i) == Ok(true))
  }

  /** Without an error every file had its turn: a file is approved exactly
      when it is small or its prompt was answered yes, and declined exactly
      when it is large and the answer was no. */
  lemma {:induction false} ApproveComplete(n: nat, size: nat -> Result<nat>, confirm: nat -> Result<bool>, i: nat)
    requires Approve(n, size, confirm).error.None? && i < n
    ensures size(i).Ok?
    ensures size(i).value > LARGE ==> confirm(i).Ok?
    ensures i in Approve(n, size, confirm).approved <==> Approved(i, size, confirm)
    ensures i in Approve(n, size, confirm).skipped <==> size(i).value > LARGE && confirm(i) == Ok(false)
    decreases n
  {
    ApproveOrdered(n - 1, size, confirm);
    var a := Approve(n - 1, size, confirm);
    if i < n - 1 {
      ApproveComplete(n - 1, size, confirm, i);
    }
  }

  /** An error ends the loop at the first file whose metadata or prompt
      failed: every earlier file had its turn, and the error is that file's. */
  lemma {:induction false} ApproveStops(n: nat, size: nat -> Result<nat>, confirm: nat -> Result<bool>)
    returns (k: nat)
    requires Approve(n, size, confirm).error.Some?
    ensures k < n && Approve(k, size, confirm).error.None?
    ensures Approve(n, size, confirm) == Consider(Approve(k, size, confirm), k, size(k), confirm(k))
    ensures var e := Approve(n, size, confirm).error.value;
      size(k) == Err(e) || (size(k).Ok? && size(k).value > LARGE && confirm(k) == Err(e))
    decreases n
  {
    var a := Approve(n - 1, size, confirm);
    if a.error.Some? {
      k := ApproveStops(n - 1, size, confirm);
    } else {
      k := n - 1;
    }
  }

  /** The elements of `s` at the positions `idx`, in that order. */
  function Picks<T>(s: seq<T>, idx: seq<nat>): (r: seq<T>)
    requires forall j :: 0 <= j < |idx| ==> idx[j] < |s|
    ensures |r| == |idx|
    decreases |idx|
  {
    if idx == [] then [] else Picks(s, idx[..|idx| - 1]) + [s[idx[|idx| - 1]]]
  }

  /** The line shown for a declined file. */
  function SkipLine(file: Path): Shown {
    Line("Skipped " + Display(file) + ".")
  }

  /** The lines the approval loop shows: one per declined file, in order. */
  function SkipLines(ctx: Ctx, files: seq<Path>, skipped: seq<nat>): (r: seq<Shown>)
    requires forall j :: 0 <= j < |skipped| ==> skipped[j] < |files|
    ensures ctx.quiet ==> r == []
    ensures !ctx.quiet ==> |r| == |skipped|
    decreases |skipped|
  {
    if skipped == [] then []
    else SkipLines(ctx, files, skipped[..|skipped| - 1]) + Show(ctx, SkipLine(files[skipped[|skipped| - 1]]))
  }

  lemma PicksSnoc<T>(s: seq<T>, idx: seq<nat>, i: nat)
    requires (forall j :: 0 <= j < |idx| ==> idx[j] < |s|) && i < |s|
    ensures Picks(s, idx + [i]) == Picks(s, idx) + [s[i]]
  {
    assert (idx + [i])[..|idx|] == idx;
  }

  lemma SkipLinesSnoc(ctx: Ctx, files: seq<Path>, skipped: seq<nat>, i: nat)
    requires (forall j :: 0 <= j < |skipped| ==> skipped[j] < |files|) && i < |files|
    ensures SkipLines(ctx, files, skipped + [i]) == SkipLines(ctx, files, skipped) + Show(ctx, SkipLine(files[i]))
  {
    assert (skipped + [i])[..|skipped|] == skipped;
  }

  /** One file's turn of the approval loop, on the state `a` that the
      approved files and the lines shown so far stand for; `b` is the state
      after it. */
  method ApproveTurn(ctx: Ctx, files: seq<Path>, i: nat, size: Result<nat>, confirm: Result<bool>,
                     ghost a: Approval, approved0: seq<Path>, shown0: seq<Shown>)
    returns (error: Option<string>, ghost b: Approval, approved: seq<Path>, shown: seq<Shown>)
    requires i < |files| && a.error.None? && Ascending(a.approved, i) && Ascending(a.skipped, i)
    requires approved0 == Picks(files, a.approved) && shown0 == SkipLines(ctx, files, a.skipped)
    ensures b == Consider(a, i, size, confirm)
    ensures Ascending(b.approved, i + 1) && Ascending(b.skipped, i + 1)
    ensures error == b.error
    ensures approved == Picks(files, b.approved) && shown == SkipLines(ctx, files, b.skipped)
  {
    b := Consider(a, i, size, confirm);
    PicksSnoc(files, a.approved, i);
    SkipLinesSnoc(ctx, files, a.skipped, i);
    AscendingWiden(a.approved, i);
    AscendingWiden(a.skipped, i);
    AscendingSnoc(a.approved, i);
    AscendingSnoc(a.skipped, i);
    approved, shown, error := approved0, shown0, None;
    match size {
      case Err(e) =>
        error := Some(e);
      case Ok(s) =>
        if s > LARGE {
          match confirm {
            case Err(e) =>
              error := Some(e);
            case Ok(yes) =>
              if yes {
                approved := approved0 + [files[i]];
              } else {
                shown := shown0 + Show(ctx, SkipLine(files[i]));
              }
          }
        } else {
          approved := approved0 + [files[i]];
        }
    }
  }

  /** The approval loop of `attachment_upload`: `size(i)` is the metadata
      length of `files[i]` (or the error of reading it) and `confirm(i)` the
      answer to its prompt. */
  method ApproveFiles(ctx: Ctx, files: seq<Path>, size: nat -> Result<nat>, confirm: nat -> Result<bool>)
    returns (approved: seq<Path>, shown: seq<Shown>, error: Option<string>)
    ensures Ascending(Approve(|files|, size, confirm).approved, |files|)
    ensures Ascending(Approve(|files|, size, confirm).skipped, |files|)
    ensures error == Approve(|files|, size, confirm).error
    ensures approved == Picks(files, Approve(|files|, size, confirm).approved)
    ensures shown == SkipLines(ctx, files, Approve(|files|, size, confirm).skipped)
  {
    approved, shown, error := [], [], None;
    ghost var a := Approval([], [], None);
    var n, i := |files|, 0;
    while i < n && error.None?
      invariant 0 <= i <= n && n == |files|
      invariant a == Approve(i, size, confirm) && error == a.error
      invariant Ascending(a.approved, i) && Ascending(a.skipped, i)
      invariant approved == Picks(files, a.approved) && shown == SkipLines(ctx, files, a.skipped)
    {
      ApproveNext(i, size, confirm);
      error, a, approved, shown := ApproveTurn(ctx, files, i, size(i), confirm(i), a, approved, shown);
      i := i + 1;
    }
    Settled(i, n, size, confirm);
    ApproveOrdered(n, size, confirm);
  }

  lemma ApproveNext(i: nat, size: nat -> Result<nat>, confirm: nat -> Result<bool>)
    requires Approve(i, size, confirm).error.None?
    ensures Approve(i + 1, size, confirm) == Consider(Approve(i, size, confirm), i, size(i), confirm(i))
  {
  }

  /** Once the loop has stopped, later files change nothing. */
  lemma {:induction false} Settled(k: nat, n: nat, size: nat -> Result<nat>, confirm: nat -> Result<bool>)
    requires k <= n && (k == n || Approve(k, size, confirm).error.Some?)
    ensures Approve(n, size, confirm) == Approve(k, size, confirm)
    decreases n - k
  {
    if k < n {
      Settled(k, n - 1, size, confirm);
    }
  }

  // -------------------------------------------------------------- upload tasks

  const UPLOAD_FAILED: string := "Attachment upload failed"
  const TASK_FAILED: string := "Attachment upload task failed: "

  /** What a task ends with: `upload_attachment`'s response or error, or the
      join error of a task that panicked or was cancelled. */
  datatype Joined = Done(response: Result<Json>) | JoinFailed(error: string)

  /** The attachment a response describes: the first of its `results` when
      that is a non-empty array, else the whole response. */
  function Picked(response: Json): (r: Json)
    ensures (match Get(response, "results") case Some(JArr(items)) => items != [] case _ => false) ==>
      r == Get(response, "results").value.items[0]
    ensures !(match Get(response, "results") case Some(JArr(items)) => items != [] case _ => false) ==>
      r == response
  {
    match Get(response, "results")
    case Some(JArr(items)) => if items != [] then items[0] else response
    case _ => response
  }

  /** The awaiting loop over tasks finishing in `order`: the pairs of task
      index and attachment in the order the tasks finished, or the error of
      the first task that failed. */
  function Awaited(order: seq<nat>, joined: nat -> Joined): Result<seq<(nat, Json)>>
    decreases |order|
  {
    if order == [] then Ok([])
    else
      match Awaited(order[..|order| - 1], joined)
      case Err(e) => Err(e)
      case Ok(ps) =>
        var idx := order[|order| - 1];
        match joined(idx)
        case JoinFailed(e) => Err(TASK_FAILED + e)
        case Done(Err(_)) => Err(UPLOAD_FAILED)
        case Done(Ok(response)) => Ok(ps + [(idx, Picked(response))])
  }

  lemma {:induction false} AwaitedStopped(order: seq<nat>, joined: nat -> Joined, k: nat)
    requires k <= |order| && Awaited(order[..k], joined).Err?
    ensures Awaited(order, joined) == Awaited(order[..k], joined)
    decreases |order| - k
  {
    if k < |order| {
      var init := order[..|order| - 1];
      assert init[..k] == order[..k];
      AwaitedStopped(init, joined, k);
      assert order[..|order|] == order;
    } else {
      assert order[..k] == order;
    }
  }

  /** The awaiting loop of `attachment_upload`: collects the finished tasks'
      attachments and stops at the first failure; the aborted tasks are not
      awaited any further. */
  method AwaitTasks(order: seq<nat>, joined: nat -> Joined) returns (r: Result<seq<(nat, Json)>>)
    ensures r == Awaited(order, joined)
  {
    var ordered: seq<(nat, Json)> := [];
    var i := 0;
    while i < |order|
      invariant 0 <= i <= |order|
      invariant Awaited(order[..i], joined) == Ok(ordered)
    {
      assert order[..i + 1][..i] == order[..i];
      match joined(order[i]) {
        case JoinFailed(e) =>
          AwaitedStopped(order, joined, i + 1);
          return Err(TASK_FAILED + e);
        case Done(Err(_)) =>
          AwaitedStopped(order, joined, i + 1);
          return Err(UPLOAD_FAILED);
        case Done(Ok(response)) =>
          ordered := ordered + [(order[i], Picked(response))];
      }
      i := i + 1;
    }
    assert order[..i] == order;
    r := Ok(ordered);
  }

  /** The result is `Ok` exactly when every task finished with a response,
      and then it pairs each task, in finishing order, with its attachment. */
  lemma {:induction false} AwaitedAll(order: seq<nat>, joined: nat -> Joined)
    ensures Awaited(order, joined).Ok? <==>
      forall j :: 0 <= j < |order| ==> joined(order[j]).Done? && joined(order[j]).response.Ok?
    ensures Awaited(order, joined).Ok? ==>
      (|Awaited(order, joined).value| == |order|
       && forall j :: 0 <= j < |order| ==>
            Awaited(order, joined).value[j] == (order[j], Picked(joined(order[j]).response.value)))
    decreases |order|
  {
    if order != [] {
      var init := order[..|order| - 1];
      AwaitedAll(init, joined);
      forall j | 0 <= j < |init| ensures init[j] == order[j] { }
    }
  }

  /** A failure is that of the first task, in finishing order, that did not
      bring back a response; the tasks before it did. */
  lemma {:induction false} AwaitedFirstError(order: seq<nat>, joined: nat -> Joined) returns (k: nat)
    requires Awaited(order, joined).Err?
    ensures k < |order|
    ensures forall j :: 0 <= j < k ==> joined(order[j]).Done? && joined(order[j]).response.Ok?
    ensures match joined(order[k])
      case JoinFailed(e) => Awaited(order, joined).error == TASK_FAILED + e
      case Done(Err(_)) => Awaited(order, joined).error == UPLOAD_FAILED
      case Done(Ok(_)) => false
    decreases |order|
  {
    var init := order[..|order| - 1];
    if Awaited(init, joined).Err? {
      k := AwaitedFirstError(init, joined);
      assert init[k] == order[k];
      forall j | 0 <= j < k ensures init[j] == order[j] { }
    } else {
      k := |order| - 1;
      AwaitedAll(init, joined);
      forall j | 0 <= j < k ensures init[j] == order[j] { }
    }
  }

  /** The key `sort_by_key` sorts the pairs by: the task index. */
  function TaskIndex(p: (nat, Json)): int {
    p.0
  }

  /** The attachments put back into task order, as `sort_by_key` on the
      index leaves them. */
  function Restored(pairs: seq<(nat, Json)>): (r: seq<Json>)
    ensures |r| == |pairs|
  {
    var sorted := Sorting.SortByKey(pairs, TaskIndex);
    seq(|sorted|, k requires 0 <= k < |sorted| => sorted[k].1)
  }

  /** `order` names every one of the `n` tasks exactly once, as `join_next`
      hands each spawned task back once. */
  predicate EachOnce(order: seq<nat>, n: nat) {
    |order| == n
    && (forall j :: 0 <= j < n ==> order[j] < n)
    && forall j, k :: 0 <= j < k < n ==> order[j] != order[k]
  }

  /** The output is in the order of the approved files, whatever order the
      tasks finished in: the `k`-th attachment is task `k`'s. */
  lemma UploadOrderRestored(order: seq<nat>, joined: nat -> Joined, n: nat)
    requires EachOnce(order, n) && Awaited(order, joined).Ok?
    ensures forall k :: 0 <= k < n ==> joined(k).Done? && joined(k).response.Ok?
    ensures var r := Restored(Awaited(order, joined).value);
      |r| == n && forall k :: 0 <= k < n ==> r[k] == Picked(joined(k).response.value)
  {
    AwaitedAll(order, joined);
    var pairs := Awaited(order, joined).value;
    forall i, j | 0 <= i < j < |pairs| ensures TaskIndex(pairs[i]) != TaskIndex(pairs[j]) {
      assert pairs[i].0 == order[i] && pairs[j].0 == order[j];
    }
    forall i | 0 <= i < |pairs| ensures pairs[i].0 < |pairs| {
      assert pairs[i].0 == order[i];
    }
    RestoredPositions(pairs);
    forall k | 0 <= k < n ensures joined(k).Done? && joined(k).response.Ok?
      && Restored(pairs)[k] == Picked(joined(k).response.value)
    {
      assert (k, Restored(pairs)[k]) in pairs;
      var m :| 0 <= m < |pairs| && pairs[m] == (k, Restored(pairs)[k]);
      assert order[m] == k;
    }
  }

  /** Pairs whose indices are 0, 1, ..., n - 1 in some order come back with
      the attachment of index `k` at position `k`. */
  lemma RestoredPositions(pairs: seq<(nat, Json)>)
    requires Sorting.DistinctKeys(pairs, TaskIndex)
    requires forall i :: 0 <= i < |pairs| ==> pairs[i].0 < |pairs|
    ensures forall k: nat :: k < |pairs| ==> (k, Restored(pairs)[k]) in pairs
  {
    forall i | 0 <= i < |pairs| ensures 0 <= TaskIndex(pairs[i]) < |pairs| { }
    Sorting.SortByKeyIndices(pairs, TaskIndex);
    var sorted := Sorting.SortByKey(pairs, TaskIndex);
    forall k: nat | k < |pairs| ensures (k, Restored(pairs)[k]) in pairs {
      assert sorted[k] in pairs && TaskIndex(sorted[k]) == k;
      assert sorted[k] == (k, Restored(pairs)[k]);
    }
  }

  // ---------------------------------------------------------- upload handler

  /** One `upload_attachment` request: the multipart POST of a file with the
      optional comment. */
  datatype Upload = Upload(call: Call, file: Path, comment: Option<string>)

  function UploadOf(pageId: string, file: Path, comment: Option<string>): Upload {
    Upload(Call(POST, V1, "/content/" + pageId + "/child/attachment", [], None), file, comment)
  }

  function UploadsOf(pageId: string, files: seq<Path>, comment: Option<string>): (r: seq<Upload>)
    ensures |r| == |files| && forall k :: 0 <= k < |files| ==> r[k] == UploadOf(pageId, files[k], comment)
    decreases |files|
  {
    if files == [] then [] else UploadsOf(pageId, files[..|files| - 1], comment) + [UploadOf(pageId, files[|files| - 1], comment)]
  }

  datatype UploadArgs = UploadArgs(files: seq<Path>, comment: Option<string>, output: Format)

  /** What `attachment upload` is given: the resolved page id, each file's
      size and prompt answer by position, the order in which the tasks
      finish and what each task ends with. */
  datatype UploadWorld = UploadWorld(
    pageId: Result<string>,
    size: nat -> Result<nat>,
    confirm: nat -> Result<bool>,
    order: seq<nat>,
    joined: nat -> Joined)

  /** The uploads started, what was shown and the result. */
  datatype Uploaded = Uploaded(uploads: seq<Upload>, shown: seq<Shown>, result: Result<()>)

  /** The dry-run line. */
  function WouldUpload(files: seq<Path>, pageId: string): string {
    "Would upload " + Join(DisplayAll(files), ", ") + " to page " + pageId
  }

  function DisplayAll(files: seq<Path>): (r: seq<string>)
    ensures |r| == |files| && forall k :: 0 <= k < |files| ==> r[k] == Display(files[k])
    decreases |files|
  {
    if files == [] then [] else DisplayAll(files[..|files| - 1]) + [Display(files[|files| - 1])]
  }

  /** The ID and title rows of one uploaded attachment. */
  function UploadRow(attachment: Json): Shown {
    Pairs([["ID", JsonStr(attachment, "id")], ["Title", JsonStr(attachment, "title")]])
  }

  /** The rows of each uploaded attachment, in order. */
  function UploadRows(ctx: Ctx, attachments: seq<Json>): (r: seq<Shown>)
    ensures ctx.quiet ==> r == []
    ensures !ctx.quiet ==> |r| == |attachments| && forall k :: 0 <= k < |attachments| ==> r[k] == UploadRow(attachments[k])
    decreases |attachments|
  {
    if attachments == [] then []
    else UploadRows(ctx, attachments[..|attachments| - 1]) + Show(ctx, UploadRow(attachments[|attachments| - 1]))
  }

  /** The output of the uploaded attachments: the JSON array, or the rows of
      each one. */
  function UploadOutput(ctx: Ctx, output: Format, attachments: seq<Json>): seq<Shown> {
    if output == JsonFormat then Show(ctx, JsonOut(JArr(attachments))) else UploadRows(ctx, attachments)
  }

  /** `attachment_upload`. */
  method AttachmentUpload(ctx: Ctx, args: UploadArgs, w: UploadWorld) returns (out: Uploaded)
    ensures w.pageId.Err? ==> out == Uploaded([], [], Err(w.pageId.error))
    ensures w.pageId.Ok? && ctx.dryRun ==>
      out == Uploaded([], Show(ctx, Line(WouldUpload(args.files, w.pageId.value))), Ok(()))
    ensures w.pageId.Ok? && !ctx.dryRun ==>
      var a := Approve(|args.files|, w.size, w.confirm);
      Ascending(a.approved, |args.files|) && Ascending(a.skipped, |args.files|)
      && (a.error.Some? ==>
            out == Uploaded([], SkipLines(ctx, args.files, a.skipped), Err(a.error.value)))
      && (a.error.None? ==>
            var approved := Picks(args.files, a.approved);
            var skips := SkipLines(ctx, args.files, a.skipped);
            var tasks := Awaited(w.order, w.joined);
            out.uploads == UploadsOf(w.pageId.value, approved, args.comment)
            && (approved == [] ==> out.shown == skips && out.result == Ok(()))
            && (approved != [] && tasks.Err? ==> out.shown == skips && out.result == Err(tasks.error))
            && (approved != [] && tasks.Ok? ==>
                  out.shown == skips + UploadOutput(ctx, args.output, Restored(tasks.value))
                  && out.result == Ok(())))
  {
    if w.pageId.Err? {
      return Uploaded([], [], Err(w.pageId.error));
    }
    var pageId := w.pageId.value;
    if ctx.dryRun {
      return Uploaded([], Show(ctx, Line(WouldUpload(args.files, pageId))), Ok(()));
    }
    var approved, shown, error := ApproveFiles(ctx, args.files, w.size, w.confirm);
    if error.Some? {
      return Uploaded([], shown, Err(error.value));
    }
    if approved == [] {
      return Uploaded([], shown, Ok(()));
    }
    var uploads := UploadsOf(pageId, approved, args.comment);
    var tasks := AwaitTasks(w.order, w.joined);
    if tasks.Err? {
      return Uploaded(uploads, shown, Err(tasks.error));
    }
    out := Uploaded(uploads, shown + UploadOutput(ctx, args.output, Restored(tasks.value)), Ok(()));
  }

  // ------------------------------------------------------------------- delete

  datatype DeleteArgs = DeleteArgs(id: string, purge: bool, yes: bool, output: Option<Format>)

  function Action(purge: bool): string {
    if purge then "purge" else "delete"
  }

  /** The path of the DELETE request: `?purge=true` is added for `--purge`. */
  function DeletePath(id: string, purge: bool): string {
    "/attachments/" + id + (if purge then "?purge=true" else "")
  }

  const CANCELLED: string := "Cancelled."
  const USE_YES: string := ". Use --yes to skip confirmation in non-interactive shells."

  /** `attachment_delete`: `confirm` is the answer to the prompt (asked only
      without `--yes`) and `deleted` what the DELETE request came to. */
  function AttachmentDelete(ctx: Ctx, args: DeleteArgs, confirm: Result<bool>, deleted: Result<()>): (r: Run)
    ensures ctx.dryRun ==> r.calls == [] && r.result == Ok(())
    ensures ctx.dryRun ==> r.shown == WriteActionResult(ctx, args.output,
      "Would " + Action(args.purge) + " attachment " + args.id,
      JObj(map["dryRun" := JBool(true), "action" := JStr(Action(args.purge)), "deleted" := JBool(false), "id" := JStr(args.id)]),
      [["DryRun", "true"], ["Action", Action(args.purge)], ["Deleted", "false"], ["ID", args.id]])
    ensures !ctx.dryRun && !args.yes && confirm.Err? ==>
      r == Run([], [], Err(confirm.error + USE_YES))
    ensures !ctx.dryRun && !args.yes && confirm == Ok(false) ==>
      r == Run([], Show(ctx, Line(CANCELLED)), Ok(()))
    ensures r.calls != [] <==> !ctx.dryRun && (args.yes || confirm == Ok(true))
    ensures r.calls != [] ==>
      r.calls == [Call(DELETE, V2, DeletePath(args.id, args.purge), [], None)]
      && (deleted.Err? ==> r.shown == [] && r.result == Err(deleted.error))
      && (deleted.Ok? ==> r.result == Ok(()) && r.shown == WriteActionResult(ctx, args.output,
            (if args.purge then "Purged" else "Deleted") + " attachment " + args.id,
            JObj(map["action" := JStr(Action(args.purge)), "deleted" := JBool(true), "id" := JStr(args.id)]),
            [["Action", Action(args.purge)], ["Deleted", "true"], ["ID", args.id]]))
  {
    var action := Action(args.purge);
    if ctx.dryRun then
      Run([], WriteActionResult(ctx, args.output, "Would " + action + " attachment " + args.id,
            JObj(map["dryRun" := JBool(true), "action" := JStr(action), "deleted" := JBool(false), "id" := JStr(args.id)]),
            [["DryRun", "true"], ["Action", action], ["Deleted", "false"], ["ID", args.id]]), Ok(()))
    else if !args.yes && confirm.Err? then Fails([], confirm.error + USE_YES)
    else if !args.yes && !confirm.value then Says(ctx, Line(CANCELLED))
    else
      var calls := [Call(DELETE, V2, DeletePath(args.id, args.purge), [], None)];
      match deleted
      case Err(e) => Fails(calls, e)
      case Ok(_) =>
        Run(calls, WriteActionResult(ctx, args.output,
              (if args.purge then "Purged" else "Deleted") + " attachment " + args.id,
              JObj(map["action" := JStr(action), "deleted" := JBool(true), "id" := JStr(args.id)]),
              [["Action", action], ["Deleted", "true"], ["ID", args.id]]), Ok(()))
  }

  /** After the attachment's own path, the request carries `?purge=true`
      exactly for a purge and nothing otherwise, and the action word says
      the same. */
  lemma PurgeIff(id: string, purge: bool)
    ensures var base := "/attachments/" + id;
      var p := DeletePath(id, purge);
      StartsWith(p, base)
      && (p[|base|..] == "?purge=true" <==> purge)
      && (p[|base|..] == "" <==> !purge)
      && (Action(purge) == "purge" <==> purge)
  {
    var base := "/attachments/" + id;
    var p := DeletePath(id, purge);
    assert p[..|base|] == base;
    if purge {
      assert p[|base|..] == "?purge=true";
    } else {
      assert p == base;
    }
  }
}
