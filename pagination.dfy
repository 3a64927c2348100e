/**
 * Next-page discovery of src/pagination.rs: the `Link` response header (a
 * simplified reading of section 3 of RFC 8288) and the `_links.next` field of a
 * response body.
 */
module Pagination {
  import opened Wrappers
  import opened Strings
  import opened Json
  import opened Http

  /** What one comma-separated piece of a `Link` header value holds, after trimming. */
  datatype Segment =
    | Missing                                  // no `<` or no `>`
    | Backwards(lt: nat, gt: nat)              // the first `>` comes before the first `<`
    | Link(lt: nat, gt: nat, url: string, rel: string)

  /** The first `<` and the first `>` of a trimmed segment, the text between
      them and the trimmed text after the `>`. */
  function ParseTrimmed(t: string): (seg: Segment)
    ensures seg.Missing? <==> '<' !in t || '>' !in t
    ensures !seg.Missing? ==> seg.lt < |t| && t[seg.lt] == '<' && '<' !in t[..seg.lt]
    ensures !seg.Missing? ==> seg.gt < |t| && t[seg.gt] == '>' && '>' !in t[..seg.gt]
    ensures seg.Backwards? <==> !seg.Missing? && seg.gt < seg.lt
    ensures seg.Link? ==> seg.lt < seg.gt
  {
    match IndexOf(t, '<')
    case None => Missing
    case Some(lt) =>
      match IndexOf(t, '>')
      case None => Missing
      case Some(gt) =>
        if gt < lt then Backwards(lt, gt)
        else Link(lt, gt, t[lt + 1..gt], Trim(t[gt + 1..]))
  }

  function ParseSegment(part: string): Segment {
    ParseTrimmed(Trim(part))
  }

  predicate IsNextRel(rel: string) {
    Contains(rel, "rel=\"next\"") || Contains(rel, "rel=next")
  }

  /** A well-formed link segment whose relation is not `next`: the scan moves on. */
  predicate PassesOver(part: string) {
    var s := ParseSegment(part);
    s.Link? && !IsNextRel(s.rel)
  }

  predicate NextLinkSegment(part: string) {
    var s := ParseSegment(part);
    s.Link? && IsNextRel(s.rel)
  }

  /** Position `k` holds the link the scan returns: every earlier segment is a
      well-formed non-`next` link and segment `k` is a `next` link. */
  predicate NextAt(parts: seq<string>, k: int) {
    0 <= k < |parts| && NextLinkSegment(parts[k])
    && forall j :: 0 <= j < k ==> PassesOver(parts[j])
  }

  /** The loop of `next_link_from_headers` over the segments, left to right. A
      segment without `<` or `>` ends the scan with `None`; so does a backwards
      segment, which the code as written cannot get past (see `ScanAsWritten`). */
  function ScanSegments(parts: seq<string>): (r: Option<string>)
    ensures r.Some? <==> exists k :: NextAt(parts, k)
    ensures forall k :: NextAt(parts, k) ==> r == Some(ParseSegment(parts[k]).url)
  {
    if parts == [] then None
    else if NextLinkSegment(parts[0]) then
      assert NextAt(parts, 0);
      NextAtFirst(parts);
      Some(ParseSegment(parts[0]).url)
    else if PassesOver(parts[0]) then
      NextAtTail(parts);
      ScanSegments(parts[1..])
    else
      NextAtFirst(parts);
      None
  }

  lemma NextAtFirst(parts: seq<string>)
    requires |parts| > 0 && !PassesOver(parts[0])
    ensures forall k :: NextAt(parts, k) ==> k == 0
  {
  }

  lemma NextAtTail(parts: seq<string>)
    requires |parts| > 0 && PassesOver(parts[0])
    ensures (exists k :: NextAt(parts, k)) <==> (exists k :: NextAt(parts[1..], k))
    ensures forall k :: NextAt(parts, k) ==> NextAt(parts[1..], k - 1)
  {
    forall k | NextAt(parts, k) ensures NextAt(parts[1..], k - 1) {
      assert k != 0;
      forall j | 0 <= j < k - 1 ensures PassesOver(parts[1..][j]) {
        assert parts[1..][j] == parts[j + 1];
      }
    }
    if k :| NextAt(parts[1..], k) {
      forall j | 0 <= j < k + 1 ensures PassesOver(parts[j]) {
        if j > 0 {
          assert parts[j] == parts[1..][j - 1];
        }
      }
      assert NextAt(parts, k + 1);
    }
  }

  /** `next_link_from_headers`, with a backwards segment read as malformed. */
  function NextLinkFromHeaders(h: Headers): (r: Option<string>)
    ensures HeaderStr(h, "link").None? ==> r.None?
    ensures HeaderStr(h, "link").Some? ==> r == ScanSegments(Split(HeaderStr(h, "link").value, ','))
  {
    match HeaderStr(h, "link")
    case None => None
    case Some(v) => ScanSegments(Split(v, ','))
  }

  /** A missing `link` header, or one that is not visible ASCII, gives no link. */
  lemma NoLinkHeader(h: Headers)
    requires "link" !in h
    ensures NextLinkFromHeaders(h) == None
  {
  }

  /** A segment lacking `<` or `>` stops the scan even when a later segment
      carries the `next` relation. */
  lemma {:induction false} MissingBracketStops(parts: seq<string>, k: nat)
    requires k < |parts| && ParseSegment(parts[k]).Missing?
    requires forall j :: 0 <= j < k ==> PassesOver(parts[j])
    ensures ScanSegments(parts) == None
  {
    if k > 0 {
      assert PassesOver(parts[0]);
      forall j | 0 <= j < k - 1 ensures PassesOver(parts[1..][j]) {
        assert parts[1..][j] == parts[j + 1];
      }
      MissingBracketStops(parts[1..], k - 1);
    }
  }

  /** The loop as written: on a backwards segment the slice `[lt + 1..gt]` has
      its start past its end, and the process panics. */
  datatype ScanOutcome = Panicked | Returned(link: Option<string>)

  function ScanAsWritten(parts: seq<string>): (r: ScanOutcome)
    ensures r.Panicked? ==> SomeBackwards(parts)
    ensures r.Returned? && r.link.Some? ==> SomeLinkTo(parts, r.link.value)
  {
    if parts == [] then Returned(None)
    else
      match ParseSegment(parts[0])
      case Missing => Returned(None)
      case Backwards(_, _) => assert ParseSegment(parts[0]).Backwards?; Panicked
      case Link(_, _, url, rel) =>
        if IsNextRel(rel) then assert ParseSegment(parts[0]).url == url; Returned(Some(url))
        else
          var rest := ScanAsWritten(parts[1..]);
          SomeShift(parts);
          rest
  }

  /** Some segment has its first `>` before its first `<`. */
  predicate SomeBackwards(parts: seq<string>) {
    exists k :: 0 <= k < |parts| && ParseSegment(parts[k]).Backwards?
  }

  /** `url` lies between the brackets of some well-formed segment. */
  predicate SomeLinkTo(parts: seq<string>, url: string) {
    exists k :: 0 <= k < |parts| && ParseSegment(parts[k]).Link? && ParseSegment(parts[k]).url == url
  }

  /** What holds of some later segment holds of some segment. */
  lemma SomeShift(parts: seq<string>)
    requires parts != []
    ensures SomeBackwards(parts[1..]) ==> SomeBackwards(parts)
    ensures forall url :: SomeLinkTo(parts[1..], url) ==> SomeLinkTo(parts, url)
  {
    if SomeBackwards(parts[1..]) {
      var k :| 0 <= k < |parts[1..]| && ParseSegment(parts[1..][k]).Backwards?;
      assert parts[1..][k] == parts[k + 1];
    }
    forall url | SomeLinkTo(parts[1..], url) ensures SomeLinkTo(parts, url) {
      var k :| 0 <= k < |parts[1..]| && ParseSegment(parts[1..][k]).Link? && ParseSegment(parts[1..][k]).url == url;
      assert parts[1..][k] == parts[k + 1];
    }
  }

  function NextLinkFromHeadersAsWritten(h: Headers): ScanOutcome {
    match HeaderStr(h, "link")
    case None => Returned(None)
    case Some(v) => ScanAsWritten(Split(v, ','))
  }

  /** A `link` header whose first segment starts with `>` and holds a `<`
      later makes the code as written panic. */
  lemma {:induction false} BackwardsSegmentPanics(h: Headers, v: string)
    requires h == map["link" := v] && VisibleAscii(v)
    requires |v| >= 2 && v[0] == '>' && !IsWhitespace(v[|v| - 1]) && '<' in v && ',' !in v
    ensures NextLinkFromHeadersAsWritten(h).Panicked?
  {
    assert HeaderStr(h, "link") == Some(v);
    SingleBackwardsPanics(v);
  }

  /** A lone backwards segment makes the loop panic at once. */
  lemma SingleBackwardsPanics(v: string)
    requires |v| >= 2 && v[0] == '>' && !IsWhitespace(v[|v| - 1]) && '<' in v && ',' !in v
    ensures ScanAsWritten(Split(v, ',')).Panicked?
  {
    assert Split(v, ',') == [v];
    BackwardsSegment(v);
    assert [v][0] == v;
  }

  /** Such a segment parses as backwards. */
  lemma BackwardsSegment(v: string)
    requires |v| >= 2 && v[0] == '>' && !IsWhitespace(v[|v| - 1]) && '<' in v
    ensures ParseSegment(v).Backwards?
  {
    TrimNoEdges(v);
    BackwardsParse(v);
  }

  /** A segment that starts with `>` and holds a `<` is backwards. */
  lemma BackwardsParse(t: string)
    requires |t| > 0 && t[0] == '>' && '<' in t
    ensures ParseTrimmed(t).Backwards?
  {
    assert IndexOf(t, '>') == Some(0);
  }

  /** For instance `link: ><a>; rel=next`. */
  lemma BackwardsSegmentExample()
    ensures NextLinkFromHeadersAsWritten(map["link" := "><a>; rel=next"]).Panicked?
  {
    var v := "><a>; rel=next";
    assert v[2] == 'a' && v[1] == '<';
    BackwardsSegmentPanics(map["link" := v], v);
  }

  /** Wherever the code as written returns, the model returns the same link. */
  lemma {:induction false} ScanAgrees(parts: seq<string>)
    requires ScanAsWritten(parts).Returned?
    ensures ScanSegments(parts) == ScanAsWritten(parts).link
  {
    if parts != [] && ParseSegment(parts[0]).Link? && !IsNextRel(ParseSegment(parts[0]).rel) {
      ScanAgrees(parts[1..]);
    }
  }

  /** `next_link_from_body`: `_links.next` when it is a string. */
  function NextLinkFromBody(v: Json): (r: Option<string>)
    ensures r.Some? <==> GetPath(v, ["_links", "next"]).Some? && GetPath(v, ["_links", "next"]).value.JStr?
    ensures r.Some? ==> GetPath(v, ["_links", "next"]) == Some(JStr(r.value))
  {
    match Get(v, "_links")
    case None => None
    case Some(links) => GetStr(links, "next")
  }
}
