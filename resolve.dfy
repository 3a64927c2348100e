/**
 * src/resolve.rs: turning a page reference (an id, a page URL or
 * `SPACE:Title`) into a page id, space ids and keys through lookups, the
 * bounded least-recently-used cache of space keys, and the indented page tree.
 *
 * Server lookups are given as a function from the lookup to what
 * `get_paginated_results(url, false)` returns, that is the first page of
 * results or an error; the model records which lookups happen, in order.
 */
module Resolve {
  import opened Wrappers
  import opened Strings
  import opened Json
  import opened Urls
  import Sorting

  /** The listing requests the resolvers make; each stands for the URL the
      code builds (the query values form-encoded by the `url` crate). */
  datatype Lookup =
    | SpaceByKey(key: string)                        // /spaces?keys={key}&limit=1
    | PageByTitle(spaceId: string, title: string)    // /pages?space-id={id}&title={title}&limit=1
    | SpacesByIds(ids: seq<string>)                  // /spaces?ids={a,b,...}&limit={count}

  /** The outcome of a resolution and the lookups it made. */
  datatype Resolved = Resolved(result: Result<string>, lookups: seq<Lookup>)

  /** The `id` string of the first item. */
  function FirstId(items: seq<Json>): (r: Option<string>)
    ensures r.Some? <==> |items| > 0 && GetStr(items[0], "id").Some?
  {
    if |items| == 0 then None else GetStr(items[0], "id")
  }

  function SpaceNotFound(space: string): string {
    "Space '" + space + "' not found"
  }

  function PageNotFound(title: string, space: string): string {
    "Page '" + title + "' not found in space " + space
  }

  function Unresolvable(page: string): string {
    "Unable to resolve page reference '" + page + "'. Use a page id, URL, or SPACE:Title."
  }

  /** `resolve_space_id`: a numeric space is already an id; otherwise the id
      of the first space listed under that key. */
  function ResolveSpaceId(space: string, list: Lookup -> Result<seq<Json>>): (r: Resolved)
    ensures AllDigits(space) ==> r == Resolved(Ok(space), [])
    ensures !AllDigits(space) ==> r.lookups == [SpaceByKey(space)]
    ensures !AllDigits(space) ==> match list(SpaceByKey(space))
      case Err(e) => r.result == Err(e)
      case Ok(items) => r.result == OkOr(FirstId(items), SpaceNotFound(space))
  {
    if AllDigits(space) then Resolved(Ok(space), [])
    else
      var q := SpaceByKey(space);
      match list(q)
      case Err(e) => Resolved(Err(e), [q])
      case Ok(items) => Resolved(OkOr(FirstId(items), SpaceNotFound(space)), [q])
  }

  /** The page id a parsed URL carries, if any. */
  function UrlPageId(parse: string -> Result<ParsedUrl>, page: string): Option<string> {
    match parse(page)
    case Err(_) => None
    case Ok(u) => ExtractPageIdFromUrl(u)
  }

  /** `resolve_page_id`: a numeric reference, then a URL carrying a page id,
      then `SPACE:Title` split at the first `:`, else an error. */
  function ResolvePageId(page: string, parse: string -> Result<ParsedUrl>, list: Lookup -> Result<seq<Json>>): (r: Resolved)
    ensures AllDigits(page) ==> r == Resolved(Ok(page), [])
    ensures !AllDigits(page) && UrlPageId(parse, page).Some? ==> r == Resolved(Ok(UrlPageId(parse, page).value), [])
    ensures !AllDigits(page) && UrlPageId(parse, page).None? && ':' !in page ==> r == Resolved(Err(Unresolvable(page)), [])
    ensures r.lookups != [] ==> ':' in page && !AllDigits(page) && UrlPageId(parse, page).None?
    ensures |r.lookups| <= 2
  {
    if AllDigits(page) then Resolved(Ok(page), [])
    else if UrlPageId(parse, page).Some? then Resolved(Ok(UrlPageId(parse, page).value), [])
    else
      match SplitOnce(page, ':')
      case None => Resolved(Err(Unresolvable(page)), [])
      case Some((space, title)) =>
        var s := ResolveSpaceId(space, list);
        match s.result
        case Err(e) => Resolved(Err(e), s.lookups)
        case Ok(spaceId) =>
          var q := PageByTitle(spaceId, title);
          match list(q)
          case Err(e) => Resolved(Err(e), s.lookups + [q])
          case Ok(items) => Resolved(OkOr(FirstId(items), PageNotFound(title, space)), s.lookups + [q])
  }

  /** `SPACE:Title`: the space is everything before the first `:`, so a title
      may hold more colons. The space key is looked up unless it is numeric,
      then the title within that space. */
  lemma SpaceTitleLookups(page: string, space: string, title: string,
                          parse: string -> Result<ParsedUrl>, list: Lookup -> Result<seq<Json>>)
    requires page == space + ":" + title && ':' !in space
    requires !AllDigits(page) && UrlPageId(parse, page).None?
    requires ResolveSpaceId(space, list).result.Ok?
    ensures var spaceId := ResolveSpaceId(space, list).result.value;
      var q := PageByTitle(spaceId, title);
      ResolvePageId(page, parse, list).lookups == ResolveSpaceId(space, list).lookups + [q]
      && match list(q)
        case Err(e) => ResolvePageId(page, parse, list).result == Err(e)
        case Ok(items) => ResolvePageId(page, parse, list).result == OkOr(FirstId(items), PageNotFound(title, space))
  {
    SplitOnceUnique(page, ':', space, title);
  }

  /** A numeric space key needs one lookup only: the title's. */
  lemma NumericSpaceOneLookup(page: string, space: string, title: string,
                              parse: string -> Result<ParsedUrl>, list: Lookup -> Result<seq<Json>>)
    requires page == space + ":" + title && AllDigits(space)
    requires UrlPageId(parse, page).None?
    ensures ResolvePageId(page, parse, list).lookups == [PageByTitle(space, title)]
  {
    assert page[|space|] == ':';
    assert ':' !in space;
    SplitOnceUnique(page, ':', space, title);
  }

  // ------------------------------------------------------------ page ids in URLs

  /** Position of the segment `pages` the scan of `extract_page_id_from_url`
      stops at: the scan steps one segment at a time, and a `pages` segment
      also consumes the segment after it, digits or not. */
  function PathPageIndex(segs: seq<string>): (r: Option<nat>)
    ensures r.Some? ==> r.value + 1 < |segs| && segs[r.value] == "pages" && AllDigits(segs[r.value + 1])
    decreases |segs|
  {
    if |segs| < 2 then None
    else if segs[0] == "pages" then
      if AllDigits(segs[1]) then Some(0)
      else match PathPageIndex(segs[2..])
        case None => None
        case Some(k) => Some(k + 2)
    else match PathPageIndex(segs[1..])
      case None => None
      case Some(k) => Some(k + 1)
  }

  /** The first `pages` segment decides: followed by digits, it gives the id. */
  lemma {:induction false} FirstPagesSegment(segs: seq<string>, k: nat)
    requires k + 1 < |segs| && segs[k] == "pages" && AllDigits(segs[k + 1])
    requires forall j :: 0 <= j < k ==> segs[j] != "pages"
    ensures PathPageIndex(segs) == Some(k)
  {
    if k > 0 {
      FirstPagesSegment(segs[1..], k - 1);
    }
  }

  /** A `pages` segment followed by a non-numeric one consumes it: in
      `/pages/pages/123` the second `pages` is skipped, and no id is found. */
  lemma PagesPagesDigits()
    ensures PathPageIndex(["pages", "pages", "123"]) == None
  {
    var segs := ["pages", "pages", "123"];
    assert !AllDigits(segs[1]) by { assert !IsAsciiDigit(segs[1][0]); }
    assert PathPageIndex(segs[2..]) == None;
  }

  /** Index of the first pair whose key is `key` (`query_pairs().find`). */
  function FindKey(pairs: seq<(string, string)>, key: string): (r: Option<nat>)
    ensures r.None? <==> forall i :: 0 <= i < |pairs| ==> pairs[i].0 != key
    ensures r.Some? ==> (r.value < |pairs| && pairs[r.value].0 == key
      && forall j :: 0 <= j < r.value ==> pairs[j].0 != key)
  {
    if pairs == [] then None
    else if pairs[0].0 == key then Some(0)
    else match FindKey(pairs[1..], key)
      case None => None
      case Some(i) => Some(i + 1)
  }

  /** `extract_page_id_from_url`: the id after a `pages` path segment, else the
      value of the first `pageId` query pair (which is not checked for digits). */
  function ExtractPageIdFromUrl(u: ParsedUrl): (r: Option<string>)
    ensures PathSegments(u).Some? && PathPageIndex(PathSegments(u).value).Some? ==>
      r == Some(PathSegments(u).value[PathPageIndex(PathSegments(u).value).value + 1])
    ensures (PathSegments(u).None? || PathPageIndex(PathSegments(u).value).None?) ==>
      (r.None? <==> forall i :: 0 <= i < |u.query| ==> u.query[i].0 != "pageId")
    ensures (PathSegments(u).None? || PathPageIndex(PathSegments(u).value).None?) && r.Some? ==>
      exists i :: 0 <= i < |u.query| && u.query[i] == ("pageId", r.value)
        && forall j :: 0 <= j < i ==> u.query[j].0 != "pageId"
  {
    var fromPath := match PathSegments(u)
      case None => None
      case Some(segs) => PathPageIndex(segs);
    if fromPath.Some? then Some(PathSegments(u).value[fromPath.value + 1])
    else match FindKey(u.query, "pageId")
      case None => None
      case Some(i) =>
        assert u.query[i] == ("pageId", u.query[i].1);
        Some(u.query[i].1)
  }

  /** `page_status`: the page's `status`, `current` when it has none. */
  function PageStatus(page: Json): (r: string)
    ensures GetStr(page, "status").Some? ==> r == GetStr(page, "status").value
    ensures GetStr(page, "status").None? ==> r == "current"
  {
    GetStr(page, "status").GetOr("current")
  }

  // ------------------------------------------------------------ the space key cache

  const SPACE_KEY_CACHE_CAPACITY: nat := 1024

  predicate Distinct(s: seq<string>) {
    forall i, j :: 0 <= i < j < |s| ==> s[i] != s[j]
  }

  /** `s` with every occurrence of `x` taken out. */
  function Without(s: seq<string>, x: string): (r: seq<string>)
    ensures forall y :: y in r <==> y in s && y != x
    ensures |r| <= |s| && (x in s ==> |r| < |s|)
  {
    if s == [] then []
    else Without(s[..|s| - 1], x) + (if s[|s| - 1] == x then [] else [s[|s| - 1]])
  }

  lemma {:induction false} WithoutDistinct(s: seq<string>, x: string)
    requires Distinct(s)
    ensures Distinct(Without(s, x))
  {
    if s != [] {
      var init, last := s[..|s| - 1], s[|s| - 1];
      WithoutDistinct(init, x);
      if last != x {
        forall i | 0 <= i < |init| ensures init[i] != last {
          assert init[i] == s[i];
        }
        DistinctSnoc(Without(init, x), last);
      }
    }
  }

  lemma DistinctSnoc(s: seq<string>, x: string)
    requires Distinct(s) && x !in s
    ensures Distinct(s + [x])
  {
  }

  /** A run of most recent keys stays at the end of the recency order when a
      key outside it is stored. */
  /** `PutKeepsSuffix`, from the two outcomes `Put` promises. */
  lemma PutSuffix(before: seq<string>, after: seq<string>, run: seq<string>, id: string, wasIn: bool)
    requires |before| <= SPACE_KEY_CACHE_CAPACITY && |run| < SPACE_KEY_CACHE_CAPACITY && id !in run
    requires |run| <= |before| && before[|before| - |run|..] == run
    requires wasIn || |before| < SPACE_KEY_CACHE_CAPACITY ==> after == Without(before, id) + [id]
    requires !wasIn && |before| == SPACE_KEY_CACHE_CAPACITY ==> after == before[1..] + [id]
    ensures |run + [id]| <= |after| && after[|after| - |run + [id]|..] == run + [id]
  {
    PutKeepsSuffix(before, after, run, id);
  }

  lemma PutKeepsSuffix(before: seq<string>, after: seq<string>, put: seq<string>, id: string)
    requires |put| <= |before| && before[|before| - |put|..] == put && id !in put
    requires after == Without(before, id) + [id] || (|put| < |before| && after == before[1..] + [id])
    ensures |put + [id]| <= |after| && after[|after| - |put + [id]|..] == put + [id]
  {
    var u := before[..|before| - |put|];
    assert before == u + put;
    var a: seq<string>;
    if after == Without(before, id) + [id] {
      WithoutAppend(u, put, id);
      WithoutAbsent(put, id);
      a := Without(u, id);
      Reassoc(a, put, [id], after);
    } else {
      a := u[1..];
      assert before[1..] == a + put;
      Reassoc(a, put, [id], after);
    }
    SuffixOf(a, put + [id], after);
  }

  lemma Reassoc<T>(a: seq<T>, b: seq<T>, c: seq<T>, abc: seq<T>)
    requires abc == (a + b) + c
    ensures abc == a + (b + c)
  {
  }

  lemma SuffixOf<T>(a: seq<T>, w: seq<T>, s: seq<T>)
    requires s == a + w
    ensures |w| <= |s| && s[|s| - |w|..] == w
  {
    assert |s| - |w| == |a|;
  }

  lemma {:induction false} WithoutAppend(u: seq<string>, t: seq<string>, x: string)
    ensures Without(u + t, x) == Without(u, x) + Without(t, x)
    decreases |t|
  {
    if t == [] {
      assert u + t == u;
    } else {
      assert (u + t)[..|u + t| - 1] == u + t[..|t| - 1];
      WithoutAppend(u, t[..|t| - 1], x);
    }
  }

  lemma {:induction false} WithoutAbsent(t: seq<string>, x: string)
    requires x !in t
    ensures Without(t, x) == t
  {
    if t != [] {
      WithoutAbsent(t[..|t| - 1], x);
    }
  }

  /** The process-wide `LruCache<String, String>` from space id to space key:
      `entries` holds the pairs, `recency` the keys from least to most
      recently used. */
  class SpaceKeyCache {
    var entries: map<string, string>
    var recency: seq<string>

    ghost predicate Valid()
      reads this
    {
      Distinct(recency) && |recency| <= SPACE_KEY_CACHE_CAPACITY
      && forall k :: k in entries <==> k in recency
    }

    constructor()
      ensures Valid() && entries == map[] && recency == []
    {
      entries := map[];
      recency := [];
    }

    /** `LruCache::get`: a hit becomes the most recently used key. */
    method Get(key: string) returns (r: Option<string>)
      requires Valid()
      modifies this
      ensures Valid()
      ensures r == (if key in old(entries) then Some(old(entries)[key]) else None)
      ensures entries == old(entries)
      ensures recency == (if key in old(entries) then Without(old(recency), key) + [key] else old(recency))
    {
      if key in entries {
        r := Some(entries[key]);
        WithoutDistinct(recency, key);
        recency := Without(recency, key) + [key];
      } else {
        r := None;
      }
    }

    /** `LruCache::put`: the pair is stored as the most recently used; a new
        key in a full cache first evicts the least recently used one. */
    method Put(key: string, value: string)
      requires Valid()
      modifies this
      ensures Valid()
      ensures key in entries && entries[key] == value
      ensures forall k :: k in entries && k != key ==> k in old(entries) && entries[k] == old(entries)[k]
      ensures key in old(entries) || |old(recency)| < SPACE_KEY_CACHE_CAPACITY ==>
        entries == old(entries)[key := value] && recency == Without(old(recency), key) + [key]
      ensures key !in old(entries) && |old(recency)| == SPACE_KEY_CACHE_CAPACITY ==>
        entries == (old(entries) - {old(recency)[0]})[key := value] && recency == old(recency)[1..] + [key]
    {
      if key in entries || |recency| < SPACE_KEY_CACHE_CAPACITY {
        WithoutDistinct(recency, key);
        entries := entries[key := value];
        recency := Without(recency, key) + [key];
      } else {
        var lru := recency[0];
        assert forall k :: k in recency[1..] <==> k in recency && k != lru;
        entries := (entries - {lru})[key := value];
        recency := recency[1..] + [key];
      }
    }
  }

  /** The key of a fetched space, or the id when it has no `key` string. */
  function KeyOrId(space: Json, spaceId: string): (r: string)
    ensures GetStr(space, "key").Some? ==> r == GetStr(space, "key").value
    ensures GetStr(space, "key").None? ==> r == spaceId
  {
    GetStr(space, "key").GetOr(spaceId)
  }

  /** `resolve_space_key`: served from the cache when present; otherwise
      fetched (`getSpace` is `get_json` of `/spaces/{id}`) and cached. */
  method ResolveSpaceKey(cache: SpaceKeyCache, spaceId: string, getSpace: string -> Result<Json>)
    returns (r: Result<string>, fetched: bool)
    requires cache.Valid()
    modifies cache
    ensures cache.Valid()
    ensures fetched <==> spaceId !in old(cache.entries)
    ensures !fetched ==> r == Ok(old(cache.entries)[spaceId]) && cache.entries == old(cache.entries)
    ensures fetched && getSpace(spaceId).Err? ==>
      r == Err(getSpace(spaceId).error) && cache.entries == old(cache.entries)
    ensures fetched && getSpace(spaceId).Ok? ==>
      r == Ok(KeyOrId(getSpace(spaceId).value, spaceId)) && spaceId in cache.entries && cache.entries[spaceId] == r.value
      && forall k :: k in cache.entries && k != spaceId ==> k in old(cache.entries) && cache.entries[k] == old(cache.entries)[k]
  {
    var hit := cache.Get(spaceId);
    if hit.Some? {
      return Ok(hit.value), false;
    }
    fetched := true;
    match getSpace(spaceId)
    case Err(e) =>
      r := Err(e);
    case Ok(space) =>
      var key := KeyOrId(space, spaceId);
      cache.Put(spaceId, key);
      r := Ok(key);
  }

  // ------------------------------------------------------------ many space keys

  /** Rust's `Ord` on `String`: lexicographic by character (for UTF-8 the
      same as by byte). */
  predicate StrLt(a: string, b: string)
    decreases |a|
  {
    if a == [] then b != []
    else b != [] && (a[0] < b[0] || (a[0] == b[0] && StrLt(a[1..], b[1..])))
  }

  lemma {:induction false} StrLtIrreflexive(a: string)
    ensures !StrLt(a, a)
    decreases |a|
  {
    if a != [] {
      StrLtIrreflexive(a[1..]);
    }
  }

  lemma {:induction false} StrLtTotal(a: string, b: string)
    requires a != b && !StrLt(a, b)
    ensures StrLt(b, a)
    decreases |a|
  {
    if a != [] && b != [] && a[0] == b[0] {
      assert a == [a[0]] + a[1..] && b == [b[0]] + b[1..];
      StrLtTotal(a[1..], b[1..]);
    }
  }

  predicate StrictlySorted(s: seq<string>) {
    forall i, j :: 0 <= i < j < |s| ==> StrLt(s[i], s[j])
  }

  lemma SortedDistinct(s: seq<string>)
    requires StrictlySorted(s)
    ensures Distinct(s)
  {
    forall i, j | 0 <= i < j < |s| ensures s[i] != s[j] {
      StrLtIrreflexive(s[i]);
    }
  }

  /** Inserts `x` into a strictly increasing sequence, once. */
  function InsertUnique(x: string, s: seq<string>): (r: seq<string>)
    requires StrictlySorted(s)
    ensures StrictlySorted(r)
    ensures forall y :: y in r <==> y in s || y == x
  {
    if s == [] then [x]
    else if x == s[0] then s
    else if StrLt(x, s[0]) then
      assert forall j :: 0 < j < |s| ==> StrLt(s[0], s[j]);
      InsertAhead(x, s);
      [x] + s
    else
      StrLtTotal(x, s[0]);
      var t := InsertUnique(x, s[1..]);
      assert forall y :: y in s[1..] ==> StrLt(s[0], y);
      [s[0]] + t
  }

  lemma InsertAhead(x: string, s: seq<string>)
    requires StrictlySorted(s) && s != [] && StrLt(x, s[0])
    ensures StrictlySorted([x] + s)
  {
    forall j | 0 < j < |s| ensures StrLt(x, s[j]) {
      StrLtTransitive(x, s[0], s[j]);
    }
  }

  lemma {:induction false} StrLtTransitive(a: string, b: string, c: string)
    requires StrLt(a, b) && StrLt(b, c)
    ensures StrLt(a, c)
    decreases |a|
  {
    if a != [] && a[0] == b[0] && b[0] == c[0] {
      StrLtTransitive(a[1..], b[1..], c[1..]);
    }
  }

  /** `unique.sort(); unique.dedup();`: strictly increasing, the same ids. */
  function SortedUnique(ids: seq<string>): (r: seq<string>)
    ensures StrictlySorted(r) && Distinct(r)
    ensures forall y :: y in r <==> y in ids
  {
    if ids == [] then []
    else
      var r := InsertUnique(ids[|ids| - 1], SortedUnique(ids[..|ids| - 1]));
      assert forall y :: y in ids <==> y in ids[..|ids| - 1] || y == ids[|ids| - 1];
      SortedDistinct(r);
      r
  }

  /** The cached pairs for the given ids. */
  function Hits(ids: seq<string>, cached: map<string, string>): (r: map<string, string>)
    ensures forall k :: k in r <==> k in ids && k in cached
    ensures forall k :: k in r ==> r[k] == cached[k]
  {
    map k | k in ids && k in cached :: cached[k]
  }

  lemma HitsSnoc(s: seq<string>, x: string, cached: map<string, string>)
    ensures Hits(s + [x], cached) == if x in cached then Hits(s, cached)[x := cached[x]] else Hits(s, cached)
  {
  }

  lemma MissesSnoc(s: seq<string>, x: string, cached: map<string, string>)
    ensures Misses(s + [x], cached) == Misses(s, cached) + (if x in cached then [] else [x])
  {
    assert (s + [x])[..|s|] == s;
  }

  /** What one more id adds to the hits and the misses. */
  lemma LookupNext(unique: seq<string>, i: nat, cached: map<string, string>)
    requires i < |unique|
    ensures Hits(unique[..i + 1], cached)
      == if unique[i] in cached then Hits(unique[..i], cached)[unique[i] := cached[unique[i]]] else Hits(unique[..i], cached)
    ensures Misses(unique[..i + 1], cached) == Misses(unique[..i], cached) + (if unique[i] in cached then [] else [unique[i]])
  {
    assert unique[..i + 1] == unique[..i] + [unique[i]];
    HitsSnoc(unique[..i], unique[i], cached);
    MissesSnoc(unique[..i], unique[i], cached);
  }

  /** The ids, in order, that the cache does not hold. */
  function Misses(ids: seq<string>, cached: map<string, string>): (r: seq<string>)
    ensures forall k :: k in r <==> k in ids && k !in cached
  {
    if ids == [] then []
    else Misses(ids[..|ids| - 1], cached) + (if ids[|ids| - 1] in cached then [] else [ids[|ids| - 1]])
  }

  const SPACE_IDS_PER_REQUEST: nat := 250

  /** `s.chunks(n)` */
  function Chunks(s: seq<string>, n: nat): seq<seq<string>>
    requires n > 0
    decreases |s|
  {
    if s == [] then [] else if |s| <= n then [s] else [s[..n]] + Chunks(s[n..], n)
  }

  function Flatten(cs: seq<seq<string>>): seq<string> {
    if cs == [] then [] else cs[0] + Flatten(cs[1..])
  }

  /** The chunks put back together give `s`; none is empty or longer than
      `n`, and all but the last are exactly `n` long. */
  lemma {:induction false} ChunksShape(s: seq<string>, n: nat)
    requires n > 0
    ensures Flatten(Chunks(s, n)) == s
    ensures forall i :: 0 <= i < |Chunks(s, n)| ==> 0 < |Chunks(s, n)[i]| <= n
    ensures forall i :: 0 <= i < |Chunks(s, n)| - 1 ==> |Chunks(s, n)[i]| == n
    decreases |s|
  {
    if |s| > n {
      ChunksShape(s[n..], n);
      assert s == s[..n] + s[n..];
      var cs := Chunks(s, n);
      assert cs[1..] == Chunks(s[n..], n);
      forall i | 1 <= i < |cs| ensures cs[i] == Chunks(s[n..], n)[i - 1] {
      }
    }
  }

  /** The id a listed space is entered under and the name the code shows for
      it: the key, except that a personal space (key starting with `~`) is
      shown by its `name` when it has one. Items without both an `id` and a
      `key` string are skipped. */
  function Display(item: Json): (r: Option<(string, string)>)
    ensures r.Some? <==> GetStr(item, "id").Some? && GetStr(item, "key").Some?
    ensures r.Some? ==> r.value.0 == GetStr(item, "id").value
    ensures r.Some? && !StartsWith(GetStr(item, "key").value, "~") ==> r.value.1 == GetStr(item, "key").value
    ensures r.Some? && StartsWith(GetStr(item, "key").value, "~") ==>
      r.value.1 == GetStr(item, "name").GetOr(GetStr(item, "key").value)
  {
    match GetStr(item, "id")
    case None => None
    case Some(id) =>
      match GetStr(item, "key")
      case None => None
      case Some(key) =>
        Some((id, if StartsWith(key, "~") then GetStr(item, "name").GetOr(key) else key))
  }

  /** The pairs of a list of items entered into `m` in order, later items
      overriding earlier ones with the same id. */
  function Record(m: map<string, string>, items: seq<Json>): map<string, string> {
    if items == [] then m
    else
      var m' := Record(m, items[..|items| - 1]);
      match Display(items[|items| - 1])
      case None => m'
      case Some((id, shown)) => m'[id := shown]
  }

  /** The pairs fetched by a run of chunk requests, or the first error. */
  function FetchChunks(cs: seq<seq<string>>, list: Lookup -> Result<seq<Json>>): Result<map<string, string>> {
    if cs == [] then Ok(map[])
    else
      match FetchChunks(cs[..|cs| - 1], list)
      case Err(e) => Err(e)
      case Ok(m) =>
        match list(SpacesByIds(cs[|cs| - 1]))
        case Err(e) => Err(e)
        case Ok(items) => Ok(Record(m, items))
  }

  /** The ids `unique` as the cache splits them (the lookups in the loop of
      `resolve_space_keys`); every hit is refreshed as recently used. */
  method LookupCached(cache: SpaceKeyCache, unique: seq<string>)
    returns (out: map<string, string>, missing: seq<string>)
    requires cache.Valid()
    modifies cache
    ensures cache.Valid() && cache.entries == old(cache.entries)
    ensures out == Hits(unique, old(cache.entries))
    ensures missing == Misses(unique, old(cache.entries))
  {
    ghost var cached := cache.entries;
    out := map[];
    missing := [];
    var i := 0;
    while i < |unique|
      invariant 0 <= i <= |unique|
      invariant cache.Valid() && cache.entries == cached
      invariant out == Hits(unique[..i], cached)
      invariant missing == Misses(unique[..i], cached)
    {
      LookupNext(unique, i, cached);
      var hit := cache.Get(unique[i]);
      if hit.Some? {
        out := out[unique[i] := hit.value];
      } else {
        missing := missing + [unique[i]];
      }
      i := i + 1;
    }
    assert unique[..i] == unique;
  }

  /** The inner loop over one response's items. */
  method CollectItems(fetched: map<string, string>, items: seq<Json>) returns (collected: map<string, string>)
    ensures collected == Record(fetched, items)
  {
    var k := 0;
    collected := fetched;
    while k < |items|
      invariant 0 <= k <= |items|
      invariant collected == Record(fetched, items[..k])
    {
      assert items[..k + 1][..k] == items[..k];
      match Display(items[k]) {
        case None =>
        case Some((id, shown)) =>
          collected := collected[id := shown];
      }
      k := k + 1;
    }
    assert items[..k] == items;
  }

  /** The chunk starting at `j` and the chunks after it. */
  lemma NextChunk(missing: seq<string>, j: nat, end: nat)
    requires j < |missing|
    requires end == if j + SPACE_IDS_PER_REQUEST <= |missing| then j + SPACE_IDS_PER_REQUEST else |missing|
    ensures Chunks(missing[j..], SPACE_IDS_PER_REQUEST)
      == [missing[j..end]] + Chunks(missing[end..], SPACE_IDS_PER_REQUEST)
  {
    if end < |missing| {
      assert missing[j..][SPACE_IDS_PER_REQUEST..] == missing[end..];
      assert missing[j..][..SPACE_IDS_PER_REQUEST] == missing[j..end];
    } else {
      assert missing[j..] == missing[j..end] && missing[end..] == [];
    }
  }

  lemma SnocRegroup<T>(prev: seq<T>, x: T, rest: seq<T>, whole: seq<T>)
    requires prev + ([x] + rest) == whole
    ensures (prev + [x]) + rest == whole && prev + [x] <= whole
  {
    assert (prev + [x]) + rest == prev + ([x] + rest);
  }

  /** One more chunk request on top of a successful run. */
  lemma FetchChunksSnoc(prev: seq<seq<string>>, chunk: seq<string>, list: Lookup -> Result<seq<Json>>,
                        m: map<string, string>)
    requires FetchChunks(prev, list) == Ok(m)
    ensures list(SpacesByIds(chunk)).Err? ==> FetchChunks(prev + [chunk], list) == Err(list(SpacesByIds(chunk)).error)
    ensures list(SpacesByIds(chunk)).Ok? ==> FetchChunks(prev + [chunk], list) == Ok(Record(m, list(SpacesByIds(chunk)).value))
  {
    assert (prev + [chunk])[..|prev|] == prev;
  }

  /** The chunked requests for the ids the cache lacks, stopping at the first
      failed request. */
  method FetchMissing(missing: seq<string>, list: Lookup -> Result<seq<Json>>)
    returns (r: Result<map<string, string>>, requests: seq<seq<string>>)
    ensures r == FetchChunks(requests, list)
    ensures r.Ok? ==> requests == Chunks(missing, SPACE_IDS_PER_REQUEST)
    ensures r.Err? ==> requests != [] && requests <= Chunks(missing, SPACE_IDS_PER_REQUEST)
  {
    requests := [];
    var fetched: map<string, string> := map[];
    var j := 0;
    while j < |missing|
      invariant 0 <= j <= |missing|
      invariant requests + Chunks(missing[j..], SPACE_IDS_PER_REQUEST) == Chunks(missing, SPACE_IDS_PER_REQUEST)
      invariant FetchChunks(requests, list) == Ok(fetched)
    {
      var end := if j + SPACE_IDS_PER_REQUEST <= |missing| then j + SPACE_IDS_PER_REQUEST else |missing|;
      var chunk := missing[j..end];
      NextChunk(missing, j, end);
      ghost var prev := requests;
      requests := requests + [chunk];
      SnocRegroup(prev, chunk, Chunks(missing[end..], SPACE_IDS_PER_REQUEST), Chunks(missing, SPACE_IDS_PER_REQUEST));
      FetchChunksSnoc(prev, chunk, list, fetched);
      var page := list(SpacesByIds(chunk));
      if page.Err? {
        r := Err(page.error);
        return;
      }
      fetched := CollectItems(fetched, page.value);
      j := end;
    }
    assert missing[j..] == [];
    r := Ok(fetched);
  }

  /** The cache writes after the fetch (`for (id, key) in &fetched`), in an
      order left open. */
  method StoreFetched(cache: SpaceKeyCache, fetched: map<string, string>)
    requires cache.Valid()
    modifies cache
    ensures cache.Valid()
    ensures forall k :: k in cache.entries ==>
      (k in fetched && cache.entries[k] == fetched[k]) || (k in old(cache.entries) && cache.entries[k] == old(cache.entries)[k])
    ensures forall k :: k in fetched && k in cache.entries ==> cache.entries[k] == fetched[k]
    ensures |fetched.Keys| <= SPACE_KEY_CACHE_CAPACITY ==> fetched.Keys <= cache.entries.Keys
  {
    ghost var cached := cache.entries;
    var remaining := fetched.Keys;
    ghost var put: seq<string> := [];
    while remaining != {}
      invariant remaining <= fetched.Keys
      invariant cache.Valid()
      invariant |put| + |remaining| == |fetched.Keys|
      invariant forall k :: k in put <==> k in fetched && k !in remaining
      invariant forall k :: k in cache.entries ==>
        (k in put && cache.entries[k] == fetched[k]) || (k in cached && cache.entries[k] == cached[k])
      invariant forall k :: k in put && k in cache.entries ==> cache.entries[k] == fetched[k]
      invariant |fetched.Keys| <= SPACE_KEY_CACHE_CAPACITY ==>
        |put| <= |cache.recency| && cache.recency[|cache.recency| - |put|..] == put
      decreases |remaining|
    {
      var id :| id in remaining;
      StoreOne(cache, id, fetched[id], put, |fetched.Keys| <= SPACE_KEY_CACHE_CAPACITY);
      put := put + [id];
      remaining := remaining - {id};
    }
  }

  /** One write of `StoreFetched`; when `track` holds, the keys written so
      far (`run`) stay the most recently used. */
  method StoreOne(cache: SpaceKeyCache, id: string, value: string, ghost run: seq<string>, ghost track: bool)
    requires cache.Valid() && id !in run
    requires track ==> (|run| < SPACE_KEY_CACHE_CAPACITY && |run| <= |cache.recency|
      && cache.recency[|cache.recency| - |run|..] == run)
    modifies cache
    ensures cache.Valid()
    ensures id in cache.entries && cache.entries[id] == value
    ensures forall k :: k in cache.entries && k != id ==> k in old(cache.entries) && cache.entries[k] == old(cache.entries)[k]
    ensures track ==> |run + [id]| <= |cache.recency| && cache.recency[|cache.recency| - |run + [id]|..] == run + [id]
  {
    ghost var before := cache.recency;
    ghost var wasIn := id in cache.entries;
    cache.Put(id, value);
    if track {
      PutSuffix(before, cache.recency, run, id, wasIn);
    }
  }

  /** `resolve_space_keys`: the ids sorted and deduplicated; cached keys are
      served; the others are fetched in chunks of 250 ids, written to the
      cache and added to the result. */
  method ResolveSpaceKeys(cache: SpaceKeyCache, ids: seq<string>, list: Lookup -> Result<seq<Json>>)
    returns (r: Result<map<string, string>>, requests: seq<seq<string>>)
    requires cache.Valid()
    modifies cache
    ensures cache.Valid()
    ensures ids == [] ==> r == Ok(map[]) && requests == []
    ensures r.Ok? ==>
      requests == Chunks(Misses(SortedUnique(ids), old(cache.entries)), SPACE_IDS_PER_REQUEST)
      && FetchChunks(requests, list).Ok?
      && r.value == Hits(ids, old(cache.entries)) + FetchChunks(requests, list).value
    ensures r.Ok? ==> forall k :: k in cache.entries ==>
      (k in FetchChunks(requests, list).value && cache.entries[k] == FetchChunks(requests, list).value[k])
      || (k in old(cache.entries) && cache.entries[k] == old(cache.entries)[k])
    ensures r.Ok? ==> forall k :: k in FetchChunks(requests, list).value && k in cache.entries ==>
      cache.entries[k] == FetchChunks(requests, list).value[k]
    ensures r.Ok? && |FetchChunks(requests, list).value.Keys| <= SPACE_KEY_CACHE_CAPACITY ==>
      FetchChunks(requests, list).value.Keys <= cache.entries.Keys
    ensures r.Err? ==>
      requests != [] && requests <= Chunks(Misses(SortedUnique(ids), old(cache.entries)), SPACE_IDS_PER_REQUEST)
      && FetchChunks(requests, list) == Err(r.error) && cache.entries == old(cache.entries)
  {
    var unique := SortedUnique(ids);
    ghost var cached := cache.entries;
    assert Hits(ids, cached) == Hits(unique, cached);
    if unique == [] {
      return Ok(map[]), [];
    }
    var out, missing := LookupCached(cache, unique);
    if missing == [] {
      return Ok(out), [];
    }
    var fetched;
    fetched, requests := FetchMissing(missing, list);
    if fetched.Err? {
      return Err(fetched.error), requests;
    }
    StoreFetched(cache, fetched.value);
    r := Ok(out + fetched.value);
  }

  // ------------------------------------------------------------ the page tree

  datatype NodeView = NodeView(id: string, parentId: string, title: string, childPosition: int)

  /** The fields `build_page_tree` reads from an item; `None` for an item
      without a non-empty `id` string, which is skipped. A missing parent,
      title or position reads as `""`, `""` and 0. */
  function ViewOf(item: Json): (r: Option<NodeView>)
    ensures r.Some? <==> GetStr(item, "id").Some? && GetStr(item, "id").value != ""
    ensures r.Some? ==> (r.value.id == GetStr(item, "id").value
      && r.value.parentId == GetStr(item, "parentId").GetOr("")
      && r.value.title == GetStr(item, "title").GetOr(""))
    // a position that is not a 64-bit integer reads as 0
    ensures r.Some? && Get(item, "childPosition").Some? && Get(item, "childPosition").value.JNum?
            && I64_MIN <= Get(item, "childPosition").value.n <= I64_MAX
            ==> r.value.childPosition == Get(item, "childPosition").value.n
    ensures r.Some? && (Get(item, "childPosition").None? || AsI64(Get(item, "childPosition").value).None?)
            ==> r.value.childPosition == 0
  {
    var id := GetStr(item, "id").GetOr("");
    if id == "" then None
    else
      var position := match Get(item, "childPosition")
        case None => 0
        case Some(p) => AsI64(p).GetOr(0);
      Some(NodeView(id, GetStr(item, "parentId").GetOr(""), GetStr(item, "title").GetOr(""), position))
  }

  /** The views of the items that have an id, in input order. */
  function Views(items: seq<Json>): (r: seq<NodeView>)
    ensures forall i :: 0 <= i < |r| ==> r[i].id != ""
  {
    if items == [] then []
    else Views(items[..|items| - 1]) + (match ViewOf(items[|items| - 1]) case None => [] case Some(v) => [v])
  }

  /** The views whose parent is `p`, in input order (`p == ""`: the roots). */
  function WithParent(views: seq<NodeView>, p: string): (r: seq<NodeView>)
    ensures |r| <= |views|
  {
    if views == [] then []
    else WithParent(views[..|views| - 1], p) + (if views[|views| - 1].parentId == p then [views[|views| - 1]] else [])
  }

  /** The non-empty parent ids the views name. */
  function ParentIds(views: seq<NodeView>): set<string> {
    set i | 0 <= i < |views| && views[i].parentId != "" :: views[i].parentId
  }

  function Position(n: NodeView): int { n.childPosition }

  /** The roots, ordered by `childPosition` (stably). */
  function RootsOf(views: seq<NodeView>): seq<NodeView> {
    Sorting.SortByKey(WithParent(views, ""), Position)
  }

  /** Page id to its children, each list ordered by `childPosition` (stably). */
  function ChildrenOf(views: seq<NodeView>): (r: map<string, seq<NodeView>>)
    ensures forall p :: p in r ==> |r[p]| <= |views|
  {
    map p | p in ParentIds(views) :: Sorting.SortByKey(WithParent(views, p), Position)
  }

  /** One output line: two spaces per level, then `- title (id)`. */
  function Line(n: NodeView, depth: nat): string {
    Repeat("  ", depth) + "- " + n.title + " (" + n.id + ")"
  }

  /** Levels left above the depth limit. */
  function Height(depth: nat, maxDepth: nat): nat {
    if depth <= maxDepth then maxDepth - depth else 0
  }

  /** Pre-order rendering of a page and its descendants, down to depth
      `maxDepth`. */
  function RenderNode(children: map<string, seq<NodeView>>, n: NodeView, depth: nat, maxDepth: nat): seq<string>
    decreases Height(depth, maxDepth), 0
  {
    [Line(n, depth)]
    + (if depth < maxDepth && n.id in children then RenderList(children, children[n.id], depth + 1, maxDepth) else [])
  }

  function RenderList(children: map<string, seq<NodeView>>, ns: seq<NodeView>, depth: nat, maxDepth: nat): seq<string>
    decreases Height(depth, maxDepth), |ns| + 1
  {
    if ns == [] then [] else RenderNode(children, ns[0], depth, maxDepth) + RenderList(children, ns[1..], depth, maxDepth)
  }

  /** Every node of a list gets at least its own line. */
  lemma {:induction false} RenderListLength(children: map<string, seq<NodeView>>, ns: seq<NodeView>, depth: nat, maxDepth: nat)
    ensures |RenderList(children, ns, depth, maxDepth)| >= |ns|
    decreases |ns|
  {
    if ns != [] {
      RenderListLength(children, ns[1..], depth, maxDepth);
    }
  }

  /** The tree `build_page_tree` prints: the roots in order, each followed by
      its subtree. */
  function PageTree(items: seq<Json>, maxDepth: nat): (r: seq<string>)
    ensures |r| >= |RootsOf(Views(items))|
    ensures items == [] ==> r == []
  {
    var views := Views(items);
    RenderListLength(ChildrenOf(views), RootsOf(views), 0, maxDepth);
    RenderList(ChildrenOf(views), RootsOf(views), 0, maxDepth)
  }

  // ---------------------------------------------------------- tree coverage

  /** `p` runs down the child lists: each view after the first is listed
      under the one before it. */
  predicate DownPath(children: map<string, seq<NodeView>>, p: seq<NodeView>) {
    p != [] && forall i :: 0 <= i < |p| - 1 ==> Listed(children, p[i], p[i + 1])
  }

  /** `c` is in the child list of `n`. */
  predicate Listed(children: map<string, seq<NodeView>>, n: NodeView, c: NodeView) {
    n.id in children && c in children[n.id]
  }

  lemma {:induction false} RenderListHas(children: map<string, seq<NodeView>>, ns: seq<NodeView>, n: NodeView,
                                         depth: nat, maxDepth: nat, line: string)
    requires n in ns && line in RenderNode(children, n, depth, maxDepth)
    ensures line in RenderList(children, ns, depth, maxDepth)
    decreases |ns|
  {
    if ns[0] != n {
      RenderListHas(children, ns[1..], n, depth, maxDepth, line);
    }
  }

  /** The last view of a downward path is printed at its depth, when that
      depth is within the limit. */
  lemma {:induction false} RenderHas(children: map<string, seq<NodeView>>, p: seq<NodeView>, depth: nat, maxDepth: nat)
    requires DownPath(children, p) && depth + |p| - 1 <= maxDepth
    ensures Line(p[|p| - 1], depth + |p| - 1) in RenderNode(children, p[0], depth, maxDepth)
    decreases |p|
  {
    if |p| > 1 {
      var q := p[1..];
      TailPath(children, p);
      RenderHas(children, q, depth + 1, maxDepth);
      LastOfTail(p);
      ChildLineShown(children, p[0], p[1], depth, maxDepth, Line(q[|q| - 1], depth + 1 + |q| - 1));
    }
  }

  /** The rest of a downward path is a downward path below its first step. */
  lemma TailPath(children: map<string, seq<NodeView>>, p: seq<NodeView>)
    requires DownPath(children, p) && |p| > 1
    ensures DownPath(children, p[1..]) && p[1..][0] == p[1] && Listed(children, p[0], p[1])
  {
    var q := p[1..];
    forall i | 0 <= i < |q| - 1
      ensures Listed(children, q[i], q[i + 1])
    {
      assert q[i] == p[i + 1] && q[i + 1] == p[(i + 1) + 1];
    }
  }

  lemma LastOfTail<T>(p: seq<T>)
    requires |p| > 1
    ensures |p[1..]| == |p| - 1 && p[1..][|p[1..]| - 1] == p[|p| - 1]
  {
  }

  /** A line printed under a listed child is printed under its parent. */
  lemma ChildLineShown(children: map<string, seq<NodeView>>, n: NodeView, c: NodeView, depth: nat, maxDepth: nat,
                       line: string)
    requires Listed(children, n, c) && depth < maxDepth && line in RenderNode(children, c, depth + 1, maxDepth)
    ensures line in RenderNode(children, n, depth, maxDepth)
  {
    NodeLines(children, n, depth, maxDepth);
    RenderListHas(children, children[n.id], c, depth + 1, maxDepth, line);
  }

  /** Every printed line is the last view of a downward path from `n`, at its
      depth. */
  lemma {:induction false} RenderSound(children: map<string, seq<NodeView>>, n: NodeView, depth: nat, maxDepth: nat,
                                       line: string)
    returns (p: seq<NodeView>)
    requires line in RenderNode(children, n, depth, maxDepth)
    ensures DownPath(children, p) && p[0] == n && (|p| == 1 || depth + |p| - 1 <= maxDepth)
    ensures line == Line(p[|p| - 1], depth + |p| - 1)
    decreases Height(depth, maxDepth), 0
  {
    if line == Line(n, depth) {
      p := [n];
    } else {
      ChildLines(children, n, depth, maxDepth, line);
      var q := RenderListSound(children, children[n.id], depth + 1, maxDepth, line);
      ConsPath(children, n, q);
      p := [n] + q;
      LastOfCons(n, q);
    }
  }

  /** A line of a page's block other than its own is one of its children's. */
  lemma ChildLines(children: map<string, seq<NodeView>>, n: NodeView, depth: nat, maxDepth: nat, line: string)
    requires line in RenderNode(children, n, depth, maxDepth) && line != Line(n, depth)
    ensures depth < maxDepth && n.id in children
    ensures line in RenderList(children, children[n.id], depth + 1, maxDepth)
  {
  }

  lemma {:induction false} RenderListSound(children: map<string, seq<NodeView>>, ns: seq<NodeView>, depth: nat,
                                           maxDepth: nat, line: string)
    returns (q: seq<NodeView>)
    requires line in RenderList(children, ns, depth, maxDepth)
    ensures DownPath(children, q) && q[0] in ns && (|q| == 1 || depth + |q| - 1 <= maxDepth)
    ensures line == Line(q[|q| - 1], depth + |q| - 1)
    decreases Height(depth, maxDepth), |ns| + 1
  {
    if line in RenderNode(children, ns[0], depth, maxDepth) {
      q := RenderSound(children, ns[0], depth, maxDepth, line);
    } else {
      q := RenderListSound(children, ns[1..], depth, maxDepth, line);
    }
  }

  /** `p` starts at a root and each later view's parent is the view before it. */
  predicate Lineage(views: seq<NodeView>, p: seq<NodeView>) {
    p != [] && p[0].parentId == ""
    && (forall i :: 0 <= i < |p| ==> p[i] in views)
    && forall i :: 0 <= i < |p| - 1 ==> ParentOf(p[i], p[i + 1])
  }

  /** `c` names `n` as its parent. */
  predicate ParentOf(n: NodeView, c: NodeView) {
    c.parentId == n.id
  }

  lemma {:induction false} WithParentMembers(views: seq<NodeView>, q: string, x: NodeView)
    ensures x in WithParent(views, q) <==> x in views && x.parentId == q
    decreases |views|
  {
    if views != [] {
      var init := views[..|views| - 1];
      assert views == init + [views[|views| - 1]];
      WithParentMembers(init, q, x);
    }
  }

  lemma SortedMembers(s: seq<NodeView>, x: NodeView)
    ensures x in Sorting.SortByKey(s, Position) <==> x in s
  {
    Sorting.SortByKeySortedPermutation(s, Position);
    assert x in Sorting.SortByKey(s, Position) <==> x in multiset(Sorting.SortByKey(s, Position));
    assert x in s <==> x in multiset(s);
  }

  /** A child's parent is listed in the children map. */
  lemma ChildListed(views: seq<NodeView>, c: NodeView)
    requires c in views && c.parentId != ""
    ensures c.parentId in ChildrenOf(views) && c in ChildrenOf(views)[c.parentId]
  {
    var i :| 0 <= i < |views| && views[i] == c;
    assert c.parentId in ParentIds(views);
    WithParentMembers(views, c.parentId, c);
    SortedMembers(WithParent(views, c.parentId), c);
  }

  /** A lineage runs down the ordered child lists from a root. */
  lemma LineageIsDown(views: seq<NodeView>, p: seq<NodeView>)
    requires (forall v :: v in views ==> v.id != "") && Lineage(views, p)
    ensures DownPath(ChildrenOf(views), p) && p[0] in RootsOf(views)
  {
    WithParentMembers(views, "", p[0]);
    SortedMembers(WithParent(views, ""), p[0]);
    forall i | 0 <= i < |p| - 1
      ensures Listed(ChildrenOf(views), p[i], p[i + 1])
    {
      assert p[i] in views && p[i + 1] in views && ParentOf(p[i], p[i + 1]);
      ChildListed(views, p[i + 1]);
    }
  }

  /** A downward path from a root is a lineage. */
  lemma DownIsLineage(views: seq<NodeView>, p: seq<NodeView>)
    requires DownPath(ChildrenOf(views), p) && p[0] in RootsOf(views)
    ensures Lineage(views, p)
  {
    WithParentMembers(views, "", p[0]);
    SortedMembers(WithParent(views, ""), p[0]);
    forall i | 0 <= i < |p| - 1
      ensures ParentOf(p[i], p[i + 1])
    {
      assert Listed(ChildrenOf(views), p[i], p[i + 1]);
      WithParentMembers(views, p[i].id, p[i + 1]);
      SortedMembers(WithParent(views, p[i].id), p[i + 1]);
    }
    forall i | 0 <= i < |p|
      ensures p[i] in views
    {
      if i > 0 {
        assert Listed(ChildrenOf(views), p[i - 1], p[(i - 1) + 1]);
        WithParentMembers(views, p[i - 1].id, p[i]);
        SortedMembers(WithParent(views, p[i - 1].id), p[i]);
      }
    }
  }

  /** No downward path from `n` has more than `k` views. */
  ghost predicate NoPathLonger(children: map<string, seq<NodeView>>, n: NodeView, k: nat) {
    forall p :: DownPath(children, p) && p[0] == n ==> |p| <= k
  }

  lemma ConsPath(children: map<string, seq<NodeView>>, n: NodeView, p: seq<NodeView>)
    requires DownPath(children, p) && n.id in children && p[0] in children[n.id]
    ensures DownPath(children, [n] + p) && ([n] + p)[0] == n && |[n] + p| == |p| + 1
  {
    var q := [n] + p;
    forall i | 0 <= i < |q| - 1
      ensures Listed(children, q[i], q[i + 1])
    {
      assert q[i + 1] == p[i];
      if i > 0 {
        assert q[i] == p[i - 1] && Listed(children, p[i - 1], p[(i - 1) + 1]);
      }
    }
  }

  lemma KidsShorter(children: map<string, seq<NodeView>>, n: NodeView, c: NodeView, k: nat)
    requires NoPathLonger(children, n, k + 1) && n.id in children && c in children[n.id]
    ensures NoPathLonger(children, c, k)
  {
    forall p | DownPath(children, p) && p[0] == c
      ensures |p| <= k
    {
      ConsPath(children, n, p);
    }
  }

  /** Raising the depth limit past the deepest path changes nothing. */
  lemma {:induction false} RenderInert(children: map<string, seq<NodeView>>, n: NodeView, depth: nat, maxDepth: nat,
                                       maxDepth': nat)
    requires depth <= maxDepth <= maxDepth' && NoPathLonger(children, n, maxDepth - depth + 1)
    ensures RenderNode(children, n, depth, maxDepth') == RenderNode(children, n, depth, maxDepth)
    decreases Height(depth, maxDepth), 0
  {
    if n.id in children {
      if depth < maxDepth {
        forall c | c in children[n.id]
          ensures NoPathLonger(children, c, maxDepth - (depth + 1) + 1)
        {
          KidsShorter(children, n, c, maxDepth - depth);
        }
        RenderListInert(children, children[n.id], depth + 1, maxDepth, maxDepth');
      } else if children[n.id] != [] {
        ConsPath(children, n, [children[n.id][0]]);
        assert false;
      }
    }
  }

  lemma {:induction false} RenderListInert(children: map<string, seq<NodeView>>, ns: seq<NodeView>, depth: nat,
                                           maxDepth: nat, maxDepth': nat)
    requires depth <= maxDepth <= maxDepth'
    requires forall c :: c in ns ==> NoPathLonger(children, c, maxDepth - depth + 1)
    ensures RenderList(children, ns, depth, maxDepth') == RenderList(children, ns, depth, maxDepth)
    decreases Height(depth, maxDepth), |ns| + 1
  {
    if ns != [] {
      assert ns[0] in ns;
      RenderInert(children, ns[0], depth, maxDepth, maxDepth');
      assert forall c :: c in ns[1..] ==> c in ns;
      RenderListInert(children, ns[1..], depth, maxDepth, maxDepth');
    }
  }

  /** Views with the same id are the same view (the item was listed twice at
      most). */
  ghost predicate IdsDetermine(views: seq<NodeView>) {
    forall a, b :: a in views && b in views && a.id == b.id ==> a == b
  }

  /** Along a lineage no view repeats: the parent of a repeated view would
      repeat one step higher, up to the root, whose parent is empty. */
  lemma {:induction false} LineageDistinct(views: seq<NodeView>, p: seq<NodeView>, i: nat, j: nat)
    requires Lineage(views, p) && IdsDetermine(views) && forall v :: v in views ==> v.id != ""
    requires i < j < |p|
    ensures p[i] != p[j]
    decreases i
  {
    assert ParentOf(p[j - 1], p[(j - 1) + 1]) && p[j - 1] in views;
    if i > 0 {
      LineageDistinct(views, p, i - 1, j - 1);
      assert ParentOf(p[i - 1], p[(i - 1) + 1]) && p[i - 1] in views && p[i] in views && p[j] in views;
    }
  }

  lemma {:induction false} SetOfDistinct(p: seq<NodeView>)
    requires forall i, j :: 0 <= i < j < |p| ==> p[i] != p[j]
    ensures |set x | x in p| == |p|
    decreases |p|
  {
    if p != [] {
      var init := p[..|p| - 1];
      SetOfDistinct(init);
      assert (set x | x in p) == (set x | x in init) + {p[|p| - 1]};
      assert p[|p| - 1] !in init;
    }
  }

  lemma {:induction false} SetOfSeq(views: seq<NodeView>)
    ensures |set x | x in views| <= |views|
    decreases |views|
  {
    if views != [] {
      var init := views[..|views| - 1];
      SetOfSeq(init);
      assert (set x | x in views) == (set x | x in init) + {views[|views| - 1]};
    }
  }

  /** A lineage has at most `|views|` views. */
  lemma LineageShort(views: seq<NodeView>, p: seq<NodeView>)
    requires Lineage(views, p) && IdsDetermine(views) && forall v :: v in views ==> v.id != ""
    ensures |p| <= |views|
  {
    forall i, j | 0 <= i < j < |p|
      ensures p[i] != p[j]
    {
      LineageDistinct(views, p, i, j);
    }
    SetOfDistinct(p);
    SetOfSeq(views);
    var a := set x | x in p;
    var b := set x | x in views;
    assert a <= b;
    assert b == a + (b - a);
  }

  /** Every line of the tree is a lineage's last view at depth one less than
      the lineage's length, within the depth limit. */
  lemma PageTreeSound(items: seq<Json>, maxDepth: nat, line: string) returns (p: seq<NodeView>)
    requires line in PageTree(items, maxDepth)
    ensures Lineage(Views(items), p) && |p| - 1 <= maxDepth && line == Line(p[|p| - 1], |p| - 1)
  {
    var views := Views(items);
    p := RenderListSound(ChildrenOf(views), RootsOf(views), 0, maxDepth, line);
    DownIsLineage(views, p);
  }

  /** Every lineage within the depth limit is printed: its last view at depth
      one less than its length. */
  lemma PageTreeComplete(items: seq<Json>, maxDepth: nat, p: seq<NodeView>)
    requires Lineage(Views(items), p) && |p| - 1 <= maxDepth
    ensures Line(p[|p| - 1], |p| - 1) in PageTree(items, maxDepth)
  {
    var views := Views(items);
    var children := ChildrenOf(views);
    var line := Line(p[|p| - 1], |p| - 1);
    LineageIsDown(views, p);
    RenderHas(children, p, 0, maxDepth);
    assert line in RenderNode(children, p[0], 0, maxDepth);
    RenderListHas(children, RootsOf(views), p[0], 0, maxDepth, line);
    assert PageTree(items, maxDepth) == RenderList(children, RootsOf(views), 0, maxDepth);
  }

  /** When repeated ids only repeat the same item, no lineage is longer than
      the item list, so a depth limit of at least `|views|` never cuts the
      tree: the output is the unbounded traversal's. */
  lemma PageTreeDepthInert(items: seq<Json>, maxDepth: nat)
    requires IdsDetermine(Views(items)) && maxDepth >= |Views(items)|
    ensures PageTree(items, maxDepth) == PageTree(items, |Views(items)|)
  {
    var views := Views(items);
    var children := ChildrenOf(views);
    forall r | r in RootsOf(views)
      ensures NoPathLonger(children, r, |views| + 1)
    {
      forall p | DownPath(children, p) && p[0] == r
        ensures |p| <= |views| + 1
      {
        DownIsLineage(views, p);
        LineageShort(views, p);
      }
    }
    RenderListInert(children, RootsOf(views), 0, |views|, maxDepth);
  }

  /** A traversal stack entry. */
  datatype Frame = Frame(node: NodeView, depth: nat)

  /** What the frames still on the stack will print, the top (last) first. */
  function RenderStack(children: map<string, seq<NodeView>>, stack: seq<Frame>, maxDepth: nat): seq<string> {
    if stack == [] then []
    else
      var top := stack[|stack| - 1];
      RenderNode(children, top.node, top.depth, maxDepth) + RenderStack(children, stack[..|stack| - 1], maxDepth)
  }

  function Pow(b: nat, e: nat): (r: nat)
    ensures b > 0 ==> r > 0
  {
    if e == 0 then 1 else b * Pow(b, e - 1)
  }

  /** A termination measure: a frame `h` levels above the depth limit weighs
      `b^h`, and a frame is replaced by fewer than `b` frames one level lower. */
  ghost function Weight(stack: seq<Frame>, b: nat, maxDepth: nat): nat {
    if stack == [] then 0
    else Weight(stack[..|stack| - 1], b, maxDepth) + Pow(b, Height(stack[|stack| - 1].depth, maxDepth))
  }

  /** `n * w` as repeated addition. */
  function Times(n: nat, w: nat): nat {
    if n == 0 then 0 else Times(n - 1, w) + w
  }

  lemma {:induction false} TimesMonotone(n: nat, m: nat, w: nat)
    requires n <= m
    ensures Times(n, w) <= Times(m, w)
    decreases m
  {
    if n < m {
      TimesMonotone(n, m - 1, w);
    }
  }

  lemma {:induction false} TimesMul(n: nat, w: nat)
    ensures Times(n, w) == n * w
    decreases n
  {
    if n > 0 {
      TimesMul(n - 1, w);
    }
  }

  /** A frame `h` levels above the limit outweighs fewer than `b` frames one
      level lower. */
  lemma WeightDrop(k: nat, b: nat, h: nat)
    requires k < b && h > 0
    ensures Times(k, Pow(b, h - 1)) < Pow(b, h)
  {
    TimesMonotone(k, b - 1, Pow(b, h - 1));
    TimesMul(b, Pow(b, h - 1));
    assert Times(b, Pow(b, h - 1)) == Times(b - 1, Pow(b, h - 1)) + Pow(b, h - 1);
  }

  lemma ViewsSnoc(items: seq<Json>, i: nat)
    requires i < |items|
    ensures Views(items[..i + 1]) == Views(items[..i]) + (match ViewOf(items[i]) case None => [] case Some(v) => [v])
  {
    assert items[..i + 1][..i] == items[..i];
  }

  lemma WithParentSnoc(views: seq<NodeView>, v: NodeView)
    ensures forall p :: WithParent(views + [v], p) == WithParent(views, p) + (if v.parentId == p then [v] else [])
    ensures ParentIds(views + [v]) == ParentIds(views) + (if v.parentId != "" then {v.parentId} else {})
  {
    assert (views + [v])[..|views|] == views;
    var vs := views + [v];
    forall q | q in ParentIds(vs) ensures q in ParentIds(views) + (if v.parentId != "" then {v.parentId} else {}) {
      var i :| 0 <= i < |vs| && vs[i].parentId != "" && vs[i].parentId == q;
      if i < |views| {
        assert views[i] == vs[i];
      }
    }
    forall q | q in ParentIds(views) ensures q in ParentIds(vs) {
      var i :| 0 <= i < |views| && views[i].parentId != "" && views[i].parentId == q;
      assert vs[i] == views[i];
    }
    if v.parentId != "" {
      assert vs[|views|] == v;
    }
  }

  /** One step of the grouping loop: a root is appended to `roots`, any
      other view to its parent's list. */
  method AddView(roots: seq<NodeView>, children: map<string, seq<NodeView>>, view: NodeView, ghost vs: seq<NodeView>)
    returns (roots': seq<NodeView>, children': map<string, seq<NodeView>>)
    requires roots == WithParent(vs, "")
    requires children.Keys == ParentIds(vs)
    requires forall p :: p in children ==> children[p] == WithParent(vs, p)
    ensures roots' == WithParent(vs + [view], "")
    ensures children'.Keys == ParentIds(vs + [view])
    ensures forall p :: p in children' ==> children'[p] == WithParent(vs + [view], p)
  {
    WithParentSnoc(vs, view);
    if view.parentId == "" {
      roots', children' := roots + [view], children;
    } else {
      var siblings := if view.parentId in children then children[view.parentId] else [];
      if view.parentId !in children {
        NoParentNoChildren(vs, view.parentId);
      }
      roots', children' := roots, children[view.parentId := siblings + [view]];
    }
  }

  /** The grouping loop of `build_page_tree`: `roots` and the `children` map. */
  method GroupViews(items: seq<Json>) returns (roots: seq<NodeView>, children: map<string, seq<NodeView>>)
    ensures roots == WithParent(Views(items), "")
    ensures children.Keys == ParentIds(Views(items))
    ensures forall p :: p in children ==> children[p] == WithParent(Views(items), p)
  {
    roots := [];
    children := map[];
    ghost var vs: seq<NodeView> := [];
    var i := 0;
    while i < |items|
      invariant 0 <= i <= |items|
      invariant vs == Views(items[..i])
      invariant roots == WithParent(vs, "")
      invariant children.Keys == ParentIds(vs)
      invariant forall p :: p in children ==> children[p] == WithParent(vs, p)
    {
      ViewsSnoc(items, i);
      var view := ViewOf(items[i]);
      if view.Some? {
        roots, children := AddView(roots, children, view.value, vs);
        vs := vs + [view.value];
      }
      i := i + 1;
    }
    assert items[..i] == items;
  }

  lemma {:induction false} NoParentNoChildren(views: seq<NodeView>, p: string)
    requires p != "" && p !in ParentIds(views)
    ensures WithParent(views, p) == []
  {
    if views != [] {
      var init := views[..|views| - 1];
      assert views == init + [views[|views| - 1]];
      WithParentSnoc(init, views[|views| - 1]);
      NoParentNoChildren(init, p);
    }
  }

  /** Pushing a frame puts its subtree first and adds its weight. */
  lemma PushFrame(children: map<string, seq<NodeView>>, stack: seq<Frame>, f: Frame, maxDepth: nat, b: nat)
    ensures RenderStack(children, stack + [f], maxDepth) == RenderNode(children, f.node, f.depth, maxDepth) + RenderStack(children, stack, maxDepth)
    ensures Weight(stack + [f], b, maxDepth) == Weight(stack, b, maxDepth) + Pow(b, Height(f.depth, maxDepth))
  {
    assert (stack + [f])[..|stack|] == stack;
  }

  lemma RenderListCons(children: map<string, seq<NodeView>>, ns: seq<NodeView>, k: nat, depth: nat, maxDepth: nat)
    requires 0 < k <= |ns|
    ensures RenderList(children, ns[k - 1..], depth, maxDepth)
      == RenderNode(children, ns[k - 1], depth, maxDepth) + RenderList(children, ns[k..], depth, maxDepth)
  {
    assert ns[k - 1..][1..] == ns[k..];
  }

  /** One push of `PushChildren` keeps its loop invariant. */
  lemma PushStep(children: map<string, seq<NodeView>>, stack: seq<Frame>, pushed: seq<Frame>, kids: seq<NodeView>,
                 k: nat, depth: nat, maxDepth: nat, b: nat, w: nat)
    requires 0 < k <= |kids|
    requires RenderStack(children, pushed, maxDepth)
      == RenderList(children, kids[k..], depth + 1, maxDepth) + RenderStack(children, stack, maxDepth)
    requires Weight(pushed, b, maxDepth) == Weight(stack, b, maxDepth) + Times(|kids| - k, w)
    requires w == Pow(b, Height(depth + 1, maxDepth))
    ensures RenderStack(children, pushed + [Frame(kids[k - 1], depth + 1)], maxDepth)
      == RenderList(children, kids[k - 1..], depth + 1, maxDepth) + RenderStack(children, stack, maxDepth)
    ensures Weight(pushed + [Frame(kids[k - 1], depth + 1)], b, maxDepth)
      == Weight(stack, b, maxDepth) + Times(|kids| - (k - 1), w)
  {
    var node := RenderNode(children, kids[k - 1], depth + 1, maxDepth);
    PushFrame(children, pushed, Frame(kids[k - 1], depth + 1), maxDepth, b);
    RenderListCons(children, kids, k, depth + 1, maxDepth);
    assert node + (RenderList(children, kids[k..], depth + 1, maxDepth) + RenderStack(children, stack, maxDepth))
      == node + RenderList(children, kids[k..], depth + 1, maxDepth) + RenderStack(children, stack, maxDepth);
    assert Times(|kids| - (k - 1), w) == Times(|kids| - k, w) + w;
  }

  /** `for kid in kids.iter().rev() { stack.push((kid, depth + 1)) }` */
  method PushChildren(stack: seq<Frame>, kids: seq<NodeView>, depth: nat, ghost children: map<string, seq<NodeView>>,
                      maxDepth: nat, ghost b: nat)
    returns (pushed: seq<Frame>)
    ensures RenderStack(children, pushed, maxDepth)
      == RenderList(children, kids, depth + 1, maxDepth) + RenderStack(children, stack, maxDepth)
    ensures Weight(pushed, b, maxDepth) == Weight(stack, b, maxDepth) + Times(|kids|, Pow(b, Height(depth + 1, maxDepth)))
  {
    ghost var w := Pow(b, Height(depth + 1, maxDepth));
    pushed := stack;
    var k := |kids|;
    while k > 0
      invariant 0 <= k <= |kids|
      invariant RenderStack(children, pushed, maxDepth)
        == RenderList(children, kids[k..], depth + 1, maxDepth) + RenderStack(children, stack, maxDepth)
      invariant Weight(pushed, b, maxDepth) == Weight(stack, b, maxDepth) + Times(|kids| - k, w)
    {
      PushStep(children, stack, pushed, kids, k, depth, maxDepth, b, w);
      pushed := pushed + [Frame(kids[k - 1], depth + 1)];
      k := k - 1;
    }
  }

  /** Sorting each list of the grouping gives the ordered children. */
  lemma SortedGroups(children: map<string, seq<NodeView>>, views: seq<NodeView>)
    requires children.Keys == ParentIds(views)
    requires forall p :: p in children ==> children[p] == WithParent(views, p)
    ensures (map p | p in children :: Sorting.SortByKey(children[p], Position)) == ChildrenOf(views)
  {
  }

  /** Popping the top frame prints its line, then its subtree's lines come
      next, then the rest of the stack's. */
  lemma PopFrame(children: map<string, seq<NodeView>>, rest: seq<Frame>, top: Frame, maxDepth: nat)
    ensures RenderStack(children, rest + [top], maxDepth)
      == [Line(top.node, top.depth)]
         + (if top.depth < maxDepth && top.node.id in children
            then RenderList(children, children[top.node.id], top.depth + 1, maxDepth) else [])
         + RenderStack(children, rest, maxDepth)
  {
    PushFrame(children, rest, top, maxDepth, 0);
  }

  /** The weight of the stack drops when the top frame is replaced by its
      children. */
  lemma PopWeight(rest: seq<Frame>, top: Frame, kids: nat, maxDepth: nat, b: nat)
    requires top.depth < maxDepth && kids < b
    ensures Weight(rest, b, maxDepth) + Times(kids, Pow(b, Height(top.depth + 1, maxDepth)))
      < Weight(rest + [top], b, maxDepth)
  {
    PushFrame(map[], rest, top, maxDepth, b);
    WeightDrop(kids, b, maxDepth - top.depth);
  }

  /** `for root in roots.into_iter().rev() { stack.push((root, 0)) }` */
  method PushRoots(roots: seq<NodeView>, ghost children: map<string, seq<NodeView>>, maxDepth: nat)
    returns (stack: seq<Frame>)
    ensures RenderStack(children, stack, maxDepth) == RenderList(children, roots, 0, maxDepth)
  {
    stack := [];
    var i := |roots|;
    while i > 0
      invariant 0 <= i <= |roots|
      invariant RenderStack(children, stack, maxDepth) == RenderList(children, roots[i..], 0, maxDepth)
    {
      PushFrame(children, stack, Frame(roots[i - 1], 0), maxDepth, 0);
      RenderListCons(children, roots, i, 0, maxDepth);
      stack := stack + [Frame(roots[i - 1], 0)];
      i := i - 1;
    }
  }

  /** A popped frame that is not expanded leaves only its own line. */
  lemma PopLeaf(children: map<string, seq<NodeView>>, rest: seq<Frame>, top: Frame, maxDepth: nat, b: nat)
    requires b > 0 && !(top.depth < maxDepth && top.node.id in children)
    ensures [Line(top.node, top.depth)] + RenderStack(children, rest, maxDepth) == RenderStack(children, rest + [top], maxDepth)
    ensures Weight(rest, b, maxDepth) < Weight(rest + [top], b, maxDepth)
  {
    PopFrame(children, rest, top, maxDepth);
    PushFrame(children, rest, top, maxDepth, b);
  }

  /** A popped frame that is expanded prints its line, then its children. */
  lemma PopInner(children: map<string, seq<NodeView>>, rest: seq<Frame>, top: Frame, maxDepth: nat,
                 pushed: seq<Frame>)
    requires top.depth < maxDepth && top.node.id in children
    requires RenderStack(children, pushed, maxDepth)
      == RenderList(children, children[top.node.id], top.depth + 1, maxDepth) + RenderStack(children, rest, maxDepth)
    ensures [Line(top.node, top.depth)] + RenderStack(children, pushed, maxDepth) == RenderStack(children, rest + [top], maxDepth)
  {
    var line := [Line(top.node, top.depth)];
    var kids := RenderList(children, children[top.node.id], top.depth + 1, maxDepth);
    var below := RenderStack(children, rest, maxDepth);
    PushFrame(children, rest, top, maxDepth, 0);
    NodeLines(children, top.node, top.depth, maxDepth);
    Regroup(line, kids, below, RenderStack(children, pushed, maxDepth), RenderStack(children, rest + [top], maxDepth));
  }

  lemma NodeLines(children: map<string, seq<NodeView>>, n: NodeView, depth: nat, maxDepth: nat)
    requires depth < maxDepth && n.id in children
    ensures RenderNode(children, n, depth, maxDepth) == [Line(n, depth)] + RenderList(children, children[n.id], depth + 1, maxDepth)
  {
  }

  lemma Regroup<T>(a: seq<T>, b: seq<T>, c: seq<T>, bc: seq<T>, abc: seq<T>)
    requires bc == b + c && abc == (a + b) + c
    ensures a + bc == abc
  {
  }

  /** One turn of the traversal loop: pop a frame, print its line, push its
      children in reverse. */
  method Pop(children: map<string, seq<NodeView>>, stack: seq<Frame>, maxDepth: nat, ghost b: nat)
    returns (line: string, stack': seq<Frame>)
    requires stack != []
    requires b > 0 && forall p :: p in children ==> |children[p]| < b
    ensures [line] + RenderStack(children, stack', maxDepth) == RenderStack(children, stack, maxDepth)
    ensures Weight(stack', b, maxDepth) < Weight(stack, b, maxDepth)
  {
    var top := stack[|stack| - 1];
    var rest := stack[..|stack| - 1];
    assert stack == rest + [top];
    line := Line(top.node, top.depth);
    if top.depth < maxDepth && top.node.id in children {
      stack' := PushChildren(rest, children[top.node.id], top.depth, children, maxDepth, b);
      PopInner(children, rest, top, maxDepth, stack');
      PopWeight(rest, top, |children[top.node.id]|, maxDepth, b);
    } else {
      PopLeaf(children, rest, top, maxDepth, b);
      stack' := rest;
    }
  }

  /** The traversal loop of `build_page_tree`. */
  method Traverse(children: map<string, seq<NodeView>>, roots: seq<NodeView>, maxDepth: nat, ghost b: nat)
    returns (lines: seq<string>)
    requires b > 0 && forall p :: p in children ==> |children[p]| < b
    ensures lines == RenderList(children, roots, 0, maxDepth)
  {
    lines := [];
    var stack := PushRoots(roots, children, maxDepth);
    ghost var tree := RenderList(children, roots, 0, maxDepth);
    while stack != []
      invariant lines + RenderStack(children, stack, maxDepth) == tree
      decreases Weight(stack, b, maxDepth)
    {
      ghost var before := stack;
      var line;
      line, stack := Pop(children, stack, maxDepth, b);
      assert lines + RenderStack(children, before, maxDepth) == (lines + [line]) + RenderStack(children, stack, maxDepth);
      lines := lines + [line];
    }
  }

  /** `build_page_tree`: group the items by parent, order roots and siblings
      by `childPosition`, then print in pre-order with an explicit stack.
      Frames at depth `maxDepth` are not expanded. */
  method BuildPageTree(items: seq<Json>, maxDepth: nat) returns (lines: seq<string>)
    ensures lines == PageTree(items, maxDepth)
  {
    ghost var views := Views(items);
    var roots, children := GroupViews(items);
    SortedGroups(children, views);
    roots := Sorting.SortByKey(roots, Position);
    children := map p | p in children :: Sorting.SortByKey(children[p], Position);
    lines := Traverse(children, roots, maxDepth, |views| + 1);
    assert roots == RootsOf(views) && children == ChildrenOf(views);
  }
}
