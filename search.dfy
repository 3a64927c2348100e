/**
 * src/commands/search.rs: the query guard and space wrapping of `handle`,
 * `to_cql_query` (a query that already looks like CQL passes through, any
 * other text becomes a quoted `text ~` search) and `search_all`, the
 * offset-paginated collection of every result, capped at 10,000 pages.
 * The two regexes `to_cql_query` uses are stated as the predicates they match.
 */
module Search {
  import opened Wrappers
  import opened Strings
  import opened Json
  import opened Cql

  // ------------------------------------------------------------ to_cql_query

  /** The regex class `\w`, on ASCII. */
  predicate IsWordChar(c: char) { IsAsciiAlnum(c) || c == '_' }

  /** The characters of `[=~!<>]`. */
  predicate IsOpChar(c: char) { c == '=' || c == '~' || c == '!' || c == '<' || c == '>' }

  const KEYWORDS: seq<string> := ["AND", "OR", "NOT", "IN"]

  /** `w` occurs at `i` with a word boundary on each side. */
  predicate KeywordAt(q: string, i: nat, w: string) {
    i + |w| <= |q| && q[i..i + |w|] == w
    && (i == 0 || !IsWordChar(q[i - 1]))
    && (i + |w| == |q| || !IsWordChar(q[i + |w|]))
  }

  /** `\b(AND|OR|NOT|IN)\b` matches somewhere in `q`. */
  predicate HasKeyword(q: string)
    ensures HasKeyword(q) ==> |q| >= 2
  {
    exists i, k :: 0 <= i < |q| && 0 <= k < |KEYWORDS| && KeywordAt(q, i, KEYWORDS[k])
  }

  /** A word character at `k`, whitespace strictly between, an operator at `j`. */
  predicate FieldOpAt(q: string, k: nat, j: nat) {
    k < j < |q| && IsWordChar(q[k]) && IsOpChar(q[j])
    && forall m :: k < m < j ==> IsWhitespace(q[m])
  }

  /** `\w+\s*[=~!<>]` matches somewhere in `q`. */
  predicate HasFieldOp(q: string)
    ensures HasFieldOp(q) ==> exists j :: 0 < j < |q| && IsOpChar(q[j])
  {
    exists k, j :: 0 <= k < j < |q| && FieldOpAt(q, k, j)
  }

  /** The three signs `to_cql_query` takes for CQL written by the user. */
  predicate LooksLikeCql(q: string)
    ensures LooksLikeCql(q) ==> |q| >= 2
  {
    HasKeyword(q) || HasFieldOp(q) || ('(' in q && ')' in q)
  }

  const TEXT_PREFIX: string := "text ~ \""

  /** `to_cql_query` */
  function ToCqlQuery(query: string): (cql: string)
    ensures LooksLikeCql(query) ==> cql == query
  {
    if LooksLikeCql(query) then query else TEXT_PREFIX + EscapeCqlText(query) + "\""
  }

  /** Text that does not look like CQL becomes a `text ~` search whose quoted
      string is exactly the text (line breaks and tabs as spaces) and runs to
      the end of the query. */
  lemma TextSearchQuotesQuery(query: string)
    requires !LooksLikeCql(query)
    ensures var cql := ToCqlQuery(query);
      |cql| > |TEXT_PREFIX| && cql[..|TEXT_PREFIX|] == TEXT_PREFIX
      && ReadLiteral(cql[|TEXT_PREFIX|..]) == Some((Blank(query), ""))
  {
    var cql := ToCqlQuery(query);
    assert cql[|TEXT_PREFIX|..] == EscapeCqlText(query) + "\"" + "";
    EscapeReadsBack(query, "");
  }

  lemma FieldQueryPassesThrough()
    ensures ToCqlQuery("type = page") == "type = page"
  {
    assert FieldOpAt("type = page", 3, 5);
  }

  // ------------------------------------------------------------------ handle

  const SPACE_PREFIX: string := "space = \""

  /** The filter `handle` puts around the query when a space is given. */
  function SpaceFilter(key: string, cql: string): string {
    SPACE_PREFIX + EscapeCqlText(key) + "\" AND (" + cql + ")"
  }

  /** The key is one quoted string, whatever it holds, and the bracketed query
      follows it. */
  lemma SpaceFilterQuotesKey(key: string, cql: string)
    ensures var f := SpaceFilter(key, cql);
      |f| > |SPACE_PREFIX| && f[..|SPACE_PREFIX|] == SPACE_PREFIX
      && ReadLiteral(f[|SPACE_PREFIX|..]) == Some((Blank(key), " AND (" + cql + ")"))
  {
    var f := SpaceFilter(key, cql);
    var after := " AND (" + cql + ")";
    assert f[|SPACE_PREFIX|..] == EscapeCqlText(key) + "\"" + after;
    EscapeReadsBack(key, after);
  }

  /** The CQL `handle` sends: an empty or blank query is refused before
      anything else, and a space filter wraps the translated query. */
  function SearchCql(query: string, space: Option<string>): (r: Result<string>)
    ensures r.Err? <==> Trim(query) == ""
    ensures r.Err? ==> r.error == "Search query cannot be empty"
    ensures r.Ok? && space.None? ==> r.value == ToCqlQuery(query)
    ensures r.Ok? && space.Some? ==> r.value == SpaceFilter(space.value, ToCqlQuery(query))
  {
    if Trim(query) == "" then Err("Search query cannot be empty")
    else match space
      case None => Ok(ToCqlQuery(query))
      case Some(key) => Ok(SpaceFilter(key, ToCqlQuery(query)))
  }

  // -------------------------------------------------------------- search_all

  /** `json.get("results").and_then(|v| v.as_array())`, empty otherwise. */
  function ResultsOf(json: Json): seq<Json> {
    match Get(json, "results")
    case Some(JArr(items)) => items
    case _ => []
  }

  const MAX_PAGES: nat := 10000
  const LIMIT_ERROR: string := "--limit must be at least 1"
  const ABORTED: string := "Search pagination aborted after 10000 pages (possible looping server response)"

  /** The items of page `i`, requested with `start = i * limit`; `fetch` is the
      server, giving the JSON answer or the error of the request. */
  function PageAt(fetch: nat -> Result<Json>, limit: nat, i: nat): Result<seq<Json>> {
    match fetch(i * limit)
    case Err(e) => Err(e)
    case Ok(json) => Ok(ResultsOf(json))
  }

  /** Page `i` arrived and holds at least `limit` items, so the search goes on. */
  predicate Full(fetch: nat -> Result<Json>, limit: nat, i: nat) {
    PageAt(fetch, limit, i).Ok? && |PageAt(fetch, limit, i).value| >= limit
  }

  function Prefixed(items: seq<Json>, r: Result<seq<Json>>): Result<seq<Json>> {
    match r
    case Ok(rest) => Ok(items + rest)
    case Err(e) => Err(e)
  }

  /** The rest of the search once `pages` pages were requested. */
  function Collect(fetch: nat -> Result<Json>, limit: nat, pages: nat): Result<seq<Json>>
    requires 1 <= limit
    decreases MAX_PAGES - pages
  {
    if pages >= MAX_PAGES then Err(ABORTED)
    else match PageAt(fetch, limit, pages)
      case Err(e) => Err(e)
      case Ok(page) =>
        if |page| == 0 then Ok([])
        else if |page| < limit then Ok(page)
        else Prefixed(page, Collect(fetch, limit, pages + 1))
  }

  /** `search_all`, the specification of the loop below. */
  function SearchAll(fetch: nat -> Result<Json>, limit: nat): (r: Result<seq<Json>>)
    ensures limit == 0 ==> r == Err(LIMIT_ERROR)
  {
    if limit == 0 then Err(LIMIT_ERROR) else Collect(fetch, limit, 0)
  }

  lemma PrefixedTwice(a: seq<Json>, b: seq<Json>, r: Result<seq<Json>>)
    ensures Prefixed(a, Prefixed(b, r)) == Prefixed(a + b, r)
  {
    if r.Ok? {
      assert a + (b + r.value) == (a + b) + r.value;
    }
  }

  /** The loop of `search_all`. */
  method SearchAllLoop(fetch: nat -> Result<Json>, limit: nat) returns (r: Result<seq<Json>>)
    ensures r == SearchAll(fetch, limit)
  {
    if limit == 0 {
      return Err(LIMIT_ERROR);
    }
    var start := 0;
    var pages := 0;
    var results := [];
    assert Prefixed([], Collect(fetch, limit, 0)) == Collect(fetch, limit, 0) by {
      if Collect(fetch, limit, 0).Ok? {
        assert [] + Collect(fetch, limit, 0).value == Collect(fetch, limit, 0).value;
      }
    }
    while true
      invariant pages <= MAX_PAGES && start == pages * limit
      invariant SearchAll(fetch, limit) == Prefixed(results, Collect(fetch, limit, pages))
      decreases MAX_PAGES - pages
    {
      if pages + 1 > MAX_PAGES {
        return Err(ABORTED);
      }
      var answer := fetch(start);
      if answer.Err? {
        return Err(answer.error);
      }
      var page := ResultsOf(answer.value);
      if |page| == 0 {
        assert results + [] == results;
        return Ok(results);
      }
      if |page| < limit {
        return Ok(results + page);
      }
      PrefixedTwice(results, page, Collect(fetch, limit, pages + 1));
      results := results + page;
      pages := pages + 1;
      start := start + limit;
    }
  }

  /** The items of pages `0 .. k - 1`, all full, in page order. */
  function PagesBefore(fetch: nat -> Result<Json>, limit: nat, k: nat): seq<Json>
    requires forall i :: 0 <= i < k ==> Full(fetch, limit, i)
  {
    if k == 0 then []
    else
      assert Full(fetch, limit, k - 1);
      PagesBefore(fetch, limit, k - 1) + PageAt(fetch, limit, k - 1).value
  }

  /** After `k` full pages the search has collected them in order and goes on
      with the request at `start = k * limit`. */
  lemma {:induction false} SearchAfterFullPages(fetch: nat -> Result<Json>, limit: nat, k: nat)
    requires 1 <= limit && k <= MAX_PAGES
    requires forall i :: 0 <= i < k ==> Full(fetch, limit, i)
    ensures SearchAll(fetch, limit) == Prefixed(PagesBefore(fetch, limit, k), Collect(fetch, limit, k))
  {
    if k == 0 {
      assert Prefixed([], Collect(fetch, limit, 0)) == Collect(fetch, limit, 0) by {
        if Collect(fetch, limit, 0).Ok? {
          assert [] + Collect(fetch, limit, 0).value == Collect(fetch, limit, 0).value;
        }
      }
    } else {
      SearchAfterFullPages(fetch, limit, k - 1);
      assert Full(fetch, limit, k - 1);
      var page := PageAt(fetch, limit, k - 1).value;
      assert Collect(fetch, limit, k - 1) == Prefixed(page, Collect(fetch, limit, k));
      PrefixedTwice(PagesBefore(fetch, limit, k - 1), page, Collect(fetch, limit, k));
    }
  }

  /** The first page shorter than the limit (an empty one included) ends the
      search with everything collected up to and including it. */
  lemma SearchStopsAtShortPage(fetch: nat -> Result<Json>, limit: nat, k: nat)
    requires 1 <= limit && k < MAX_PAGES
    requires forall i :: 0 <= i < k ==> Full(fetch, limit, i)
    requires PageAt(fetch, limit, k).Ok? && |PageAt(fetch, limit, k).value| < limit
    ensures SearchAll(fetch, limit) == Ok(PagesBefore(fetch, limit, k) + PageAt(fetch, limit, k).value)
  {
    SearchAfterFullPages(fetch, limit, k);
    if PageAt(fetch, limit, k).value == [] {
      assert PagesBefore(fetch, limit, k) + [] == PagesBefore(fetch, limit, k);
    }
  }

  /** A failed request ends the search with its error; the pages collected
      before are dropped. */
  lemma SearchFailsWithRequest(fetch: nat -> Result<Json>, limit: nat, k: nat)
    requires 1 <= limit && k < MAX_PAGES
    requires forall i :: 0 <= i < k ==> Full(fetch, limit, i)
    requires PageAt(fetch, limit, k).Err?
    ensures SearchAll(fetch, limit) == Err(PageAt(fetch, limit, k).error)
  {
    SearchAfterFullPages(fetch, limit, k);
  }

  /** 10,000 full pages abort the search. */
  lemma SearchAbortsAfterMaxPages(fetch: nat -> Result<Json>, limit: nat)
    requires 1 <= limit
    requires forall i :: 0 <= i < MAX_PAGES ==> Full(fetch, limit, i)
    ensures SearchAll(fetch, limit) == Err(ABORTED)
  {
    SearchAfterFullPages(fetch, limit, MAX_PAGES);
  }
}
