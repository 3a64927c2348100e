/**
 * The pieces of a parsed URL (the `url` crate's `Url`) that the client reads.
 * Parsing, percent-decoding and form-decoding belong to that library and are
 * given: a `ParsedUrl` is what `Url::parse` produced.
 */
module Urls {
  import opened Wrappers
  import opened Strings

  /** `port` is `None` when the URL names no port or the scheme's default one,
      as `Url::port` reports it; `query` holds the decoded `query_pairs()`. */
  datatype ParsedUrl = ParsedUrl(
    scheme: string,
    host: Option<string>,
    port: Option<nat>,
    path: string,
    query: seq<(string, string)>)

  /** `url.path_segments()`: the path after its leading `/`, split on `/`;
      `None` for a URL whose path does not start with `/`. */
  function PathSegments(u: ParsedUrl): (r: Option<seq<string>>)
    ensures r.Some? <==> StartsWith(u.path, "/")
    ensures r.Some? ==> Join(r.value, "/") == u.path[1..]
  {
    if StartsWith(u.path, "/") then
      JoinSplit(u.path[1..], '/');
      Some(Split(u.path[1..], '/'))
    else None
  }
}
