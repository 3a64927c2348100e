# confcli, modelled in Dafny

confcli is a command-line client for Confluence Cloud. It resolves page references (an id, a page URL or
`SPACE:Title`) to page ids, lists, reads, creates, edits, updates and deletes pages, walks and copies page
trees, searches with CQL, manages labels, comments and attachments, and exports a page with its attachments
to a folder. It talks to the v1 and v2 REST APIs through a client that retries on 429/5xx and follows
pagination links. This project models the decision logic of that core and proves properties of it. A small
Python script that extracts one version's section from the changelog is modelled too.

One Dafny module stands for each core source file:
`Client`, `Pagination`, `Resolve`, `Tree`, `CopyTree`, `Pattern`, `Download`, `Search`, `Label`, `Markdown`,
`CliCommon`, `Comment`, `WriteOps`, `Listing`, `Export`, `Attachment`, `Helpers`, `Json` (json_util),
`Config` and `Changelog`. They share a few modules of common values: `Wrappers` (Option and Result), `Strings`,
`Paths` (Rust path components), `Sorting` (the stable `sort_by_key`), `Cql` (CQL string escaping), `Http`
(headers) and `Urls`.

The environment is not part of the model. Every answer from outside is a parameter:
- the server's answers are a scripted sequence or a function from request to answer;
- the clock and the jitter source are functions with their stated bounds;
- the file system is a map from path to contents;
- prompts, stdin and file reads are given values;
- the HTML-to-Markdown converter, the regex compiler and the URL parser are given functions.

The results record which requests are sent, in order, what is printed, and the outcome. Loops in the source
become methods with loop invariants, proved equal to a recursive specification function. Lemmas then state
the properties about those functions. State the source updates in place is modelled as such: the space-key
cache is a class, and the attachment approval, join and export loops thread explicit state. An error is
identified by its outermost message.

## Model

| member | source | states |
|---|---|---|
| Json.Get | src/json_util.rs:6 | the field of an object under `key`, and nothing for a missing key or a value that is not an object |
| Json.JsonStr | src/json_util.rs:5-12 | a string field as itself, a number as its canonical decimal text (no leading zero, no `-0`) that reads back as the number, a boolean as `true`/`false`, anything else as the empty string |
| Strings.IntToStringCanonical | src/json_util.rs:8 | an integer prints with no leading zero and no `-0`, as Rust's `to_string` does |
| Http.HeaderStr | src/pagination.rs:4 | a header is readable exactly when present and visible ASCII, and then it is the header's text |
| Pagination.ParseTrimmed | src/pagination.rs:6-10 | finds the first `<` and the first `>` of a trimmed segment; missing when either is absent, backwards exactly when `>` comes first |
| Pagination.ScanSegments | src/pagination.rs:5-15 | a link is found exactly when some segment is a `rel=next` link reached past only well-formed other segments, and it is that segment's URL |
| Pagination.NextAtFirst | src/pagination.rs:7-13 | a first segment that does not pass the scan on decides it |
| Pagination.NextAtTail | src/pagination.rs:5-14 | past a well-formed non-next first segment the answer is the answer for the rest |
| Pagination.MissingBracketStops | src/pagination.rs:7-8 | a segment without `<` or `>` ends the lookup with no link, even when a later segment is a next link |
| Pagination.NextLinkFromHeaders | src/pagination.rs:3-16 | no readable `link` header gives no link; otherwise the scan of its comma-separated segments |
| Pagination.NoLinkHeader | src/pagination.rs:4 | a response without a `link` header has no header link |
| Pagination.BackwardsSegmentPanics | src/pagination.rs:7-9 | as written, a `link` header whose only segment starts with `>` and holds a `<` panics at the slice |
| Pagination.ScanAsWritten | src/pagination.rs:3-16 | the loop as written: it panics only at a segment whose `>` comes before its `<`, and a link it returns is the URL of one of the segments |
| Pagination.BackwardsParse | src/pagination.rs:7-8 | a segment starting with `>` that holds a `<` has its `>` before its `<` |
| Pagination.BackwardsSegmentExample | src/pagination.rs:9 | the header `><a>; rel=next` panics as written |
| Pagination.ScanAgrees | src/pagination.rs:5-15 | wherever the code as written returns, the corrected scan returns the same link |
| Pagination.NextLinkFromBody | src/pagination.rs:18-24 | `_links.next` exactly when it is present and a string |
| CliCommon.Utf8Len | src/cli/common.rs:7 | the UTF-8 byte length is at least the number of characters |
| CliCommon.AsciiUtf8Len | src/cli/common.rs:7 | for ASCII text the byte length is the character count |
| CliCommon.ParseSpaceKey | src/cli/common.rs:2-19 | each error of the trimmed key in the source's order (empty, not 2-32 bytes, first not A-Z, rest not A-Z/0-9) and the trimmed key on success |
| CliCommon.ValidKeyAscii | src/cli/common.rs:12-17 | a key that passes the character checks is ASCII, so its byte length is its length |
| CliCommon.ParseSpaceKeyIff | src/cli/common.rs:2-19 | a key is accepted exactly when its trimmed text is a valid space key, and the trimmed text is returned |
| CliCommon.ParsePositiveLimit | src/cli/common.rs:21-30 | accepted exactly when the trimmed text is a `usize` of at least 1, with the two error messages for non-numbers and zero |
| CliCommon.LimitRoundTrip | src/cli/common.rs:21-30 | the decimal text of every positive 64-bit value is accepted as that value |
| Config.Var | src/config.rs:34 | an environment variable is read exactly when it is set |
| Config.UrlSource | src/config.rs:34-41 | `CONFLUENCE_BASE_URL`, else `CONFLUENCE_URL`, else `https://` and `CONFLUENCE_DOMAIN` |
| Config.NormaliseUrl | src/config.rs:43-54 | `https://` is put in front only when the URL does not start with `http`, `/wiki` appended only when missing; a URL with both is kept |
| Config.BareWikiDomain | src/config.rs:45-50 | the bare text `wiki` becomes `https://wiki`, since it already ends with `/wiki` once prefixed |
| Config.NormaliseIdempotent | src/config.rs:43-54 | normalising a normalised URL changes nothing |
| Config.AuthFromEnv | src/config.rs:56-73 | a bearer token wins; otherwise basic auth needs both e-mail and token |
| Config.FromEnv | src/config.rs:33-74 | a configuration exactly when a URL source and an auth method are both present, built from the normalised URL |
| Config.FromEnvUrlShape | src/config.rs:43-54 | the URL of a configuration from the environment starts with `http`, ends with `/wiki` and is already normal |
| Pattern.Escape | src/pattern.rs:10-19 | the regex text of one glob character is never empty and never starts with `*` |
| Pattern.BodySnoc | src/pattern.rs:9-20 | the loop appends one character's translation per glob character |
| Pattern.GlobToRegexSource | src/pattern.rs:8-21 | the loop builds `^`, the translation of every character, then `$` |
| Pattern.BodyHead | src/pattern.rs:10-19 | a translation never starts with `*` |
| Pattern.UntranslateBody | src/pattern.rs:10-19 | the translation can be decoded back to the glob |
| Pattern.TranslateInjective | src/pattern.rs:8-21 | two globs with the same regex source are the same glob |
| Pattern.GlobToRegexCi | src/pattern.rs:7-27 | a regex exactly when the builder accepts the translation; otherwise `Invalid glob pattern: ` and the builder's message |
| Pattern.IsMatchGlob | src/pattern.rs:23-25 | the case-insensitive anchored regex matches a name exactly when the glob does (`*` any run, `?` one character, others themselves) |
| Pattern.SameLetter | src/pattern.rs:22-26 | case-insensitive comparison of one character: every character matches itself, and an ASCII capital matches its lower case |
| Pattern.StarMatchesAll | src/pattern.rs:11 | `*` matches every single-line name |
| Urls.PathSegments | src/resolve.rs:168 | the path segments of a URL whose path starts with `/`, which joined with `/` give the rest of the path |
| Wrappers.OkOr | src/client.rs:303-306 | `context(msg)`: a present value passes, a missing one becomes the error `msg` |
| Client.OriginFromUrl | src/client.rs:333-340 | a parse error passes through, a URL without host fails with `Invalid Confluence URL: missing host`, otherwise `scheme://host[:port]` whose parts read back |
| Client.OriginSplits | src/client.rs:338-339 | an origin splits back into its scheme, host and port |
| Client.NewClient | src/client.rs:38-63 | taking the HTTP client's build to succeed, the client exists exactly when the origin of the slash-trimmed site URL does; the three URLs are kept without trailing slashes |
| Client.TrimmedSlashes | src/client.rs:45-47 | `trim_end_matches('/')` removes exactly the trailing slashes |
| Client.TrailingSlashesIgnored | src/client.rs:45-47 | appending slashes to the configured URLs builds the same client and the same v1/v2 request URLs |
| Client.AuthorizationHeader | src/client.rs:85-96 | `Basic` and the encoding of `email:token`, or `Bearer` and the token |
| Client.BasicCredentialsSplit | src/client.rs:88 | an e-mail without `:` is recovered from the credential text |
| Client.Jitter | src/client.rs:342-353 | no jitter when the maximum is zero, otherwise below the maximum |
| Client.RetryWaitMs | src/client.rs:100-108 | `Retry-After` seconds plus under 250 ms of jitter, else `2^(attempt-1)` seconds plus the jitter |
| Client.Decide | src/client.rs:125-163 | retry exactly on a transport error or a 429/5xx while attempts are left; success exactly on a 2xx reply; `Request failed: {status} {body}` otherwise |
| Client.Send | src/client.rs:110-166 | the retry loop sends the requests, waits and result of the recursive specification of `send` |
| Client.SendCount | src/client.rs:111-146 | at most four requests, one wait between consecutive ones, and the last request's decision is the result |
| Client.SendRetries | src/client.rs:139-160 | every request before the last was retried, with the wait of its kind |
| Client.SendShape | src/client.rs:110-166 | request count, wait count and final decision of a whole `send` |
| Client.SendReturnsFirstSuccess | src/client.rs:134-135 | after only retryable failures, the first 2xx reply is returned |
| Client.SendOkIsSuccess | src/client.rs:134-135 | a returned response always has a 2xx status |
| Client.SendNoRetryOnClientError | src/client.rs:149-150 | a non-retryable error status fails at once with its status and body |
| Client.SendGivesUp | src/client.rs:139-162 | four retryable failures in a row make four requests and three waits |
| Client.SendWaits | src/client.rs:141-155 | a transport error waits `2^i` seconds with no jitter; a reply waits `Retry-After` or `2^i` seconds plus under 250 ms |
| Client.GetJson | src/client.rs:233-238 | the body and headers of a successful response whose body is JSON |
| Client.UploadAttachment | src/client.rs:296-330 | `Invalid file name`, then the open error, then `Upload failed: {status} {body}` on a non-2xx reply, else the reply's JSON |
| Client.UploadNotRetried | src/client.rs:291-294 | the upload sends once: a 503 that `send` would retry fails the upload at once |
| Client.PaginateHead | src/client.rs:243-267 | one page: an error stops, a body without results fails, `all` unset or no next link stops, else the next URL follows |
| Client.GetPaginatedResults | src/client.rs:240-270 | the loop gives the outcome and request list of the recursive specification of the paginator |
| Client.PaginateCollectedPages | src/client.rs:245-248 | collected items are the pages' items in page order |
| Client.PaginateCollectedFirst | src/client.rs:244-248 | a collected run got a first page with a results array |
| Client.PaginateCollectedItems | src/client.rs:245-251 | every page of a collected run had a results array |
| Client.PaginateCollectedLinks | src/client.rs:253-267 | each request after the first went to the joined next link of the page before it, and only with `all` set |
| Client.JoinNextAgainstOrigin | src/client.rs:257-266 | an `http` link is kept, a `/` link appended to the origin, any other joined with one `/` |
| Client.FirstRequestId | src/client.rs:356-372 | the trimmed value of the first header in the list that is readable and not blank |
| Client.FirstUsableUnique | src/client.rs:356-372 | the first usable header is unique |
| Client.RequestId | src/client.rs:355-373 | no id exactly when none of the five headers is usable; otherwise the trimmed value of the first usable one, in the source's order |
| Download.BodyOf | src/download.rs:31-37 | `body.<format>.value` when it is a string, else the empty string |
| Download.FetchPageWithBodyFormat | src/download.rs:21-39 | one GET of `/pages/{id}?body-format={format}` on the v2 base; its JSON and body on success, `Failed to fetch page {id} (body-format={format})` on failure |
| Download.AttachmentDownloadUrl | src/download.rs:49-68 | an `http://`/`https://` link is parsed as it is; anything else is joined on the base |
| Download.DownloadUrlKeepsPrefix | src/download.rs:56-63 | a `/` link that lacks the base path's prefix gets it, so the join keeps `/wiki` |
| Download.DownloadUrlCases | src/download.rs:246-288 | the source's four URL cases: prefix added, root base, prefix already present, absolute link |
| Download.SanitizeFilename | src/download.rs:186-195 | the loop drops control characters, `/` and `\`, then trims |
| Download.SanitizedSafe | src/download.rs:186-195 | the result holds no control character or slash and no whitespace at either end |
| Download.SanitizeIdempotent | src/download.rs:186-195 | sanitising a sanitised name changes nothing |
| Download.UniquePath | src/download.rs:197-224 | a free path is kept; otherwise the first free `stem (i).ext` for i in 1..9999 beside it; the path itself when all are taken |
| Download.CandidatesDistinct | src/download.rs:212-218 | different counters give different candidate paths |
| Download.TmpPathBeside | src/download.rs:226-233 | the temporary file sits beside the destination, under another name |
| Download.ReceivedComplete | src/download.rs:162-169 | the stream is complete exactly when no chunk failed, and then the file holds all chunks in order |
| Download.ReceivedUpTo | src/download.rs:163-164 | the first failed chunk stops the copy with the chunks before it written |
| Download.WriteStream | src/download.rs:159-169 | the loop appends the received chunks to the temporary file and reports whether the stream completed; a write to the file is taken to succeed |
| Download.AttemptTurn | src/download.rs:84-183 | one attempt retries only on a transport error or a 429/5xx with attempts left, after removing the temporary file |
| Download.Attempt | src/download.rs:86-182 | the attempt as statements computes the attempt's specification |
| Download.Deliver | src/download.rs:152-182 | create, stream and rename of a successful response as its specification says |
| Download.DownloadToFileWithRetry | src/download.rs:77-184 | the retry loop gives the result, file system, request count and waits of the recursive specification |
| Download.TurnGivesUp | src/download.rs:98-149 | a failing attempt that stops reports `Download failed after {n} attempt(s)` and leaves no temporary file |
| Download.TurnDelivers | src/download.rs:152-182 | with every write to the temporary file succeeding, a 2xx attempt succeeds exactly when the file is created, the stream completes and the rename works; then the destination holds the bytes |
| Download.DownloadCount | src/download.rs:84-100 | at least one request, at most `max_attempts` when more than one, one wait between requests |
| Download.DownloadRetries | src/download.rs:100-141 | every wait is the retry wait of the attempt before it |
| Download.DownloadFrame | src/download.rs:84-182 | no path but the destination and the attempts' temporary files changes |
| Download.DownloadSucceeds | src/download.rs:175-182 | success means the last reply was 2xx and complete, the destination holds its bytes and the temporary file is gone |
| Download.DownloadGivesUp | src/download.rs:98-149 | a final failing reply or transport error gives up with the attempt count, after the last attempt or on a status that is not retried |
| Download.DownloadStreamError | src/download.rs:163-164 | a broken stream fails with `Download stream error` and leaves the partial temporary file |
| Markdown.HexValueBound | src/markdown.rs:139-150 | the base-16 value of n hex digits is below 16^n |
| Markdown.HexValue4 | src/markdown.rs:144-148 | four hex digits, most significant first, give d0·4096 + d1·256 + d2·16 + d3 |
| Markdown.Hex4 | src/markdown.rs:139-150 | `parse_hex4` yields a value only for exactly four hex digits, and that value fits in 16 bits |
| Markdown.ParseHex4 | src/markdown.rs:139-150 | the accumulating loop returns exactly the value of `Hex4`: none for a wrong length or a non-hex digit |
| Markdown.Hex4Text | src/markdown.rs:139-150 | the four-digit hex text of a 16-bit value is four hex digits |
| Markdown.Hex4RoundTrip | src/markdown.rs:139-150 | `parse_hex4` reads back the value of every 16-bit number written as four hex digits |
| Markdown.Combine | src/markdown.rs:114-117 | a high and a low surrogate combine to a scalar value from U+10000 to U+10FFFF |
| Markdown.EscapeAt | src/markdown.rs:105-131 | an escape at the head of the text consumes 6 characters (one scalar) or 12 (a surrogate pair), never more than there are |
| Markdown.DecodeUnicodeEscapes | src/markdown.rs:100-137 | the index loop of `decode_unicode_escapes` produces exactly the decoding of its input |
| Markdown.Decode | src/markdown.rs:100-137 | the decoding of `decode_unicode_escapes`: the decoded text is never longer than the input, since each escape is replaced by one character |
| Markdown.DecodedEscape | src/markdown.rs:118-129 | appending a decoded escape and skipping its length keeps the loop invariant |
| Markdown.DecodedLiteral | src/markdown.rs:133-134 | copying one character that starts no escape keeps the loop invariant |
| Markdown.DecodeStep | src/markdown.rs:105-131 | the body of the loop at index `i`, with the source's bounds checks, recognises exactly the escape that starts at `i` |
| Markdown.DecodeWithoutEscapes | src/markdown.rs:100-137 | text without a backslash followed by `u` is returned unchanged |
| Markdown.EscapeAtSingle | src/markdown.rs:105-130 | `\uXXXX` naming a scalar value decodes to that character and consumes 6 characters |
| Markdown.EscapeAtPair | src/markdown.rs:107-124 | a high-surrogate escape followed by a low-surrogate escape decodes to their combination and consumes 12 characters |
| Markdown.DecodeEscapeAll | src/markdown.rs:100-137 | decoding the `\u` escapes of any text (surrogate pairs above U+FFFF) gives back the text: escaping then decoding is the identity |
| Markdown.DecodeAtLiteral | src/markdown.rs:133-134 | where no escape decodes, the first character is copied and decoding goes on after it |
| Markdown.DecodeAtEscape | src/markdown.rs:118-129 | at an escape, its character is emitted and decoding goes on after its length |
| Markdown.DecodesCalendarPair | src/markdown.rs:267-272 | `🗓` decodes to U+1F5D3 and the rest is kept |
| Markdown.LoneSurrogateKept | src/markdown.rs:107-131 | a surrogate escape not followed by a low-surrogate escape is copied literally, starting with its backslash |
| Markdown.MalformedEscapeKept | src/markdown.rs:105-134 | `\u` without four hex digits after it is copied literally |
| Markdown.ExtractFilename | src/markdown.rs:94-98 | the name holds neither `/` nor `?` |
| Markdown.ExtractFilenameOf | src/markdown.rs:94-98 | for `dir/name?query` or `name?query` the result is `name`: the query and the directory part are dropped |
| Markdown.TrimEach | src/markdown.rs:156 | each cell is its piece trimmed, one per piece |
| Markdown.ColumnsPositive | src/markdown.rs:152-158 | a row always has at least one cell, as many as the `|`-separated pieces of its inside |
| Markdown.SepCellIff | src/markdown.rs:161 | a cell matches `^:?-{3,}:?$` exactly when it is an optional colon, three or more dashes and an optional colon |
| Markdown.ImageTextIff | src/markdown.rs:172 | a cell matches `^!\[[^\]]*\]\([^)]*\)$` exactly when it is `![alt](url)` with no `]` in alt and no `)` in url |
| Markdown.TableSepRowIsSeparatorLike | src/markdown.rs:160-178 | a row the separator regex accepts is also separator-like and has at least two cells |
| Markdown.TableSepRowNoImage | src/markdown.rs:199-217 | a separator row is never a single image-only cell |
| Markdown.SeparatorRowCells | src/markdown.rs:222-224 | the generated separator row has one `---` cell per column |
| Markdown.SeparatorRowIsSeparatorLike | src/markdown.rs:160-169 | the generated separator row is separator-like |
| Markdown.SeparatorRowMatchesRegex | src/markdown.rs:178 | the generated row passes the separator regex exactly when it has two or more columns |
| Markdown.StripCRs | src/markdown.rs:181 | each line loses one trailing carriage return, as `str::lines` does |
| Markdown.StripCRsLack | src/markdown.rs:181 | lines without a carriage return are unchanged |
| Markdown.LinesJoin | src/markdown.rs:246 | for text without carriage returns, joining its lines with `\n` gives the text back, less one final newline |
| Markdown.DropWhereFilters | src/markdown.rs:181-186 | the kept lines are lines of the input that fail the drop test, and every line that fails it is kept |
| Markdown.KeepLinesFilters | src/markdown.rs:177-186 | with `keep_empty_list_items` all lines stay; otherwise no bare list marker remains and every other line is kept |
| Markdown.EmptyListItem | src/markdown.rs:177 | the empty-list-item pattern `^\s*(?:[-*+]\|\d+\.)\s*$`: a line it matches is never a table line, so the filter never drops a table row |
| Markdown.FilterLines | src/markdown.rs:180-186 | the first loop keeps exactly the lines `KeepLines` keeps |
| Markdown.IsTableLineTrim | src/markdown.rs:192 | a table line is one whose trimmed text starts with `\|` |
| Markdown.TableRun | src/markdown.rs:193-197 | the block is the longest run of table lines from the current index |
| Markdown.CollectBlock | src/markdown.rs:193-197 | the inner loop collects exactly that run and stops at the first non-table line |
| Markdown.DataRows | src/markdown.rs:207-210 | the data rows are rows of the block the separator regex rejects |
| Markdown.ImageCell | src/markdown.rs:200-213 | a row is reported as an image when its single cell is image text |
| Markdown.RenderAtTable | src/markdown.rs:192-239 | at a table line the whole run is rendered as one block and rendering resumes after it |
| Markdown.RenderAtText | src/markdown.rs:240-243 | any other line is copied and rendering resumes at the next one |
| Markdown.RenderLines | src/markdown.rs:188-244 | the outer `while idx` loop produces exactly the block-by-block rendering of the lines |
| Markdown.PostprocessMarkdown | src/markdown.rs:176-247 | `postprocess_markdown` filters list markers, renders table blocks and joins with `\n`, as `Postprocess` states |
| Markdown.RenderBlockShape | src/markdown.rs:198-238 | a block becomes one image taken from a row, or its header row, a separator-like row and the remaining rows, without a separator-like second row when one was replaced |
| Markdown.RenderBlock | src/markdown.rs:198-238 | what one block of table lines becomes: the output is empty exactly when the block is |
| Markdown.RenderBlockSeparator | src/markdown.rs:219-237 | a block whose second row passes the separator regex is kept as is; otherwise the inserted separator has one `---` cell per header column |
| Markdown.ImageTableCollapses | src/markdown.rs:207-217 | a block whose only data row is one image-only cell becomes that image |
| Markdown.ImageWithSeparatorCollapses | src/markdown.rs:199-205 | a two-row block of an image cell and a separator-like row becomes the image |
| Markdown.RenderWithoutTables | src/markdown.rs:188-244 | lines without a table line are rendered unchanged |
| Markdown.PlainTextUnchanged | src/markdown.rs:176-247 | markdown with no table lines and no carriage returns, keeping list items, comes back unchanged apart from a final newline |
| Markdown.HtmlToMarkdown | src/markdown.rs:14-23 | a conversion error is passed on; otherwise the result is the converted text post-processed and trimmed, and it is its own trim |
| Resolve.FirstId | src/resolve.rs:47-73 | an id is found exactly when the first item has a string `id` |
| Resolve.ResolveSpaceId | src/resolve.rs:59-76 | an all-digit space is its own id with no lookup; otherwise one lookup by key, whose error is passed on, and the first item's id or "Space '…' not found" |
| Resolve.ResolvePageId | src/resolve.rs:27-57 | an all-digit reference is the id; else a URL with a page id gives that id; else a reference without `:` is "Unable to resolve page reference"; lookups happen only for `SPACE:Title`, at most two |
| Resolve.SpaceTitleLookups | src/resolve.rs:36-52 | `SPACE:Title` resolves the space first, then looks the title up in it with limit 1; a lookup error is passed on and no first id is "Page '…' not found in space …" |
| Resolve.NumericSpaceOneLookup | src/resolve.rs:36-62 | with an all-digit space only the title lookup is made |
| Resolve.PathPageIndex | src/resolve.rs:168-178 | a found index is a `pages` segment followed by a non-empty all-digit segment |
| Resolve.FirstPagesSegment | src/resolve.rs:168-178 | the first `pages` segment followed by digits is the one found |
| Resolve.PagesPagesDigits | src/resolve.rs:170-174 | in `/pages/pages/123` the second `pages` is consumed as the first one's id, so no id is found in the path |
| Resolve.FindKey | src/resolve.rs:181-183 | the first query pair with the key, or none exactly when no pair has it |
| Resolve.ExtractPageIdFromUrl | src/resolve.rs:167-184 | the digits after a `pages` segment win; otherwise the value of the first `pageId` query pair, and none exactly when there is no such pair |
| Resolve.PageStatus | src/resolve.rs:187-195 | the page's `status` string, or `current` when it has none |
| Resolve.Without | src/resolve.rs:17-25 | removing a key from the recency order keeps every other key and shortens it when the key was there |
| Resolve.WithoutDistinct | src/resolve.rs:17-25 | removing a key keeps the recency order free of repeats |
| Resolve.SpaceKeyCache.constructor | src/resolve.rs:19-25 | the cache starts empty and valid |
| Resolve.SpaceKeyCache.Get | src/resolve.rs:120 | a hit returns the cached key and makes it the most recently used; a miss changes nothing; entries never change |
| Resolve.SpaceKeyCache.Put | src/resolve.rs:159 | the key maps to the value and becomes most recently used; other entries stay; when the cache is full with 1024 entries and the key is new, the least recently used entry is evicted |
| Resolve.KeyOrId | src/resolve.rs:89-93 | the space's `key` string, or the space id when it has none |
| Resolve.ResolveSpaceKey | src/resolve.rs:78-101 | a cached id is served with no request; otherwise the space is fetched, an error is passed on with the cache's entries unchanged, and the key (or id) is returned and cached |
| Resolve.StrLtIrreflexive | src/resolve.rs:108 | no string sorts before itself |
| Resolve.StrLtTotal | src/resolve.rs:108 | of two different strings one sorts before the other |
| Resolve.StrLtTransitive | src/resolve.rs:108 | the string order is transitive |
| Resolve.SortedDistinct | src/resolve.rs:108-109 | a strictly sorted list has no repeats |
| Resolve.InsertUnique | src/resolve.rs:108-109 | inserting into a strictly sorted list keeps it strictly sorted and adds exactly the new element |
| Resolve.SortedUnique | src/resolve.rs:107-109 | `sort` then `dedup` gives a strictly sorted list without repeats holding exactly the input ids |
| Resolve.Hits | src/resolve.rs:119-121 | the ids served from the cache, with their cached keys |
| Resolve.Misses | src/resolve.rs:122-124 | the ids not in the cache |
| Resolve.LookupCached | src/resolve.rs:117-126 | the cache loop splits the ids into hits with their keys and misses in order, and leaves the entries unchanged |
| Resolve.ChunksShape | src/resolve.rs:133 | `chunks(250)` cover the missing ids in order, each chunk non-empty and at most 250 long, all but the last exactly 250 |
| Resolve.NextChunk | src/resolve.rs:133 | the next chunk is the next 250 ids, or the rest when fewer remain |
| Resolve.Display | src/resolve.rs:138-151 | an item counts only with both `id` and `key`; a key not starting with `~` is shown as is, a personal `~` key as the space name when there is one |
| Resolve.CollectItems | src/resolve.rs:137-152 | the loop over one response records the display of each complete item |
| Resolve.FetchChunksSnoc | src/resolve.rs:133-153 | a failing chunk request ends the fetch with its error; a successful one adds its items' displays |
| Resolve.FetchMissing | src/resolve.rs:132-153 | on success every chunk of the missing ids was requested in order; on failure the requests made are a non-empty prefix ending with the failing one |
| Resolve.StoreFetched | src/resolve.rs:155-161 | after the update every cached entry is fetched or was already cached; every fetched id still cached holds the fetched key; with at most 1024 fetched ids all of them are cached |
| Resolve.ResolveSpaceKeys | src/resolve.rs:103-165 | no ids give an empty map and no request; on success the requests are the chunks of the sorted, de-duplicated cache misses and the result is the hits plus the fetched displays |
| Resolve.ViewOf | src/resolve.rs:210-235 | an item without a non-empty `id` is skipped; otherwise its id, `parentId` (or empty), `title` (or empty) and `childPosition` when it is a 64-bit integer (else 0) |
| Resolve.Views | src/resolve.rs:210-214 | every view has a non-empty id |
| Resolve.WithParentMembers | src/resolve.rs:237-244 | the items listed under a parent are exactly the views with that parent id |
| Resolve.SortedMembers | src/resolve.rs:247-251 | sorting siblings by child position keeps exactly the same siblings |
| Resolve.ChildListed | src/resolve.rs:239-244 | a view with a parent is listed among that parent's children |
| Resolve.GroupViews | src/resolve.rs:207-245 | the first loop puts the parentless views, in order, among the roots and each other view under its parent id |
| Resolve.AddView | src/resolve.rs:237-244 | adding one view keeps the roots and children as the grouping of the views so far |
| Resolve.SortedGroups | src/resolve.rs:249-251 | sorting every group by child position gives the children map of the views |
| Resolve.PushRoots | src/resolve.rs:257-259 | pushing the roots in reverse makes the stack render as the roots in order |
| Resolve.PushChildren | src/resolve.rs:269-273 | pushing a node's children in reverse makes them render next, in order, before the rest of the stack |
| Resolve.Pop | src/resolve.rs:261-273 | popping emits the top node's line and leaves a stack that renders the rest, with a smaller weight |
| Resolve.Traverse | src/resolve.rs:254-276 | the `while let` stack loop terminates and produces the depth-first pre-order rendering of the roots |
| Resolve.NodeLines | src/resolve.rs:262-273 | a node's line, indented two spaces per level, comes before the lines of its children |
| Resolve.BuildPageTree | src/resolve.rs:197-277 | `build_page_tree` produces exactly the rendering `PageTree` defines |
| Resolve.RenderHas | src/resolve.rs:261-273 | every node reached down the children lists within the depth is rendered at its depth |
| Resolve.RenderSound | src/resolve.rs:261-273 | every rendered line is a node reached from the start node down the children lists |
| Resolve.LineageIsDown | src/resolve.rs:237-251 | a chain of parent links from a root is a path down the children map |
| Resolve.DownIsLineage | src/resolve.rs:237-251 | a path down the children map from a root is a chain of parent links |
| Resolve.PageTreeSound | src/resolve.rs:197-277 | each output line is the line of a page reached from a root by parent links, indented by its depth |
| Resolve.PageTree | src/resolve.rs:197-277 | the lines `build_page_tree` prints: at least one line per root page, and none for no items |
| Resolve.PageTreeComplete | src/resolve.rs:197-277 | every page reachable from a root by parent links appears, at its depth |
| Resolve.LineageShort | src/resolve.rs:197-277 | when ids name single pages, a chain of parent links visits each page at most once |
| Resolve.PageTreeDepthInert | src/resolve.rs:197-277 | when ids name single pages, any depth bound of at least the number of pages gives the same tree: the bound never cuts the output |
| Tree.Tag | src/tree.rs:76-82 | an object child gets `parentId` set to its parent and `depth` to the given level; anything else is left alone |
| Tree.TagKeeps | src/tree.rs:76-82 | tagging leaves every other field, the id included, as it was |
| Tree.Kept | src/tree.rs:66-84 | a listing contributes at most its own children |
| Tree.KeptTagged | src/tree.rs:66-84 | every kept child has a non-empty id and is tagged with its parent and depth |
| Tree.PageSize | src/tree.rs:53-58 | the page size is at least 1: `limit` (at least 1) when fetching everything, else the number of results still wanted |
| Tree.GrowStops | src/tree.rs:90-92 | once the cap is reached the rest of the listing is ignored |
| Tree.GrowKeptUnder | src/tree.rs:66-93 | one listing adds a prefix of its kept children: all of them when fetching everything, else at most the remaining room and all of them when they fit |
| Tree.GrowQueue | src/tree.rs:84-89 | each newly seen child is queued once, one level deeper, and the seen-set grows by exactly the queued ids |
| Tree.ExpandChildren | src/tree.rs:66-93 | the inner loop appends the kept children (cut at `limit` when not fetching everything) to the output and queues each unseen child once at the next depth; every id queued is that of a child kept |
| Tree.GrowAddedKept | src/tree.rs:84-89 | a child is queued only after it was pushed to the output |
| Tree.ExpandHead | src/tree.rs:53-93 | one expansion requests the listing of the queue head with the due page size; a failed listing is reported as the error; the request expands a page found earlier and the queue still holds only found pages |
| Tree.DiscoverSkip | src/tree.rs:37-44 | skipping a page at the depth bound keeps every queued page one that a request listed |
| Tree.DiscoverRequest | src/tree.rs:37-65 | the head of a queue of found pages is the root or a page an earlier request listed, one level below it |
| Tree.DiscoverExpand | src/tree.rs:37-89 | after expanding the head, the queue is the old tail plus children the new request listed, so every queued page is still one a request listed |
| Tree.AddedAllFound | src/tree.rs:66-89 | every child queued by one listing is among that listing's kept children, one level below the listed page |
| Tree.ReqsFoundAt | src/tree.rs:37-89 | for request `k > 0`, names the earlier request whose listing held the page request `k` expands, one level up |
| Tree.ReqsFoundAll | src/tree.rs:37-89 | every request after the first expands a page that an earlier request listed, at that request's depth plus one |
| Tree.WalkTurn | src/tree.rs:37-93 | one turn of the `while let` loop skips a page at the depth bound, stops at the cap, or expands the head, keeping the loop invariant |
| Tree.WalkQueue | src/tree.rs:28-94 | the loop ends with an empty queue or at the cap, or on the first failed listing |
| Tree.WalkDone | src/tree.rs:37-51 | a walk that ends without error made only successful requests |
| Tree.ErrStep | src/tree.rs:65 | a failed listing ends the walk with its error and its request is the last one |
| Tree.FetchDescendants | src/tree.rs:21-97 | an error is the last request's error after successful ones; the output is the requests' tagged children in order, cut at `limit` unless `all`; the root is expanded first, each page at most once, level by level, with the due page size and never at or past a non-zero depth bound; every later request expands a page an earlier request listed, one level below it; with `all` and no bound every result found is expanded |
| Tree.RequestFacts | src/tree.rs:32-65 | the requests start at the root at depth 0, never repeat a page, never go back a level, use the due page size and stay above a depth bound |
| Tree.CutPageSize | src/tree.rs:53-58 | when the output is cut, the page size follows the output held, as the source computes it |
| CopyTree.ItemNode | src/commands/copy_tree.rs:77-108 | a descendant becomes a node under its own id with no body yet |
| CopyTree.CollectNodes | src/commands/copy_tree.rs:61-109 | the loop inserts the root node with its storage body, then every descendant with a non-empty id, later items replacing earlier ones |
| CopyTree.NodesFromIds | src/commands/copy_tree.rs:66-108 | every node is stored under its own id |
| CopyTree.NodesFromKeys | src/commands/copy_tree.rs:66-108 | the node ids are exactly the root and the non-empty ids of the descendants |
| CopyTree.MarkMatching | src/commands/copy_tree.rs:111-122 | the first loop blocks exactly the non-root nodes whose title the exclusion pattern matches |
| CopyTree.PropagatePass | src/commands/copy_tree.rs:127-138 | one pass over the nodes only blocks nodes whose parent is blocked; when nothing changes the blocked set is closed under children |
| CopyTree.Propagate | src/commands/copy_tree.rs:123-140 | the `while changed` loop terminates with a blocked set that contains the matches, is closed under children and holds only nodes with a parent chain into the matches |
| CopyTree.BlockedRule | src/commands/copy_tree.rs:111-140 | a node is blocked exactly when its title matched or its parent is blocked |
| CopyTree.BlockedLeast | src/commands/copy_tree.rs:123-140 | the blocked set is the smallest set with that property |
| CopyTree.RootNeverBlocked | src/commands/copy_tree.rs:115-117 | the root's title is never tested, and a root without a parent is never blocked |
| CopyTree.RawChildren | src/commands/copy_tree.rs:143-151 | each unblocked node with a parent is pushed onto its parent's list, once |
| CopyTree.BuildChildren | src/commands/copy_tree.rs:142-154 | the child lists hold exactly the unblocked nodes under their parent, each once, sorted by child position |
| CopyTree.ChildrenMembers | src/commands/copy_tree.rs:143-151 | an id is in a parent's list exactly when it is an unblocked node with that parent |
| CopyTree.ChildrenListed | src/commands/copy_tree.rs:143-151 | every listed child is an unblocked node whose parent is the list's owner |
| CopyTree.FetchBodies | src/commands/copy_tree.rs:156-209 | bodies are fetched for exactly the unblocked non-root nodes without one; success fills every such body, and a failure is the error of one of those fetches |
| CopyTree.NewParent | src/commands/copy_tree.rs:238-246 | the root is created under the target parent; any other page under the copy of its parent, or the walk fails |
| CopyTree.VisitNodeSteps | src/commands/copy_tree.rs:237-293 | a visited node is recorded, mapped to its copy, and counts as one effect |
| CopyTree.VisitNodeFails | src/commands/copy_tree.rs:237-287 | one node fails only when it is not ready (missing node, parent or parent mapping) or at the create call |
| CopyTree.VisitNodeDryRun | src/commands/copy_tree.rs:256-270 | a dry run prints "Would create '…' under …" (the target, or "(copy of <parent>)") and maps the node to `<dry-run:id>` |
| CopyTree.VisitNodeCreates | src/commands/copy_tree.rs:271-288 | a real run posts the storage body with title and new parent in the target space; it succeeds exactly when the response has a string id, which the node is mapped to, and the response is recorded |
| CopyTree.Walk | src/commands/copy_tree.rs:219-315 | `walk` computes exactly `Visit`: the node, then each child in list order one level deeper, stopping at the first error |
| CopyTree.WalkKids | src/commands/copy_tree.rs:295-312 | the `for kid in kids` loop computes exactly `VisitKids` |
| CopyTree.VisitOrder | src/commands/copy_tree.rs:219-315 | a successful walk visits exactly the ids of its pre-order, in that order |
| CopyTree.VisitEffects | src/commands/copy_tree.rs:256-293 | a successful walk prints one line per visited node in a dry run, and posts once and creates once per visited node otherwise |
| CopyTree.OrderSound | src/commands/copy_tree.rs:295-311 | every page in the pre-order lies below the start by as many listed steps as its depth, within the depth bound |
| CopyTree.OrderComplete | src/commands/copy_tree.rs:295-311 | every page that lies listed steps below the start, within the depth bound and the step allowance, is in the pre-order at its depth |
| CopyTree.OrderUnique | src/commands/copy_tree.rs:295-311 | without cycles and repeated children, no page is visited twice |
| CopyTree.WalkCovers | src/commands/copy_tree.rs:317-330 | from a parentless root, with one step per node the walk covers the tree, and any larger allowance gives the same walk |
| CopyTree.CoversSound | src/commands/copy_tree.rs:317-330 | everything the walk from the root visits hangs below the root within the depth bound |
| CopyTree.CoversComplete | src/commands/copy_tree.rs:317-330 | everything hanging below a parentless root within the depth bound is visited |
| CopyTree.UpIsAncestor | src/commands/copy_tree.rs:143-151 | from an unblocked node the listed steps up are exactly its parent links |
| CopyTree.ChildrenUnique | src/commands/copy_tree.rs:143-153 | every child list names each child once |
| CopyTree.WalkReaches | src/commands/copy_tree.rs:111-153 | the walk from a parentless unblocked root reaches every unblocked page whose parent chain leads to it, and visits no page twice |
| CopyTree.WalkOutcome | src/commands/copy_tree.rs:317-330 | a failed walk failed at a create call of a real run; a successful one visits the root first, only listed children, and has one effect per page |
| CopyTree.ExclusionHolds | src/commands/copy_tree.rs:111-151 | no visited page except the root has a title the exclusion glob matches |
| CopyTree.CopyCoverage | src/commands/copy_tree.rs:111-153 | on the final node map the blocked set is the matches closed under children, and from a parentless root every unblocked page below it is copied once |
| CopyTree.CopyFinished | src/commands/copy_tree.rs:214-330 | a walk that finished on a prepared plan meets every promise of a finished copy |
| CopyTree.Prepare | src/commands/copy_tree.rs:61-154 | builds the node map, the closed blocked set and the sorted child lists |
| CopyTree.WalkRoot | src/commands/copy_tree.rs:317-330 | the top-level walk either fails at a create call of a real run or ends with the finished-walk state over the root's pre-order |
| CopyTree.CopyPages | src/commands/copy_tree.rs:61-330 | after discovery, an error is a failed body fetch or a failed create call; a success meets every promise of a finished copy |
| CopyTree.CopyTreeRun | src/commands/copy_tree.rs:33-330 | a bad glob fails first with "Invalid glob pattern", then a failed target fetch, then "Target parent missing spaceId", then a failed discovery or root fetch; otherwise the copy runs in the target's space and a success meets every promise of a finished copy |
| Export.ExportKindOf | src/commands/export.rs:29-63 | the lowercased format selects markdown (`md`, `markdown`), storage or ADF (`adf`, `atlas_doc_format`) in both directions; anything else is "Invalid --format: <as typed>. Use md, storage, or adf." |
| Export.ExportFormatsAreBodyFormats | src/commands/export.rs:31-56 | every export format is a body format, fetched with the same representation (`view` for markdown) |
| Export.OneComponent | src/commands/export.rs:67 | a name without `/` that is neither empty nor `.` is one path component |
| Export.JoinOne | src/commands/export.rs:67-94 | joining one plain name appends it: the result's parent is the directory and its file name is the name |
| Export.SanitizedNoSlash | src/commands/export.rs:66 | a sanitized title holds no `/` |
| Export.FolderNameParts | src/commands/export.rs:66 | the folder name is the sanitized title, then `--`, then the page id |
| Export.FolderDirectory | src/commands/export.rs:66-67 | for a page id without `/` the folder is one entry directly under the destination |
| Export.LayoutEntries | src/commands/export.rs:67-94 | `meta.json`, the content file and `attachments` are three distinct entries of the page folder |
| Export.Siblings | src/commands/export.rs:71-94 | two different plain names joined onto one directory are two distinct entries of it |
| Export.MetaSpaceKey | src/commands/export.rs:72-79 | an empty space id gives an empty key; otherwise the resolved key, and a failed lookup gives an empty key |
| Export.Matcher | src/commands/export.rs:229-247 | no pattern gives no filter; a pattern compiles to its anchored case-insensitive glob, or fails with "Invalid glob pattern: …" |
| Export.Selected | src/commands/export.rs:102-112 | the selection is drawn from the listing |
| Export.SelectedAppend | src/commands/export.rs:102-112 | selection works item by item, so it keeps the listing order |
| Export.SelectedOnly | src/commands/export.rs:104-110 | only attachments the filter accepts are selected |
| Export.SelectedAll | src/commands/export.rs:105-109 | without a pattern every attachment is selected, in order |
| Export.SelectedByGlob | src/commands/export.rs:104-108 | with a pattern an attachment is selected exactly when its title matches the glob |
| Export.TargetAsWritten | src/commands/export.rs:200-215 | as written: no link is "Missing attachment download link", an empty sanitized title is "Unsafe attachment title", otherwise the sanitized title joined onto the attachments directory |
| Export.Target | src/commands/export.rs:200-215 | as intended: the same, except that a title sanitized to `.` is also refused; an accepted target is the directory with the sanitized title appended |
| Export.DotTitleNamesDirectory | src/commands/export.rs:211-215 | as written, an attachment titled `.` targets the attachments directory itself |
| Export.DirectoryTargetLeaves | src/download.rs:197-224 | as written, when that target exists `unique_path` picks a sibling of the attachments directory, outside it |
| Export.TargetInside | src/commands/export.rs:200-215 | with the corrected target, the path `unique_path` picks is always directly inside the attachments directory |
| Export.DotDotTitleStaysInside | src/commands/export.rs:200-215 | a title sanitized to `..` that is taken is replaced by `file (i)` inside the directory |
| Export.DownloadAttachmentItem | src/commands/export.rs:192-227 | with the corrected target, one item is refused with its target's error, or downloaded from the URL built from its link into the path `unique_path` chose, giving that path or the download's error |
| Export.ItemOutcome | src/commands/export.rs:192-227 | with the corrected target, each item's result is an error or a path directly inside the attachments directory |
| Export.DownloadAll | src/commands/export.rs:133-155 | with the corrected target, one outcome per selected attachment in order, each chosen against the files existing before it plus those written earlier |
| Export.GatheredAll | src/commands/export.rs:157-160 | gathering succeeds exactly when every download did, and lists their paths in selection order |
| Export.GatheredFirstError | src/commands/export.rs:157-160 | a failed gathering reports the error of the first failed download, every earlier one having succeeded |
| Export.GatherWritten | src/commands/export.rs:157-160 | the `for task in tasks` loop computes exactly that gathering |
| Export.GatheredWritten | src/commands/export.rs:157-160 | the gathered paths are, in order, the paths each successful download wrote |
| Export.Prepare | src/commands/export.rs:29-90 | a bad format fails first, then a failed page fetch; otherwise the folder layout, the content for the format and the metadata of the page |
| Export.ExportAttachments | src/commands/export.rs:93-165 | with the corrected target, a failed listing, a bad glob or a bad base URL fails in that order; past them each selected attachment is downloaded in order, and the result is `Ok` exactly when every download succeeded (then the paths written, in selection order) and otherwise the error of the first download that failed |
| Export.ExportPage | src/commands/export.rs:27-190 | with the corrected target, a resolution or preparation error writes nothing; otherwise `meta.json` and the content file are written, attachments are downloaded unless skipped, and the command fails exactly when the attachments part does, with its error (the first failed download's); written paths lie in the attachments directory and the summary is shown only on success |
| Attachment.AttachmentDownload | src/commands/attachment.rs:98-152 | exactly one v2 attachment request; errors in source order (the request, `Missing download link`, the site origin); otherwise one download of the joined link to the chosen path, then `Downloaded to <path>` |
| Attachment.DownloadLinkChoice | src/commands/attachment.rs:105-107 | a string `downloadLink` is used even when `_links.download` is present |
| Attachment.DownloadLinkFallback | src/commands/attachment.rs:108-112 | without `downloadLink`, `_links.download` is used |
| Attachment.DownloadDestination | src/commands/attachment.rs:116 | a successful download writes to `--dest` when given, else to a single-component path named after the attachment title that is never `..` |
| Attachment.ConsiderGrows | src/commands/attachment.rs:172-189 | considering file i adds i to at most one of approved and skipped, and only while no error occurred |
| Attachment.GrowsOrdered | src/commands/attachment.rs:172-189 | one step keeps approved and skipped ascending and disjoint |
| Attachment.ApproveOrdered | src/commands/attachment.rs:171-190 | the approval pass yields ascending, disjoint approved and skipped file positions |
| Attachment.ApproveGrows | src/commands/attachment.rs:172-189 | each prefix of the file list extends the previous one by one step |
| Attachment.ApproveComplete | src/commands/attachment.rs:171-190 | without error, every file's size was read, large files (over 5 MiB) were confirmed, a file is approved iff small or confirmed, and skipped iff large and declined |
| Attachment.ApproveStops | src/commands/attachment.rs:173-183 | an error comes from the first file whose size read or confirmation prompt failed, and stops the pass there |
| Attachment.ApproveNext | src/commands/attachment.rs:172-189 | while no error occurred, the next file is considered on the current state |
| Attachment.Settled | src/commands/attachment.rs:172-189 | after an error the pass state no longer changes |
| Attachment.ApproveTurn | src/commands/attachment.rs:173-189 | one loop turn: returns the size or prompt error, or appends the file to the approved list, or prints `Skipped <file>.` |
| Attachment.ApproveFiles | src/commands/attachment.rs:171-190 | the loop yields the approved files in input order, the skip lines of the declined files, and the first error, exactly as the approval pass defines |
| Attachment.Picks | src/commands/attachment.rs:189 | selecting files by position keeps one file per position |
| Attachment.SkipLines | src/commands/attachment.rs:185 | one `Skipped` line per declined file, none when quiet |
| Attachment.PicksSnoc | src/commands/attachment.rs:189 | appending a position appends that file |
| Attachment.SkipLinesSnoc | src/commands/attachment.rs:185 | declining one more file appends its line |
| Attachment.Picked | src/commands/attachment.rs:210-215 | the first element of a non-empty `results` array, else the whole response |
| Attachment.AwaitTasks | src/commands/attachment.rs:220-235 | the join loop collects the (index, attachment) pairs in completion order and stops at the first failure, as the fold over join results defines |
| Attachment.AwaitedStopped | src/commands/attachment.rs:224-233 | once a join failed, later completions do not change the result |
| Attachment.AwaitedAll | src/commands/attachment.rs:220-235 | the joins succeed iff every task completed with a response, and then the pairs are the tasks' responses in completion order |
| Attachment.AwaitedFirstError | src/commands/attachment.rs:224-233 | a failure is the first failing join: a task error gives `Attachment upload failed`, a join error `Attachment upload task failed: <e>` |
| Attachment.Restored | src/commands/attachment.rs:237-238 | sorting the pairs by index and dropping the index keeps one attachment per pair |
| Attachment.RestoredPositions | src/commands/attachment.rs:237-238 | with distinct indices 0..n-1, position k holds the attachment whose index is k |
| Attachment.UploadOrderRestored | src/commands/attachment.rs:201-238 | whatever the completion order, the k-th reported attachment is the picked response of the k-th approved file's upload |
| Attachment.UploadsOf | src/commands/attachment.rs:201-209 | one upload per approved file, to the resolved page with the shared comment |
| Attachment.DisplayAll | src/commands/attachment.rs:163 | one displayed name per file, in order |
| Attachment.UploadRows | src/commands/attachment.rs:243-249 | one ID/Title block per uploaded attachment, none when quiet |
| Attachment.AttachmentUpload | src/commands/attachment.rs:155-254 | a page error fails first; dry run prints `Would upload` with no request; otherwise the approval pass, then nothing when no file was approved, else one upload per approved file and the results in file order or the first failure |
| Attachment.AttachmentDelete | src/commands/attachment.rs:257-349 | dry run reports without a request; a failed prompt fails and a declined one prints `Cancelled.`; otherwise exactly one DELETE, whose error is the command's, then the delete or purge report |
| Attachment.PurgeIff | src/commands/attachment.rs:315-318 | the path gets `?purge=true` and the action reads `purge` exactly when purging |
| Comment.CommentLocation | src/commands/comment.rs:241-253 | `extensions.location` when a string, else its `value` string, else empty |
| Comment.LocationShapes | src/commands/comment.rs:241-253 | both the string and the object form of a location read back |
| Comment.LastCommentIdFound | src/commands/comment.rs:255-271 | no parent iff no ancestor has type `comment` (any case); otherwise the id comes from such an ancestor |
| Comment.LastCommentIdIsLast | src/commands/comment.rs:257-269 | the parent is the id of the last comment-typed ancestor |
| Comment.CommentParentId | src/commands/comment.rs:255-271 | the loop computes the last comment ancestor's id, None without an `ancestors` array |
| Comment.KeptClean | src/commands/comment.rs:37-41 | kept pieces are non-empty, already trimmed, and no more than the input pieces |
| Comment.LocationValuesTrimmed | src/commands/comment.rs:37-41 | every location value is non-empty and trimmed |
| Comment.KeptKeeps | src/commands/comment.rs:37-41 | pieces that are already non-empty and trimmed are all kept |
| Comment.LocationValuesRoundTrip | src/commands/comment.rs:37-41 | joining trimmed comma-free values with `,` and splitting again gives them back |
| Comment.KeyedShape | src/commands/comment.rs:42 | each value becomes one `location` pair |
| Comment.KeptSnoc | src/commands/comment.rs:37-41 | one more piece is kept iff it trims to non-empty |
| Comment.LocationStep | src/commands/comment.rs:41-42 | one loop turn pushes the trimmed piece unless it is empty |
| Comment.KeyedAppend | src/commands/comment.rs:42 | keyed pairs of a concatenation are the concatenation |
| Comment.PushLocations | src/commands/comment.rs:36-44 | the loop appends one `location` pair per non-empty trimmed piece |
| Comment.BuildListPairs | src/commands/comment.rs:31-44 | the query pairs are `limit`, `expand` (default `history,extensions,ancestors`) and the location pairs |
| Comment.ListPairsShape | src/commands/comment.rs:31-44 | with a location, the pairs are limit, expand and then each location value in order |
| Comment.CommentRow | src/commands/comment.rs:56-78 | five cells: id, location, author, created and parent id (empty when none) |
| Comment.ListShowsEachComment | src/commands/comment.rs:27-89 | one GET to the page's descendant comments with those pairs, and one table with one row per comment |
| Comment.CommentList | src/commands/comment.rs:27-89 | an unresolved page fails with its error before any request; otherwise one GET, and success exactly when the listing succeeds; nothing is shown on failure or under `--quiet` |
| Comment.Extensions | src/commands/comment.rs:125-139 | a non-blank location is stored as given; inline properties are stored and imply location `inline` only when none was given |
| Comment.PayloadKeepsBase | src/commands/comment.rs:115-142 | parent and extensions never overwrite the base fields |
| Comment.PayloadNamesPage | src/commands/comment.rs:116-117 | the payload is a `comment` whose container is the page |
| Comment.PayloadBody | src/commands/comment.rs:118 | the storage value is the converted body |
| Comment.PayloadAncestors | src/commands/comment.rs:121-123 | `ancestors` is present iff a parent was given, and then holds exactly that id |
| Comment.PayloadExtensions | src/commands/comment.rs:140-142 | `extensions` is present iff non-empty, and then holds exactly those entries |
| Comment.ExtensionsPresent | src/commands/comment.rs:125-142 | extensions are sent iff a non-blank location or inline properties were given |
| Comment.BuildPayload | src/commands/comment.rs:115-142 | the built payload is the base, parent and extensions combined as above |
| Comment.StorageValue | src/commands/comment.rs:102-113 | `storage`/`html` keep the body, `markdown`/`md` convert it, any other format (case-insensitive) is an error |
| Comment.AddRequests | src/commands/comment.rs:92-157 | dry run sends nothing; otherwise at most one POST to `/content`, sent only when the body read, the format and the inline JSON all succeeded |
| Comment.CommentAdd | src/commands/comment.rs:92-157 | an unresolved page fails with its error before any request; a request is sent only on a real run, and a successful real run sent exactly one; nothing is shown on failure or under `--quiet` |
| Comment.DeleteRequests | src/commands/comment.rs:160-239 | exactly one DELETE of the comment iff not dry run and `--yes` or a confirmed prompt; dry run always succeeds |
| Comment.CommentDelete | src/commands/comment.rs:160-239 | at most one request; a failure comes only from a failed confirmation prompt or a failed DELETE, never from a dry run; nothing is shown on failure or under `--quiet` |
| Cql.ReplaceAppend | src/commands/search.rs:93-98 | character replacement distributes over concatenation |
| Cql.Blank | src/commands/search.rs:97 | newline, carriage return and tab become spaces, every other character is kept |
| Cql.BlankAppend | src/commands/search.rs:97 | blanking distributes over concatenation |
| Cql.EscapeCharwise | src/commands/search.rs:93-98 | the three chained replacements equal escaping character by character |
| Cql.EscapeReadsBack | src/commands/search.rs:93-98 | a CQL string literal built from the escaped text reads back as the blanked text and stops at its closing quote |
| Cql.EachReadsBack | src/commands/label.rs:122-127 | the same read-back for the per-character escape |
| Label.EachKeepsColon | src/commands/label.rs:122-127 | escaping neither adds nor removes a `:` |
| Label.EscapeKeepsColon | src/commands/label.rs:130-131 | the `:` test on the escaped label agrees with the raw label |
| Label.LabelCqlExact | src/commands/label.rs:129-133 | a label with `:` gives `label = "<escaped>"`, whose literal reads back as the label |
| Label.LabelCql | src/commands/label.rs:129-133 | a label containing `:` gives the exact form `label = "…"`, and only such a label does; any other gives `label in ("…"` |
| Label.ReadsTeam | src/commands/label.rs:134 | the second alternative reads back as `team:` + label |
| Label.ReadsMy | src/commands/label.rs:134 | the third alternative reads back as `my:` + label and closes the list |
| Label.LabelCqlAlternatives | src/commands/label.rs:134-135 | a label without `:` gives `label in (...)` whose three literals read back as the label, `team:` + label and `my:` + label |
| Label.LabelResultRow | src/commands/label.rs:138-169 | three cells: from `content` when present, from the space for a space entity, else id, `type` falling back to `entityType`, and title |
| Label.TypeFallsBackToEntityType | src/commands/label.rs:161-166 | without `type`, the type cell is the entity type |
| Label.NonStringTypeIsBlank | src/commands/label.rs:161-166 | a non-string `type` does not fall back and gives an empty cell |
| Label.NullContentIsBlank | src/commands/label.rs:139-143 | a null `content` still takes the content branch and gives three empty cells |
| Label.LabelPagesRows | src/commands/label.rs:109-114 | one row per element of `results`, none when it is missing or not an array |
| Label.DryRunSendsNothing | src/commands/label.rs:61-88 | in dry run, add and remove send nothing and print their `Would` line |
| Label.WriteSendsOne | src/commands/label.rs:69-96 | otherwise add sends one POST of `[{prefix: global, name}]` and remove one DELETE to the page's labels, and each succeeds iff its request does |
| Label.LabelAdd | src/commands/label.rs:57-76 | an unresolved page fails with its error before any request; at most one request, a POST, sent only on a real run; success exactly when the page resolves and, on a real run, the POST succeeds |
| Label.LabelRemove | src/commands/label.rs:78-97 | an unresolved page fails with its error before any request; at most one request, a DELETE, sent only on a real run; success exactly when the page resolves and, on a real run, the DELETE succeeds |
| Search.ToCqlQuery | src/commands/search.rs:105-115 | a query with a CQL keyword, a field operator or both parentheses is kept as it is |
| Search.HasKeyword | src/commands/search.rs:100-101 | `\b(AND\|OR\|NOT\|IN)\b` matches somewhere in the query; a match needs at least two characters |
| Search.HasFieldOp | src/commands/search.rs:103 | `\w+\s*[=~!<>]` matches somewhere in the query; a match puts an operator character after the first character |
| Search.LooksLikeCql | src/commands/search.rs:106-110 | a keyword, a field operator, or both parentheses; a query shorter than two characters never passes as CQL |
| Search.TextSearchQuotesQuery | src/commands/search.rs:113 | any other query becomes `text ~ "<escaped>"`, whose literal reads back as the query |
| Search.FieldQueryPassesThrough | src/commands/search.rs:103-111 | `type = page` passes through unchanged |
| Search.SpaceFilterQuotesKey | src/commands/search.rs:19-23 | the space filter quotes the escaped key, which reads back, and wraps the query in `AND (...)` |
| Search.SearchCql | src/commands/search.rs:14-23 | an error iff the trimmed query is empty, with `Search query cannot be empty`; otherwise the converted query, filtered by space when one is given |
| Search.SearchAll | src/commands/search.rs:123-125 | limit 0 fails with `--limit must be at least 1` |
| Search.PrefixedTwice | src/commands/search.rs:157 | prepending two batches of results is prepending their concatenation |
| Search.SearchAllLoop | src/commands/search.rs:122-164 | the loop returns exactly the recursive definition of paging by offset |
| Search.SearchAfterFullPages | src/commands/search.rs:132-162 | after k full pages the result is those pages' items followed by paging on from page k |
| Search.SearchStopsAtShortPage | src/commands/search.rs:153-160 | a short or empty page ends the search with everything read so far |
| Search.SearchFailsWithRequest | src/commands/search.rs:147 | a failing request after full pages is the search's error |
| Search.SearchAbortsAfterMaxPages | src/commands/search.rs:127-138 | 10000 full pages abort with `Search pagination aborted after 10000 pages (possible looping server response)` |
| Listing.Given | src/commands/page/listing.rs:24-29 | an optional filter contributes exactly one pair when given and none otherwise |
| Listing.BuildPageListPairs | src/commands/page/listing.rs:19-29 | the loop-free builder yields the `page list` query pairs in source order |
| Listing.PageListPairsShape | src/commands/page/listing.rs:19-29 | `limit` comes first, one pair per given filter, `title` last when given, `space-id` the resolved id |
| Listing.SpaceColumn | src/commands/page/listing.rs:47-51 | the space cell is the resolved key when the id was resolved, else the raw space id |
| Listing.PageListRows | src/commands/page/listing.rs:14-64 | one paginated GET of `/pages` and one table with one row (id, title, space, status) per page |
| Listing.PageList | src/commands/page/listing.rs:14-64 | an unresolved `--space` fails before any request; otherwise one GET; success exactly when the space resolves (if given), the paging succeeds and, for table output, the space keys are found; nothing is shown on failure or under `--quiet` |
| Listing.PageGetPairs | src/commands/page/listing.rs:87-93 | no query pairs iff the body is not shown and no version was asked for |
| Listing.BuildPageGetPairs | src/commands/page/listing.rs:87-93 | the builder yields `body-format` when showing the body, then `version` when given |
| Listing.PageGetVersionReadsBack | src/commands/page/listing.rs:91-93 | the `version` pair is last and reads back as the requested version |
| Listing.PageGetRows | src/commands/page/listing.rs:102-135 | seven rows, the space row holding the resolved key or else the raw id, plus a `Body` row iff the body is shown and present |
| Listing.PageGet | src/commands/page/listing.rs:66-167 | an unresolved page fails before any request; otherwise exactly one GET; JSON and table output succeed exactly when the fetch does; nothing is shown on failure or under `--quiet` |
| Listing.PageGetRequests | src/commands/page/listing.rs:73-98 | JSON output puts `body-format` (and `&version=`) in the path; table output queries `/pages/<id>` with pairs only when needed |
| Listing.BodyKindOf | src/commands/page/listing.rs:175-241 | each accepted format (case-insensitive) picks its body kind; any other is `Invalid body format: <format>. Use markdown, view, storage, atlas_doc_format, or adf.` |
| Listing.BodyText | src/commands/page/listing.rs:176-235 | a missing body gives that kind's `Missing ... body content`; view is unicode-unescaped, storage verbatim, ADF pretty-printed when it parses as JSON and given back unchanged when it does not, markdown converted and headed unless quiet |
| Listing.PageBodyRequests | src/commands/page/listing.rs:169-242 | a bad format fails before any request; otherwise exactly one GET with that format's representation |
| Listing.PageBody | src/commands/page/listing.rs:169-242 | an unresolved page fails before any request; at most one GET; success needs a resolved page, a known format and a successful fetch; nothing is shown on failure or under `--quiet` |
| Listing.PageBodyJson | src/commands/page/listing.rs:244-252 | JSON output is `{pageId, format, body}` with the body text |
| WriteOps.VersionNumber | src/commands/page/write_ops.rs:35-39 | a version is read only when `version.number` is an integer within the i64 range |
| WriteOps.EditFormat | src/commands/page/write_ops.rs:21-31 | `storage` and `atlas_doc_format`/`adf` (case-insensitive) are accepted, any other is `Invalid --format: <f>. Use storage or adf.` |
| WriteOps.EditorString | src/commands/page/write_ops.rs:76-84 | EDITOR when non-blank, else VISUAL when non-blank, else `vi` |
| WriteOps.EditorCommand | src/commands/page/write_ops.rs:86-90 | the first shell word is the program and the rest its arguments; `vi` for no words; the whole string when splitting fails |
| WriteOps.UnchangedEditWritesNothing | src/commands/page/write_ops.rs:101-105 | an edit that leaves the text unchanged prints `No changes.` and sends no PUT |
| WriteOps.PageEdit | src/commands/page/write_ops.rs:15-177 | an unresolved page fails before any request; at most three requests; a PUT goes out only after `--yes` or a confirmed prompt, as the third request after the two GETs; nothing is shown on failure or under `--quiet` |
| WriteOps.EditSave | src/commands/page/write_ops.rs:133-177 | after the earlier requests, the version check is a GET; at most a PUT follows it, and a run that stops at the check has failed |
| WriteOps.ConflictWritesNothing | src/commands/page/write_ops.rs:133-144 | a newer version on the server fails with `Version conflict: ...` and sends no PUT |
| WriteOps.SavedEditWritesNextVersion | src/commands/page/write_ops.rs:133-163 | an unchanged version leads to the version check and then exactly one PUT |
| WriteOps.EditPutPayload | src/commands/page/write_ops.rs:146-161 | the PUT carries version `current + 1`, the edited body (for ADF: re-serialised compactly when it parses as JSON, unchanged when it does not) and its representation |
| WriteOps.CreateTitle | src/commands/page/write_ops.rs:184-188 | the given title, else the body file's stem; stdin or no file fails with `Title is required when reading from stdin` |
| WriteOps.BuildCreatePayload | src/commands/page/write_ops.rs:201-210 | the payload is the create payload |
| WriteOps.CreatePayloadFields | src/commands/page/write_ops.rs:201-210 | status defaults to `current`, title and space id are kept, `parentId` is present iff a parent was resolved |
| WriteOps.CreateRequests | src/commands/page/write_ops.rs:179-237 | a missing title and dry run send nothing; otherwise at most one POST to `/pages` |
| WriteOps.PageCreate | src/commands/page/write_ops.rs:179-237 | a request goes out only on a real run, after the title, the space, the body and any parent are all resolved; a successful real run sent exactly one; nothing is shown on failure or under `--quiet` |
| WriteOps.BuildUpdatePayload | src/commands/page/write_ops.rs:312-325 | the payload is the update payload |
| WriteOps.UpdatePayloadVersion | src/commands/page/write_ops.rs:317-321 | version `current + 1`, with `message` present iff one was given |
| WriteOps.UpdatePayloadFields | src/commands/page/write_ops.rs:312-316 | title, status and body are the chosen ones |
| WriteOps.UpdatePayloadParent | src/commands/page/write_ops.rs:322-325 | `parentId` is present iff a parent was given, and holds its resolved id |
| WriteOps.UpdateTitle | src/commands/page/write_ops.rs:270-278 | the given title, else the page's string title, else `Title is required` |
| WriteOps.UpdateStatus | src/commands/page/write_ops.rs:279-287 | the given status, else the page's string status, else `current` |
| WriteOps.UpdateBody | src/commands/page/write_ops.rs:300-310 | without body arguments, the page's body in that format or `Missing body content for update`; otherwise the read body |
| WriteOps.NothingToUpdateFailsFirst | src/commands/page/write_ops.rs:244-254 | with no field to update, the command fails before any request |
| WriteOps.UpdateWrites | src/commands/page/write_ops.rs:256-326 | at most two requests, the only write being a PUT in second place, and none in dry run |
| WriteOps.PageUpdate | src/commands/page/write_ops.rs:239-345 | nothing is sent when there is nothing to update or the page does not resolve; a PUT goes out only on a real run after the page, its version, the title, the body and any parent are all read; nothing is shown on failure or under `--quiet` |
| WriteOps.UpdateDryRunPlan | src/commands/page/write_ops.rs:289-298 | dry run prints `Would update page <id> to version <current + 1>` |
| WriteOps.PlainDelete | src/commands/page/write_ops.rs:404-407 | without purge, exactly one trash request whose error is the command's |
| WriteOps.PurgeDecisions | src/commands/page/write_ops.rs:390-403 | a trashed page is purged directly; otherwise purge refuses without `--force`, or trashes and then purges |
| WriteOps.PageDelete | src/commands/page/write_ops.rs:347-425 | an unresolved page fails before any request; a request goes out only on a real run after `--yes` or a confirmed prompt; at most three requests; nothing is shown on failure or under `--quiet` |
| WriteOps.DeleteDryRunAndDecline | src/commands/page/write_ops.rs:356-388 | dry run and a declined or failed prompt send nothing; dry-run JSON reports `{dryRun, action, deleted: false, id}` |
| Changelog.LStrip | scripts/extract_changelog.py:25 | removes exactly the leading Python whitespace |
| Changelog.RStrip | scripts/extract_changelog.py:60 | removes exactly the trailing Python whitespace |
| Changelog.Strip | scripts/extract_changelog.py:25 | a non-empty result has no whitespace at either end |
| Changelog.StripEmpty | scripts/extract_changelog.py:55-58 | a string strips to empty iff it is all whitespace |
| Changelog.RStripAppend | scripts/extract_changelog.py:60 | a suffix with text shields the prefix from `rstrip` |
| Changelog.FirstBreak | scripts/extract_changelog.py:31 | the first line break position, with none before it |
| Changelog.BreakEnd | scripts/extract_changelog.py:31 | a break is two characters exactly for `\r\n` |
| Changelog.SplitLines | scripts/extract_changelog.py:31 | `splitlines` pieces hold no line break, and only the empty text has none |
| Changelog.SplitUnlines | scripts/extract_changelog.py:31 | splitting lines joined with newlines gives them back |
| Changelog.HeadingForms | scripts/extract_changelog.py:33 | `## [v]` alone or followed by whitespace is the heading; glued text is not |
| Changelog.IsHeading | scripts/extract_changelog.py:33 | the heading pattern for a version; a heading line starts with `## [`, so it also ends the section before it |
| Changelog.VersionPrefixNoMatch | scripts/extract_changelog.py:33 | a longer version does not match a shorter one's heading |
| Changelog.ShorterVersionExample | scripts/extract_changelog.py:33 | `0.2.4` does not match `## [0.2.45] ...` but matches `## [0.2.4] ...` |
| Changelog.HeadingCloses | scripts/extract_changelog.py:33 | a heading holds the version literally, followed by `]` |
| Changelog.HeadingNamesOneVersion | scripts/extract_changelog.py:33 | a heading line names at most one version |
| Changelog.HeadingIndex | scripts/extract_changelog.py:35-39 | the first heading line for the version, or none when no line is one |
| Changelog.HeadingFrom | scripts/extract_changelog.py:36-39 | the first heading at or after a position |
| Changelog.SectionEnd | scripts/extract_changelog.py:45-49 | the next line starting with `## [` after the heading, or the end |
| Changelog.EndFrom | scripts/extract_changelog.py:46-49 | the first `## [` line at or after a position |
| Changelog.FindStart | scripts/extract_changelog.py:35-39 | the search loop finds the heading index |
| Changelog.FindEnd | scripts/extract_changelog.py:45-49 | the search loop finds the section end |
| Changelog.FirstText | scripts/extract_changelog.py:55-56 | the first non-blank line of a range |
| Changelog.LastText | scripts/extract_changelog.py:57-58 | the end after the last non-blank line of a range |
| Changelog.Trimmed | scripts/extract_changelog.py:55-58 | the bounds cut only blank lines, and the kept range starts and ends with text |
| Changelog.TrimmedEmpty | scripts/extract_changelog.py:55-58 | the kept range is empty iff every line is blank |
| Changelog.TrimBody | scripts/extract_changelog.py:52-58 | the pop loops keep exactly the trimmed range |
| Changelog.Render | scripts/extract_changelog.py:60 | the output ends in one newline after the joined lines minus trailing whitespace |
| Changelog.RenderKeepsLines | scripts/extract_changelog.py:60 | with a non-blank last line, only that line is right-stripped |
| Changelog.ExtractChangelog | scripts/extract_changelog.py:20-62 | the script's exit code, stdout and stderr are those of the extraction |
| Changelog.Extract | scripts/extract_changelog.py:20-62 | `main`: exit code 0, 1 or 2; standard error is empty exactly on success, and a failure writes nothing to standard output |
| Changelog.Section | scripts/extract_changelog.py:35-62 | once the version is known: exit 0 or 1, with an empty standard error exactly on success and an empty standard output on 1 |
| Changelog.UsageErrors | scripts/extract_changelog.py:21-28 | exit 2 iff the argument count is wrong or the version is blank, with the usage or empty-version message and no output |
| Changelog.NotFound | scripts/extract_changelog.py:41-43 | exit 1 iff no line is the version's heading, with `Could not find CHANGELOG section for version <v>` |
| Changelog.SectionFound | scripts/extract_changelog.py:35-43 | the section is missing iff no line is a heading for the version |
| Changelog.ExtractedSection | scripts/extract_changelog.py:35-62 | on success the output is the trimmed body between the first heading and the next `## [` line |
| Changelog.SectionOutput | scripts/extract_changelog.py:35-62 | the same facts stated on the lines of the file |
| Helpers.Show | src/helpers.rs:26-31 | a line is printed unless quiet |
| Helpers.ShowAs | src/commands/comment.rs:146-155 | nothing when quiet, the JSON for JSON output, else key-value rows |
| Helpers.WriteActionResult | src/commands/page/write_ops.rs:356-373 | nothing when quiet, the line without `--output`, the JSON for JSON output, else the rows |
| Helpers.HumanSizeNegative | src/helpers.rs:33-36 | a negative size is printed as its decimal text |
| Helpers.DownloadLink | src/commands/attachment.rs:105-112 | `downloadLink` when a string, else `_links.download` when a string, else none |
| Helpers.ResolveDownloadPath | src/helpers.rs:40-55 | the given output path, else the title's last component, else `Unsafe or missing attachment title. ...` |
| Helpers.DerivedPathStaysHere | src/helpers.rs:44-54 | a path derived from the title is one relative component other than `..` |
| Helpers.AddMarkdownHeader | src/helpers.rs:57-68 | with a `webui` link, `<!-- Source: <base><webui> -->` and a blank line precede the markdown; otherwise it is unchanged |
| Helpers.HeaderStrips | src/helpers.rs:62-64 | the header starts with `<!-- Source: `, ends in a blank line, and removing it gives the markdown back |
| Helpers.BodySourceOf | src/helpers.rs:88-111 | both sources fail; an inline body wins; `-` means stdin; otherwise the file |
| Helpers.ReadBody | src/helpers.rs:88-112 | both flags or neither give their usage errors; `--body` is returned as given; `--body-file -` gives what standard input holds; any other path gives the file's content, or the error "Failed to read <path>" exactly when reading it fails |
| Helpers.DeriveTitleFromFile | src/helpers.rs:115-123 | no title for no file or stdin, else the file stem |
| Helpers.DerivedTitleIsStem | src/helpers.rs:120-122 | the title is the file name, or the file name without its last extension |
| Paths.Components | src/helpers.rs:98 | path components are non-empty, never `.`, and hold no `/` |
| Paths.FileName | src/helpers.rs:45-48 | the last component, never `..` |
| Paths.StemExtension | src/helpers.rs:120 | the file name is the stem, or the stem, a dot and the extension |
| Sorting.SortByKeySortedPermutation | src/commands/attachment.rs:237 | `sort_by_key` yields a sorted permutation |
| Sorting.SortByKeyStable | src/commands/attachment.rs:237 | `sort_by_key` keeps equal-key elements in their order |
| Sorting.SortByKeyIndices | src/commands/attachment.rs:237 | with distinct keys 0..n-1, position k holds the element with key k |

## Left out

- Resolve.BuildPageTree: `build_page_tree` has no depth bound, but the model adds a `maxDepth` parameter. `Resolve.PageTreeDepthInert` proves the bound never cuts when `maxDepth >= |items|` and ids determine the items. When one id names different items, the source may loop for ever, and the model stops at the bound instead.
- Changelog.ExtractChangelog: the text of `CHANGELOG.md` is a parameter. A missing or unreadable file makes the script stop with an uncaught Python exception; that exit is not modelled.
- Json.JsonStr: the `JNum` value of `Json` holds integers only. Floating-point numbers and exponents, which serde_json parses and prints, are not modelled.
- Pattern.SameLetter: case-insensitive matching folds only the letters whose lower case is ASCII. This is weaker than the Unicode case folding of the `regex` crate.
- Search.HasKeyword: `\b` is modelled on ASCII word characters, whereas the `regex` crate's classes are Unicode. For example, `éAND x` has no word boundary before `AND` in the source, but the model finds one.
- Search.HasFieldOp: `\w` is ASCII-only in the model; the source's class is Unicode. (`\s` is the Unicode White_Space class, as in the source.)
- Markdown.EmptyListItem: `\d` in the empty-list-item pattern is ASCII-only in the model; the source's class is Unicode. (`\s` is the Unicode White_Space class, as in the source.)
- Pagination.NextLinkFromHeaders: where the source panics on a segment whose `>` comes before its `<`, the model returns no link. The panic itself is modelled by `Pagination.ScanAsWritten` (see Findings).
- WriteOps.EditPutPayload: the next version `current + 1` is an unbounded integer. The source adds to an i64, which overflows at `i64::MAX`. The same holds for `WriteOps.UpdatePayloadVersion` and `WriteOps.UpdateDryRunPlan`.
- CopyTree.CopyTreeRun: when the descendants listing contains the source page itself, the coverage facts are stated only for nodes reached from the source.
- CopyTree.CopyTreeRun: the "Would create …" lines of a dry run are recorded even under `--quiet`, where `print_line` (src/commands/copy_tree.rs:265-268) prints nothing. The final report is not modelled: the JSON `{mapping, created}` or the Source/TargetParent/Created rows (src/commands/copy_tree.rs:332-345). Nor is the `--delay-ms` sleep after each create (src/commands/copy_tree.rs:289-291), which is timing only.
- CopyTree.FetchBodies: the body fetches run one after another; the source runs them concurrently behind a semaphore. Only the first-error behaviour and the per-node results are modelled.
- CopyTree.Walk: the walk carries fuel `|nodes| + 1`. `CopyTree.WalkCovers` proves that any larger fuel gives the same walk.
- Resolve.ResolvePageId: the lookup oracle stands for building the URL with `url_with_query` and fetching it. The error `url_with_query` returns for an unparsable base URL is not modelled. The same holds for every lookup and listing oracle, in `Resolve`, `Tree`, `Listing`, `Comment` and `Search`.
- Export.DownloadAttachmentItem: the model uses the corrected target `Export.Target` (see Findings), which refuses an attachment whose title sanitises to `.` with `Unsafe attachment title: <title>`. The source as written (src/commands/export.rs:211-215, modelled by `Export.TargetAsWritten`) joins that name onto the attachments directory, and `unique_path` (src/download.rs:197-224) then downloads the file to `<folder>/attachments (1)`, beside the directory. That download is not modelled.
- Export.ItemOutcome: the model uses the corrected target `Export.Target` (see Findings), which refuses an attachment whose title sanitises to `.` with `Unsafe attachment title: <title>`. The source as written (src/commands/export.rs:211-215, modelled by `Export.TargetAsWritten`) joins that name onto the attachments directory, and `unique_path` (src/download.rs:197-224) then downloads the file to `<folder>/attachments (1)`, beside the directory. That download is not modelled, so "directly inside the attachments directory" holds of the corrected target only.
- Export.DownloadAll: the model uses the corrected target `Export.Target` (see Findings), which refuses an attachment whose title sanitises to `.` with `Unsafe attachment title: <title>`. The source as written (src/commands/export.rs:211-215, modelled by `Export.TargetAsWritten`) joins that name onto the attachments directory, and `unique_path` (src/download.rs:197-224) then downloads the file to `<folder>/attachments (1)`, beside the directory. That download is not modelled; the outcome for such an item is the refusal.
- Export.ExportAttachments: the model uses the corrected target `Export.Target` (see Findings), which refuses an attachment whose title sanitises to `.` with `Unsafe attachment title: <title>`. The source as written (src/commands/export.rs:211-215, modelled by `Export.TargetAsWritten`) joins that name onto the attachments directory, and `unique_path` (src/download.rs:197-224) then downloads the file to `<folder>/attachments (1)`, beside the directory. That download is not modelled; for such an item the model fails with the refusal where the source downloads.
- Export.ExportPage: the model uses the corrected target `Export.Target` (see Findings), which refuses an attachment whose title sanitises to `.` with `Unsafe attachment title: <title>`. The source as written (src/commands/export.rs:211-215, modelled by `Export.TargetAsWritten`) joins that name onto the attachments directory, and `unique_path` (src/download.rs:197-224) then downloads the file to `<folder>/attachments (1)`, beside the directory. That download is not modelled, so "written paths lie in the attachments directory" holds of the corrected target only.
- Export.ExportPage: the writes of `meta.json` and of the body, and `create_dir_all`, are taken to succeed. Their I/O errors are dropped.
- Export.DownloadAll: the attachment downloads run one after another, in selection order. This is how they behave with `--concurrency 1`; the source's default is 4. With more permits, free-name searches can interleave, and that is not modelled.
- Attachment.AttachmentUpload: the uploads are concurrent tasks. The model takes the order in which they complete as a parameter and proves the reported order does not depend on it. The MB figure in the prompt (floating point) is not modelled.
- WriteOps.UnchangedEditWritesNothing: `page edit --diff` prints a unified diff produced by the `similar` crate, and that output is not modelled. Writing the temporary files and launching the editor are I/O. The edited text is a given value, and so is the editor's exit status.
- Paths.Components: path components drop `.` everywhere, including in leading position. So `./-` is read as `-` (stdin) by `Helpers.ReadBody`, whereas Rust keeps a leading `CurDir` and reads a file named `-`. `Display` prints the normalised components rather than the original text.
- Client.GetPaginatedResults: the server's answers are a finite script. A server that keeps returning next links gives `ScriptEnded` rather than the source's endless paging.
- Tree.FetchDescendants: with `all` and a non-zero depth bound, the model does not state that every result above the bound is expanded. Completeness (every result expanded) is proved only without a depth bound.
- Tree.FetchDescendants: the listing is taken to name finitely many pages (`Finite(list, universe)`), which is what makes the walk end. On an infinite server the source would not end either.
- Client.NewClient: the error that `HttpClient::builder()...build()?` can return (src/client.rs:53-57) is not modelled; the HTTP client's construction is taken to succeed, so the client fails only when the origin does.
- Client.Send: the verbose logging to standard error (the request line, the status and elapsed time, the request id, and the retry notices; src/client.rs:114-131, 142-144, 156-158) is output only and is not modelled.
- Download.WriteStream: `write_all` to the temporary file (src/download.rs:165) is taken to succeed. In the source a failed write ends the download at once with the I/O error, with no retry and no "Download failed after" context, and the partly written temporary file is left in place.
- Download.TurnDelivers: the same write failure is not modelled, so "succeeds exactly when the file is created, the stream completes and the rename works" holds only when every write succeeds.
- Download.Deliver: every write to the temporary file is taken to succeed, as for `Download.WriteStream`.
- Download.DownloadToFileWithRetry: every write to the temporary file is taken to succeed, so a download never ends with a write's I/O error.
- Download.DownloadSucceeds: every write to the temporary file is taken to succeed, as for `Download.WriteStream`.
- Client.Jitter: the random source is a parameter and only its bound is stated. The same holds for the clock behind the millisecond temporary names in `Download`.
- The `with_query` helper of src/tree.rs is a thin wrapper over `Url` query building, not part of this model.
- `search_result_row` (src/commands/search.rs:56-91), the `label list` table (src/commands/label.rs:1-55), and `attachment list`/`attachment get` (src/commands/attachment.rs:38-96): request-and-render code, not part of this model.
- `open_url` (src/helpers.rs:125-141) launches a browser, which is external-process work.
- Markdown.HtmlToMarkdown: the `htmd` conversion and the `preprocess_html`/`add_image_alt_text` rewrites (src/markdown.rs:24-92) are a given function; only the postprocessing is modelled.
- Comment.StorageValue: `markdown_to_storage` is a given function, and `format_timestamp` is one too, in `Comment.CommentRow`.
- Client.AuthorizationHeader: base64 encoding is a given function. `Url` parse/join/form encoding, the `lru` crate (modelled by its behaviour in the `SpaceKeyCache` class of `Resolve`), `shell_words` (its result is a given value) and `humansize` (non-negative sizes) are library internals, not part of this model.
- Helpers.ShowAs: table and terminal rendering (src/output.rs), progress bars and the `: cause` suffixes that `format_error_chain` adds to error messages are not part of this model.
- Config.FromEnv: saving and loading the config file and its permissions (src/config.rs:19-31,76-106) are file-system work, not part of this model.
- src/commands/page.rs duplicates the page listing and write operations, and is not part of this model; src/commands/space.rs, navigation.rs and auth.rs are thin network wrappers, not part of this model either.

## Findings

| source | as written | input that shows it | evidently intended | confidence | as-written member | corrected member |
|---|---|---|---|---|---|---|
| src/pagination.rs:7-9 | each `link` segment is sliced between the first `<` and the first `>`, without checking their order | the header `link: ><a>; rel=next` (start 2 > end 0) panics at the slice | a malformed segment is skipped or ends the lookup with no link | not executed | Pagination.BackwardsSegmentPanics | Pagination.ScanSegments |
| src/commands/export.rs:211-215 | an attachment title that sanitizes to `.` is joined onto the attachments directory, which names that directory itself | an attachment titled `.` under `<folder>/attachments`: the target exists, so `unique_path` picks `<folder>/attachments (1)`, beside the directory rather than in it | every attachment is written to a file directly inside the attachments directory | not executed | Export.DotTitleNamesDirectory | Export.TargetInside |
