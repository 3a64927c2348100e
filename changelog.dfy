/**
 * scripts/extract_changelog.py: print the section of CHANGELOG.md that belongs
 * to one version. The text `read_text` returns is a parameter; Python's
 * `str.isspace`, `str.strip`, `str.rstrip`, `str.splitlines` and the heading
 * pattern are written out.
 */
module Changelog {
  import opened Wrappers
  import opened Strings

  // ------------------------------------------------------------ characters

  /** `str.isspace` for one character, which is also the class `\s` of `re`
      on a `str` pattern. */
  predicate PySpace(c: char) {
    var n := c as int;
    (0x09 <= n <= 0x0D) || (0x1C <= n <= 0x20) || n == 0x85 || n == 0xA0 || n == 0x1680
    || (0x2000 <= n <= 0x200A) || n == 0x2028 || n == 0x2029 || n == 0x202F
    || n == 0x205F || n == 0x3000
  }

  /** The line boundaries of `str.splitlines` (`\r\n` counts as one). */
  predicate LineBreak(c: char) {
    var n := c as int;
    (0x0A <= n <= 0x0D) || (0x1C <= n <= 0x1E) || n == 0x85 || n == 0x2028 || n == 0x2029
  }

  // ----------------------------------------------------------- strip, rstrip

  /** `s.lstrip()` */
  function LStrip(s: string): (r: string)
    ensures |r| <= |s| && r == s[|s| - |r|..]
    ensures r == [] || !PySpace(r[0])
    ensures forall i :: 0 <= i < |s| - |r| ==> PySpace(s[i])
  {
    if |s| > 0 && PySpace(s[0]) then
      var r := LStrip(s[1..]);
      LeadingSpaces(s, r);
      r
    else s
  }

  /** The spaces `lstrip` takes off after a first space, and that space. */
  lemma LeadingSpaces(s: string, r: string)
    requires |s| > 0 && PySpace(s[0]) && |r| <= |s| - 1 && r == s[1..][|s| - 1 - |r|..]
    requires forall i :: 0 <= i < |s| - 1 - |r| ==> PySpace(s[1..][i])
    ensures r == s[|s| - |r|..] && forall i :: 0 <= i < |s| - |r| ==> PySpace(s[i])
  {
    forall i | 0 <= i < |s| - |r|
      ensures PySpace(s[i])
    {
      if i > 0 {
        assert s[i] == s[1..][i - 1];
      }
    }
  }

  /** `s.rstrip()` */
  function RStrip(s: string): (r: string)
    ensures |r| <= |s| && r == s[..|r|]
    ensures r == [] || !PySpace(r[|r| - 1])
    ensures forall i :: |r| <= i < |s| ==> PySpace(s[i])
  {
    if |s| > 0 && PySpace(s[|s| - 1]) then RStrip(s[..|s| - 1]) else s
  }

  /** `s.strip()`: neither end of the result is whitespace. */
  function Strip(s: string): (r: string)
    ensures r != "" ==> !PySpace(r[0]) && !PySpace(r[|r| - 1])
  {
    var l := LStrip(s);
    var r := RStrip(l);
    assert r != "" ==> r[0] == l[0];
    r
  }

  /** Stripping leaves nothing exactly when every character is whitespace. */
  lemma StripEmpty(s: string)
    ensures Strip(s) == "" <==> forall i :: 0 <= i < |s| ==> PySpace(s[i])
  {
    var l := LStrip(s);
    assert forall i :: |s| - |l| <= i < |s| ==> s[i] == l[i - (|s| - |l|)];
    if l != "" {
      assert s[|s| - |l|] == l[0];
    }
  }

  /** Taking trailing whitespace off `x + y` touches only `y` when `y` holds
      something other than whitespace. */
  lemma {:induction false} RStripAppend(x: string, y: string)
    requires RStrip(y) != ""
    ensures RStrip(x + y) == x + RStrip(y)
    decreases |y|
  {
    var s := x + y;
    DropLastAppend(x, y);
    if PySpace(y[|y| - 1]) {
      RStripAppend(x, y[..|y| - 1]);
    }
  }

  lemma DropLastAppend(x: string, y: string)
    requires y != ""
    ensures (x + y)[..|x + y| - 1] == x + y[..|y| - 1] && (x + y)[|x + y| - 1] == y[|y| - 1]
  {
  }

  // -------------------------------------------------------------- splitlines

  /** The index of the first line boundary, `|s|` when there is none. */
  function FirstBreak(s: string): (k: nat)
    ensures k <= |s|
    ensures forall j :: 0 <= j < k ==> !LineBreak(s[j])
    ensures k < |s| ==> LineBreak(s[k])
  {
    if s == "" || LineBreak(s[0]) then 0 else 1 + FirstBreak(s[1..])
  }

  /** Where the next line starts after the boundary at `k`. */
  function BreakEnd(s: string, k: nat): (e: nat)
    requires k < |s|
    ensures k < e <= |s|
    ensures e == k + 2 <==> s[k] == '\r' && k + 1 < |s| && s[k + 1] == '\n'
  {
    if s[k] == '\r' && k + 1 < |s| && s[k + 1] == '\n' then k + 2 else k + 1
  }

  /** `s.splitlines()`: the lines without their boundaries, and no empty last
      line for a text that ends with a boundary. */
  function SplitLines(s: string): (lines: seq<string>)
    ensures forall i, j :: 0 <= i < |lines| && 0 <= j < |lines[i]| ==> !LineBreak(lines[i][j])
    ensures s == "" <==> lines == []
    decreases |s|
  {
    if s == "" then []
    else
      var k := FirstBreak(s);
      if k == |s| then [s]
      else
        var rest := SplitLines(s[BreakEnd(s, k)..]);
        assert forall j :: 0 <= j < |s[..k]| ==> !LineBreak(s[..k][j]);
        [s[..k]] + rest
  }

  /** Lines each ended by `\n`, as a file that ends with a newline holds them. */
  function Unlines(lines: seq<string>): string {
    if lines == [] then "" else lines[0] + "\n" + Unlines(lines[1..])
  }

  /** `splitlines` gives back the lines of a text written one per `\n`. */
  lemma {:induction false} SplitUnlines(lines: seq<string>)
    requires forall i, j :: 0 <= i < |lines| && 0 <= j < |lines[i]| ==> !LineBreak(lines[i][j])
    ensures SplitLines(Unlines(lines)) == lines
  {
    if lines != [] {
      var l := lines[0];
      assert forall j :: 0 <= j < |l| ==> !LineBreak(l[j]);
      SplitFirstLine(l, Unlines(lines[1..]));
      assert forall i, j :: 0 <= i < |lines[1..]| && 0 <= j < |lines[1..][i]| ==> !LineBreak(lines[1..][i][j]) by {
        forall i, j | 0 <= i < |lines[1..]| && 0 <= j < |lines[1..][i]|
          ensures !LineBreak(lines[1..][i][j])
        {
          assert lines[1..][i] == lines[i + 1];
        }
      }
      SplitUnlines(lines[1..]);
      assert lines == [l] + lines[1..];
    }
  }

  /** A line without boundaries followed by `\n` is split off as the first line. */
  lemma SplitFirstLine(l: string, tail: string)
    requires forall j :: 0 <= j < |l| ==> !LineBreak(l[j])
    ensures SplitLines(l + "\n" + tail) == [l] + SplitLines(tail)
  {
    var s := l + "\n" + tail;
    assert s[|l|] == '\n';
    assert forall j :: 0 <= j < |l| ==> s[j] == l[j];
    FirstBreakAt(s, |l|);
    assert BreakEnd(s, |l|) == |l| + 1;
    assert s[..|l|] == l;
    assert s[|l| + 1..] == tail;
  }

  lemma FirstBreakAt(s: string, k: nat)
    requires k < |s| && LineBreak(s[k]) && forall j :: 0 <= j < k ==> !LineBreak(s[j])
    ensures FirstBreak(s) == k
  {
  }

  // ------------------------------------------------------------------ heading

  const SECTION_PREFIX: string := "## ["

  /** The heading `re.match(rf"^## \[{re.escape(version)}\](?:\s|$)", line)`
      accepts on a line without a boundary: the version in brackets, taken
      literally, then whitespace or the end of the line. */
  predicate IsHeading(line: string, version: string)
    ensures IsHeading(line, version) ==> StartsWith(line, SECTION_PREFIX)
  {
    var h := SECTION_PREFIX + version + "]";
    StartsWith(line, h) && (|line| == |h| || PySpace(line[|h|]))
  }

  /** A heading is followed by whitespace and text, or nothing. */
  lemma HeadingForms(version: string, rest: string)
    ensures IsHeading(SECTION_PREFIX + version + "]", version)
    ensures IsHeading(SECTION_PREFIX + version + "] " + rest, version)
    ensures rest != "" && !PySpace(rest[0]) ==> !IsHeading(SECTION_PREFIX + version + "]" + rest, version)
  {
    var h := SECTION_PREFIX + version + "]";
    assert (h + " " + rest)[..|h|] == h;
    assert (h + rest)[..|h|] == h;
  }

  /** The version is matched literally: a version that is a proper prefix of
      the one in a heading does not match it unless the heading's version
      continues with `]`. */
  lemma {:induction false} VersionPrefixNoMatch(version: string, longer: string, rest: string)
    requires |version| < |longer| && longer[..|version|] == version && longer[|version|] != ']'
    ensures !IsHeading(SECTION_PREFIX + longer + "]" + rest, version)
  {
    var line := SECTION_PREFIX + longer + "]" + rest;
    var h := SECTION_PREFIX + version + "]";
    assert line[|h| - 1] == longer[|version|];
    if StartsWith(line, h) {
      assert false;
    }
  }

  /** `0.2.4` does not select the section of `0.2.45`. */
  lemma ShorterVersionExample()
    ensures !IsHeading("## [0.2.45] - 2024-01-01", "0.2.4")
    ensures IsHeading("## [0.2.4] - 2024-01-01", "0.2.4")
  {
    var h := SECTION_PREFIX + "0.2.4" + "]";
    assert "## [0.2.45] - 2024-01-01"[9] != h[9];
    assert "## [0.2.4] - 2024-01-01"[..10] == h;
  }

  lemma HeadingCloses(line: string, version: string)
    requires IsHeading(line, version)
    ensures |line| > |version| + 4 && line[|version| + 4] == ']'
    ensures forall i :: 0 <= i < |version| ==> line[4 + i] == version[i]
  {
    assert line[..|version| + 5] == SECTION_PREFIX + version + "]";
  }

  /** Versions without `]` are told apart: no line is the heading of two. */
  lemma {:induction false} HeadingNamesOneVersion(line: string, v: string, u: string)
    requires ']' !in v && ']' !in u
    requires IsHeading(line, v) && IsHeading(line, u)
    ensures u == v
  {
    HeadingCloses(line, v);
    HeadingCloses(line, u);
    if |u| < |v| {
      assert false;
    } else if |v| < |u| {
      assert false;
    }
    assert u == line[4..4 + |u|];
  }

  // --------------------------------------------------------- start and end

  /** The first line that is the heading of `version`. */
  function HeadingIndex(lines: seq<string>, version: string): (r: Option<nat>)
    ensures r.Some? ==> r.value < |lines| && IsHeading(lines[r.value], version)
    ensures r.Some? ==> forall j :: 0 <= j < r.value ==> !IsHeading(lines[j], version)
    ensures r.None? ==> forall j :: 0 <= j < |lines| ==> !IsHeading(lines[j], version)
  {
    HeadingFrom(lines, version, 0)
  }

  function HeadingFrom(lines: seq<string>, version: string, i: nat): (r: Option<nat>)
    requires i <= |lines|
    ensures r.Some? ==> i <= r.value < |lines| && IsHeading(lines[r.value], version)
    ensures r.Some? ==> forall j :: i <= j < r.value ==> !IsHeading(lines[j], version)
    ensures r.None? ==> forall j :: i <= j < |lines| ==> !IsHeading(lines[j], version)
    decreases |lines| - i
  {
    if i == |lines| then None
    else if IsHeading(lines[i], version) then Some(i)
    else HeadingFrom(lines, version, i + 1)
  }

  /** The first line after `start` that starts a section, `|lines|` when there
      is none. */
  function SectionEnd(lines: seq<string>, start: nat): (r: nat)
    requires start < |lines|
    ensures start < r <= |lines|
    ensures forall j :: start < j < r ==> !StartsWith(lines[j], SECTION_PREFIX)
    ensures r < |lines| ==> StartsWith(lines[r], SECTION_PREFIX)
  {
    EndFrom(lines, start + 1)
  }

  function EndFrom(lines: seq<string>, j: nat): (r: nat)
    requires 0 < j <= |lines|
    ensures j <= r <= |lines|
    ensures forall k :: j <= k < r ==> !StartsWith(lines[k], SECTION_PREFIX)
    ensures r < |lines| ==> StartsWith(lines[r], SECTION_PREFIX)
    decreases |lines| - j
  {
    if j == |lines| || StartsWith(lines[j], SECTION_PREFIX) then j else EndFrom(lines, j + 1)
  }

  /** The loop over `enumerate(text)` that stops at the first heading. */
  method FindStart(lines: seq<string>, version: string) returns (start: Option<nat>)
    ensures start == HeadingIndex(lines, version)
  {
    start := None;
    for i := 0 to |lines|
      invariant forall j :: 0 <= j < i ==> !IsHeading(lines[j], version)
    {
      if IsHeading(lines[i], version) {
        start := Some(i);
        break;
      }
    }
  }

  /** The loop over `range(start + 1, len(text))` that stops at the next
      section. */
  method FindEnd(lines: seq<string>, start: nat) returns (end: nat)
    requires start < |lines|
    ensures end == SectionEnd(lines, start)
  {
    end := |lines|;
    for j := start + 1 to |lines|
      invariant forall k :: start < k < j ==> !StartsWith(lines[k], SECTION_PREFIX)
    {
      if StartsWith(lines[j], SECTION_PREFIX) {
        end := j;
        break;
      }
    }
  }

  // ------------------------------------------------------------ blank lines

  /** A line that `strip` empties (see `StripEmpty`). */
  predicate Blank(line: string) {
    forall i :: 0 <= i < |line| ==> PySpace(line[i])
  }

  /** The first index from `i` on, below `hi`, of a line that is not blank;
      `hi` when there is none. */
  function FirstText(lines: seq<string>, i: nat, hi: nat): (r: nat)
    requires i <= hi <= |lines|
    ensures i <= r <= hi
    ensures forall k :: i <= k < r ==> Blank(lines[k])
    ensures r < hi ==> !Blank(lines[r])
    decreases hi - i
  {
    if i == hi || !Blank(lines[i]) then i else FirstText(lines, i + 1, hi)
  }

  /** The end of the last line below `j`, from `lo` on, that is not blank;
      `lo` when there is none. */
  function LastText(lines: seq<string>, lo: nat, j: nat): (r: nat)
    requires lo <= j <= |lines|
    ensures lo <= r <= j
    ensures forall k :: r <= k < j ==> Blank(lines[k])
    ensures r > lo ==> !Blank(lines[r - 1])
    decreases j
  {
    if j == lo || !Blank(lines[j - 1]) then j else LastText(lines, lo, j - 1)
  }

  /** Where the lines `lo` to `hi` start and end once the blank lines at both
      ends are gone: the first and last lines left hold text. */
  function Trimmed(lines: seq<string>, lo: nat, hi: nat): (r: (nat, nat))
    requires lo <= hi <= |lines|
    ensures lo <= r.0 <= r.1 <= hi
    ensures forall k :: lo <= k < r.0 ==> Blank(lines[k])
    ensures forall k :: r.1 <= k < hi ==> Blank(lines[k])
    ensures r.0 < r.1 ==> !Blank(lines[r.0]) && !Blank(lines[r.1 - 1])
  {
    var a := FirstText(lines, lo, hi);
    (a, LastText(lines, a, hi))
  }

  /** Nothing is left exactly when every line is blank. */
  lemma TrimmedEmpty(lines: seq<string>, lo: nat, hi: nat)
    requires lo <= hi <= |lines|
    ensures Trimmed(lines, lo, hi).0 == Trimmed(lines, lo, hi).1 <==>
      forall k :: lo <= k < hi ==> Blank(lines[k])
  {
    var a := FirstText(lines, lo, hi);
    if forall k :: lo <= k < hi ==> Blank(lines[k]) {
      assert a == hi;
    }
  }

  /** `body_lines = text[lo:hi]` and the two `while` loops that pop lines
      `strip` empties (see `StripEmpty`), at the front and at the back. */
  method TrimBody(lines: seq<string>, lo: nat, hi: nat) returns (body: seq<string>)
    requires lo <= hi <= |lines|
    ensures body == lines[Trimmed(lines, lo, hi).0..Trimmed(lines, lo, hi).1]
  {
    body := lines[lo..hi];
    ghost var x := lo;
    while |body| > 0 && Blank(body[0])
      invariant lo <= x <= FirstText(lines, lo, hi) && body == lines[x..hi]
    {
      assert body[1..] == lines[x + 1..hi];
      body := body[1..];
      x := x + 1;
    }
    assert x == FirstText(lines, lo, hi);
    ghost var y := hi;
    while |body| > 0 && Blank(body[|body| - 1])
      invariant x == FirstText(lines, lo, hi)
      invariant x <= LastText(lines, x, hi) <= y <= hi && body == lines[x..y]
    {
      assert body[..|body| - 1] == lines[x..y - 1];
      body := body[..|body| - 1];
      y := y - 1;
    }
    assert y == LastText(lines, x, hi);
  }

  // ------------------------------------------------------------------ output

  /** The body joined by `\n`, right-stripped, and ended by one `\n`. */
  function Render(body: seq<string>): (r: string)
    ensures |r| >= 1 && r[|r| - 1] == '\n'
    ensures |r| == 1 || !PySpace(r[|r| - 2])
    ensures var j := Join(body, "\n");
      |r| - 1 <= |j| && r[..|r| - 1] == j[..|r| - 1]
      && forall i :: |r| - 1 <= i < |j| ==> PySpace(j[i])
    ensures body == [] ==> r == "\n"
  {
    var s := RStrip(Join(body, "\n"));
    assert (s + "\n")[..|s|] == s;
    s + "\n"
  }

  /** Only the end of the last line is touched: the output is the lines as
      they are, with the last one right-stripped, and a final `\n`. */
  lemma RenderKeepsLines(body: seq<string>)
    requires body != [] && !Blank(body[|body| - 1])
    ensures var n := |body|;
      Render(body) == Join(body[..n - 1] + [RStrip(body[n - 1])], "\n") + "\n"
  {
    var n := |body|;
    var last := body[n - 1];
    var init := body[..n - 1];
    assert body == init + [last];
    assert RStrip(last) != "";
    if init == [] {
    } else {
      JoinSnoc(init, "\n", last);
      JoinSnoc(init, "\n", RStrip(last));
      RStripAppend(Join(init, "\n") + "\n", last);
    }
  }

  // --------------------------------------------------------------------- main

  /** The exit status and what went to standard output and standard error. */
  datatype Exit = Exit(code: nat, stdout: string, stderr: string)

  const USAGE: string := "Usage: extract_changelog.py <version>"
  const EMPTY_VERSION: string := "Version cannot be empty"
  const NOT_FOUND: string := "Could not find CHANGELOG section for version "

  /** `main`, given `sys.argv` and the text of CHANGELOG.md. */
  function Extract(argv: seq<string>, text: string): (r: Exit)
    ensures r.code <= 2
    ensures r.code == 0 <==> r.stderr == ""
    ensures r.code != 0 ==> r.stdout == ""
  {
    if |argv| != 2 then Exit(2, "", USAGE + "\n")
    else
      var version := Strip(argv[1]);
      if version == "" then Exit(2, "", EMPTY_VERSION + "\n")
      else
        Section(SplitLines(text), version)
  }

  /** What `main` does once the lines and the version are known. */
  function Section(lines: seq<string>, version: string): (r: Exit)
    ensures r.code <= 1
    ensures r.code == 0 <==> r.stderr == ""
    ensures r.code == 1 ==> r.stdout == ""
  {
    match HeadingIndex(lines, version)
    case None => Exit(1, "", NOT_FOUND + version + "\n")
    case Some(start) =>
      var t := Trimmed(lines, start + 1, SectionEnd(lines, start));
      Exit(0, Render(lines[t.0..t.1]), "")
  }

  /** `main` as the script runs it. */
  method ExtractChangelog(argv: seq<string>, text: string) returns (exit: Exit)
    ensures exit == Extract(argv, text)
  {
    if |argv| != 2 {
      return Exit(2, "", USAGE + "\n");
    }
    var version := Strip(argv[1]);
    if version == "" {
      return Exit(2, "", EMPTY_VERSION + "\n");
    }
    var lines := SplitLines(text);
    var start := FindStart(lines, version);
    if start.None? {
      return Exit(1, "", NOT_FOUND + version + "\n");
    }
    var end := FindEnd(lines, start.value);
    var body := TrimBody(lines, start.value + 1, end);
    return Exit(0, Render(body), "");
  }

  /** Exit status 2: a wrong argument count or a version that is all
      whitespace, with the message for each. */
  lemma UsageErrors(argv: seq<string>, text: string)
    ensures var e := Extract(argv, text);
      (e.code == 2 <==> (|argv| != 2 || forall i :: 0 <= i < |argv[1]| ==> PySpace(argv[1][i])))
      && (|argv| != 2 ==> e.stderr == USAGE + "\n")
      && (|argv| == 2 && e.code == 2 ==> e.stderr == EMPTY_VERSION + "\n")
      && (e.code == 2 ==> e.stdout == "")
  {
    if |argv| == 2 {
      StripEmpty(argv[1]);
    }
  }

  /** Exit status 1 exactly when no line is the heading of the stripped
      version; otherwise 0, with output and nothing on standard error. */
  lemma NotFound(argv: seq<string>, text: string)
    requires |argv| == 2 && Strip(argv[1]) != ""
    ensures Extract(argv, text).code == 1 <==>
      forall j :: 0 <= j < |SplitLines(text)| ==> !IsHeading(SplitLines(text)[j], Strip(argv[1]))
    ensures Extract(argv, text).code == 1 ==>
      Extract(argv, text) == Exit(1, "", NOT_FOUND + Strip(argv[1]) + "\n")
    ensures Extract(argv, text).code != 1 ==>
      Extract(argv, text).code == 0 && Extract(argv, text).stderr == ""
  {
    assert Extract(argv, text) == Section(SplitLines(text), Strip(argv[1]));
    SectionFound(SplitLines(text), Strip(argv[1]));
  }

  lemma SectionFound(lines: seq<string>, version: string)
    ensures Section(lines, version).code == 1 <==>
      forall j :: 0 <= j < |lines| ==> !IsHeading(lines[j], version)
  {
    var h := HeadingIndex(lines, version);
    if h.Some? {
      assert IsHeading(lines[h.value], version);
    }
  }

  /** What a successful run writes: the first heading of the version, the
      section up to the next `## [` line or the end, less the blank lines
      around it, joined and right-stripped; it ends with exactly one `\n`,
      with no whitespace before it unless the section is empty. */
  lemma ExtractedSection(argv: seq<string>, text: string) returns (start: nat, end: nat, a: nat, b: nat)
    requires Extract(argv, text).code == 0
    ensures |argv| == 2 && Strip(argv[1]) != ""
    ensures var lines := SplitLines(text);
      SectionBounds(lines, Strip(argv[1]), start, end, a, b)
      && Extract(argv, text).stdout == RStrip(Join(lines[a..b], "\n")) + "\n"
    ensures EndsCleanly(Extract(argv, text).stdout)
  {
    ExtractFound(argv, text);
    start, end, a, b := SectionOutput(SplitLines(text), Strip(argv[1]));
  }

  /** The output ends with exactly one `\n`, with no whitespace before it
      unless that newline is all there is. */
  predicate EndsCleanly(out: string) {
    EndsWith(out, "\n") && (|out| == 1 || !PySpace(out[|out| - 2]))
  }

  /** A run that succeeds had a usable version and found its heading. */
  lemma ExtractFound(argv: seq<string>, text: string)
    requires Extract(argv, text).code == 0
    ensures |argv| == 2 && Strip(argv[1]) != ""
    ensures Extract(argv, text) == Section(SplitLines(text), Strip(argv[1]))
    ensures HeadingIndex(SplitLines(text), Strip(argv[1])).Some?
  {
  }

  /** The section of `version` runs from the heading at `start`, its first,
      to `end`, the next `## [` line or the end of the text; its lines
      `a..b` are what is left once the blank lines after the heading and at
      the end are dropped. */
  predicate SectionBounds(lines: seq<string>, version: string, start: nat, end: nat, a: nat, b: nat) {
    start < end <= |lines| && IsHeading(lines[start], version)
    && (forall j :: 0 <= j < start ==> !IsHeading(lines[j], version))
    && (forall j :: start < j < end ==> !StartsWith(lines[j], SECTION_PREFIX))
    && (end < |lines| ==> StartsWith(lines[end], SECTION_PREFIX))
    && start < a <= b <= end
    && (forall i :: start < i < a ==> Blank(lines[i]))
    && (forall i :: b <= i < end ==> Blank(lines[i]))
    && (a < b ==> !Blank(lines[a]) && !Blank(lines[b - 1]))
  }

  lemma SectionOutput(lines: seq<string>, version: string) returns (start: nat, end: nat, a: nat, b: nat)
    requires HeadingIndex(lines, version).Some?
    ensures SectionBounds(lines, version, start, end, a, b)
    ensures Section(lines, version).stdout == RStrip(Join(lines[a..b], "\n")) + "\n"
    ensures EndsCleanly(Section(lines, version).stdout)
  {
    start := HeadingIndex(lines, version).value;
    end := SectionEnd(lines, start);
    var t := Trimmed(lines, start + 1, end);
    a, b := t.0, t.1;
  }
}
