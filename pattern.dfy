/**
 * `glob_to_regex_ci` of src/pattern.rs (the same translation is copied in
 * src/commands/copy_tree.rs and src/commands/export.rs): a glob with `*` and
 * `?` becomes an anchored regex source, `*` as `.*`, `?` as `.`, the regex
 * metacharacters escaped and everything else copied. The regex engine itself
 * is a library; its compile step is a parameter and the meaning of the
 * produced pattern is stated as `Matches`, the glob read directly.
 */
module Pattern {
  import opened Wrappers
  import opened Strings

  /** The characters the translation escapes with a backslash. */
  predicate IsMeta(c: char) {
    c == '.' || c == '+' || c == '(' || c == ')' || c == '|' || c == '^'
    || c == '$' || c == '{' || c == '}' || c == '[' || c == ']' || c == '\\'
  }

  /** The regex text one glob character becomes. */
  function Escape(c: char): (r: string)
    ensures |r| >= 1 && r[0] != '*'
  {
    if c == '*' then ".*"
    else if c == '?' then "."
    else if IsMeta(c) then ['\\', c]
    else [c]
  }

  /** The translation of the glob characters, between the anchors. */
  function Body(glob: string): string
    decreases |glob|
  {
    if glob == [] then [] else Escape(glob[0]) + Body(glob[1..])
  }

  /** The regex source `glob_to_regex_ci` hands to the regex builder. */
  function Translate(glob: string): string {
    "^" + Body(glob) + "$"
  }

  lemma {:induction false} BodySnoc(glob: string, c: char)
    ensures Body(glob + [c]) == Body(glob) + Escape(c)
    decreases |glob|
  {
    if glob == [] {
      assert [c][1..] == [];
    } else {
      assert (glob + [c])[1..] == glob[1..] + [c];
      BodySnoc(glob[1..], c);
    }
  }

  /** The loop of `glob_to_regex_ci` that builds the regex source. */
  method GlobToRegexSource(glob: string) returns (re: string)
    ensures re == Translate(glob)
    ensures |re| >= 2 && re[0] == '^' && re[|re| - 1] == '$'
  {
    re := "^";
    var i := 0;
    while i < |glob|
      invariant 0 <= i <= |glob|
      invariant re == "^" + Body(glob[..i])
    {
      BodySnoc(glob[..i], glob[i]);
      assert glob[..i + 1] == glob[..i] + [glob[i]];
      assert re + Escape(glob[i]) == "^" + (Body(glob[..i]) + Escape(glob[i]));
      re := re + Escape(glob[i]);
      i := i + 1;
    }
    assert glob[..i] == glob;
    re := re + "$";
  }

  /** Reads a translated body back into the glob it came from: `.*` is `*`, a
      lone `.` is `?`, a backslash escapes a metacharacter. Text no glob
      translates to gives `None`. */
  function Untranslate(body: string): Option<string>
    decreases |body|
  {
    if body == [] then Some([])
    else if body[0] == '.' then
      if |body| >= 2 && body[1] == '*' then
        match Untranslate(body[2..]) case None => None case Some(g) => Some(['*'] + g)
      else
        match Untranslate(body[1..]) case None => None case Some(g) => Some(['?'] + g)
    else if body[0] == '\\' then
      if |body| >= 2 && IsMeta(body[1]) then
        match Untranslate(body[2..]) case None => None case Some(g) => Some([body[1]] + g)
      else None
    else if body[0] == '*' || body[0] == '?' || IsMeta(body[0]) then None
    else match Untranslate(body[1..]) case None => None case Some(g) => Some([body[0]] + g)
  }

  lemma BodyHead(glob: string)
    ensures Body(glob) == [] || Body(glob)[0] != '*'
  {
    if glob != [] {
      assert Body(glob)[0] == Escape(glob[0])[0];
    }
  }

  /** The translation loses nothing: the glob can be read back from the regex
      source, so two different globs never give the same regex. */
  lemma {:induction false} UntranslateBody(glob: string)
    ensures Untranslate(Body(glob)) == Some(glob)
    decreases |glob|
  {
    if glob != [] {
      var c, rest := glob[0], Body(glob[1..]);
      UntranslateBody(glob[1..]);
      BodyHead(glob[1..]);
      var b := Body(glob);
      assert b == Escape(c) + rest;
      if c == '*' {
        assert b[2..] == rest;
      } else if c == '?' {
        assert b[1..] == rest;
      } else if IsMeta(c) {
        assert b[2..] == rest;
      } else {
        assert b[1..] == rest;
      }
      assert [c] + glob[1..] == glob;
    }
  }

  lemma TranslateInjective(g1: string, g2: string)
    requires Translate(g1) == Translate(g2)
    ensures g1 == g2
  {
    var t := Translate(g1);
    assert Body(g1) == t[1..|t| - 1] == Body(g2);
    UntranslateBody(g1);
    UntranslateBody(g2);
  }

  /** A compiled case-insensitive pattern, kept as its source text. */
  datatype Regex = Regex(source: string)

  /** `glob_to_regex_ci`: `compile` is the regex builder, `None` when the
      source compiles and the builder's message otherwise. */
  function GlobToRegexCi(glob: string, compile: string -> Option<string>): (r: Result<Regex>)
    ensures r.Ok? <==> compile(Translate(glob)).None?
    ensures r.Ok? ==> r.value.source == Translate(glob)
    ensures r.Err? ==> r.error == "Invalid glob pattern: " + compile(Translate(glob)).value
  {
    match compile(Translate(glob))
    case None => Ok(Regex(Translate(glob)))
    case Some(e) => Err("Invalid glob pattern: " + e)
  }

  /** Case-insensitive equality of single characters (ASCII letters and KELVIN SIGN). */
  predicate SameLetter(a: char, b: char)
    ensures a == b ==> SameLetter(a, b)
    ensures IsAsciiUpper(a) && b as int == a as int + 32 ==> SameLetter(a, b)
  {
    LowerChar(a) == LowerChar(b)
  }

  /** What the anchored pattern matches: `*` any run and `?` any one character
      other than a newline (the regex `.` excludes `\n`), any other glob
      character itself up to case. */
  predicate Matches(glob: string, s: string)
    decreases |glob| + |s|
  {
    if glob == [] then s == []
    else if glob[0] == '*' then
      Matches(glob[1..], s) || (s != [] && s[0] != '\n' && Matches(glob, s[1..]))
    else if glob[0] == '?' then s != [] && s[0] != '\n' && Matches(glob[1..], s[1..])
    else s != [] && SameLetter(glob[0], s[0]) && Matches(glob[1..], s[1..])
  }

  /** `Regex::is_match` on a translated glob. */
  predicate IsMatch(re: Regex, s: string) {
    match Untranslate(if 2 <= |re.source| then re.source[1..|re.source| - 1] else "")
    case Some(glob) => Matches(glob, s)
    case None => false
  }

  lemma IsMatchGlob(glob: string, s: string)
    ensures IsMatch(Regex(Translate(glob)), s) <==> Matches(glob, s)
  {
    var t := Translate(glob);
    assert t[1..|t| - 1] == Body(glob);
    UntranslateBody(glob);
  }

  lemma {:induction false} StarMatchesAll(s: string)
    requires '\n' !in s
    ensures Matches("*", s)
    decreases |s|
  {
    if s != [] {
      assert s[0] in s;
      assert forall c :: c in s[1..] ==> c in s;
      StarMatchesAll(s[1..]);
    }
  }
}
