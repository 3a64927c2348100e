/**
 * `escape_cql_text`, defined identically in src/commands/search.rs and
 * src/commands/label.rs: three `str::replace` passes that double every
 * backslash, put a backslash before every double quote and turn newline,
 * carriage return and tab into a space. The escaped text is meant to sit
 * between double quotes in a CQL query; `ReadLiteral` reads such a quoted
 * string back, which is how the model states that the escaping keeps the
 * value inside its quotes.
 */
module Cql {
  import opened Wrappers

  /** `s.replace(c, r)` for a character pattern. */
  function Replace(s: string, c: char, r: string): string
    decreases |s|
  {
    if s == [] then [] else (if s[0] == c then r else [s[0]]) + Replace(s[1..], c, r)
  }

  lemma {:induction false} ReplaceAppend(a: string, b: string, c: char, r: string)
    ensures Replace(a + b, c, r) == Replace(a, c, r) + Replace(b, c, r)
    decreases |a|
  {
    if a == [] {
      assert a + b == b;
    } else {
      assert (a + b)[0] == a[0] && (a + b)[1..] == a[1..] + b;
      ReplaceAppend(a[1..], b, c, r);
      var h := if a[0] == c then r else [a[0]];
      assert h + (Replace(a[1..], c, r) + Replace(b, c, r)) == (h + Replace(a[1..], c, r)) + Replace(b, c, r);
    }
  }

  predicate IsLineBreakOrTab(c: char) { c == '\n' || c == '\r' || c == '\t' }

  /** `s.replace(['\n', '\r', '\t'], " ")` */
  function Blank(s: string): (r: string)
    ensures |r| == |s|
    ensures forall i :: 0 <= i < |s| ==> r[i] == (if IsLineBreakOrTab(s[i]) then ' ' else s[i])
    decreases |s|
  {
    if s == [] then [] else [if IsLineBreakOrTab(s[0]) then ' ' else s[0]] + Blank(s[1..])
  }

  lemma {:induction false} BlankAppend(a: string, b: string)
    ensures Blank(a + b) == Blank(a) + Blank(b)
  {
    var l, r := Blank(a + b), Blank(a) + Blank(b);
    assert |l| == |r|;
    forall i | 0 <= i < |l| ensures l[i] == r[i] {
      if i < |a| { assert (a + b)[i] == a[i]; } else { assert (a + b)[i] == b[i - |a|]; }
    }
  }

  /** `escape_cql_text` as written: the three passes in order. */
  function EscapeCqlText(value: string): string {
    Blank(Replace(Replace(value, '\\', "\\\\"), '"', "\\\""))
  }

  /** What one character of the input becomes. */
  function EscapeChar(c: char): string {
    if c == '\\' then "\\\\"
    else if c == '"' then "\\\""
    else if IsLineBreakOrTab(c) then " "
    else [c]
  }

  function EscapeEach(s: string): string
    decreases |s|
  {
    if s == [] then [] else EscapeChar(s[0]) + EscapeEach(s[1..])
  }

  /** The passes do not interfere: the backslashes the second pass adds are not
      doubled, and the escaping is character by character. */
  lemma {:induction false} EscapeCharwise(s: string)
    ensures EscapeCqlText(s) == EscapeEach(s)
    decreases |s|
  {
    if s != [] {
      var c, t := s[0], s[1..];
      EscapeCharwise(t);
      var p1 := Replace(t, '\\', "\\\\");
      var h1 := if c == '\\' then "\\\\" else [c];
      assert Replace(s, '\\', "\\\\") == h1 + p1;
      ReplaceAppend(h1, p1, '"', "\\\"");
      var h2 := Replace(h1, '"', "\\\"");
      if c == '\\' {
        assert h2 == "\\\\";
      } else {
        assert h2 == (if c == '"' then "\\\"" else [c]);
      }
      BlankAppend(h2, Replace(p1, '"', "\\\""));
      assert Blank(h2) == EscapeChar(c);
    }
  }

  /** Reads the body of a double-quoted CQL string up to its closing quote: a
      backslash takes the next character literally. Gives the value and the
      text after the closing quote, `None` when the quote is never closed. */
  function ReadLiteral(t: string): Option<(string, string)>
    decreases |t|
  {
    if t == [] then None
    else if t[0] == '"' then Some(([], t[1..]))
    else if t[0] == '\\' then
      if |t| < 2 then None
      else match ReadLiteral(t[2..])
        case None => None
        case Some((v, rest)) => Some(([t[1]] + v, rest))
    else match ReadLiteral(t[1..])
      case None => None
      case Some((v, rest)) => Some(([t[0]] + v, rest))
  }

  /** An escaped value put between quotes reads back as that value (with line
      breaks and tabs as spaces), and the quoted string ends exactly at the
      closing quote: nothing in the value can leak into the query text. */
  lemma {:induction false} EscapeReadsBack(s: string, rest: string)
    ensures ReadLiteral(EscapeCqlText(s) + "\"" + rest) == Some((Blank(s), rest))
    decreases |s|
  {
    EscapeCharwise(s);
    EachReadsBack(s, rest);
  }

  lemma {:induction false} EachReadsBack(s: string, rest: string)
    ensures ReadLiteral(EscapeEach(s) + "\"" + rest) == Some((Blank(s), rest))
    decreases |s|
  {
    if s == [] {
      assert EscapeEach(s) + "\"" + rest == "\"" + rest;
    } else {
      var c, t := s[0], s[1..];
      EachReadsBack(t, rest);
      var e := EscapeChar(c);
      var out := if IsLineBreakOrTab(c) then ' ' else c;
      assert EscapeEach(s) == e + EscapeEach(t);
      Reassoc(e, EscapeEach(t), "\"", rest);
      if c == '\\' {
        assert e == ['\\', out];
      } else if c == '"' {
        assert e == ['\\', out];
      } else {
        assert e == [out];
      }
      ReadStep(e, EscapeEach(t) + "\"" + rest, Blank(t), rest, out);
      assert Blank(s) == [out] + Blank(t);
    }
  }

  lemma Reassoc(a: string, b: string, q: string, r: string)
    ensures ((a + b) + q) + r == a + ((b + q) + r)
  {
  }

  /** Reading one escaped or plain character, then the rest of the literal. */
  lemma ReadStep(e: string, tail: string, v: string, rest: string, out: char)
    requires ReadLiteral(tail) == Some((v, rest))
    requires e == ['\\', out] || (e == [out] && out != '"' && out != '\\')
    ensures ReadLiteral(e + tail) == Some(([out] + v, rest))
  {
    if e == ['\\', out] {
      assert (e + tail)[2..] == tail;
    } else {
      assert (e + tail)[1..] == tail;
    }
  }
}
