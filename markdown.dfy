/**
 * The text transforms of src/markdown.rs that run around the HTML-to-Markdown
 * library: `parse_hex4` and `decode_unicode_escapes` (JSON-style `\uXXXX`
 * escapes, a surrogate pair decoded as in section 2.2 of RFC 2781),
 * `extract_filename`, and `postprocess_markdown` with its table helpers
 * `table_cells`, `separator_like_row` and `is_image_only_cell`. The small
 * regexes of these functions are stated as the predicates they match.
 */
module Markdown {
  import opened Wrappers
  import opened Strings

  // --------------------------------------------------------------- parse_hex4

  /** `char::to_digit(16)` */
  function HexDigit(c: char): Option<nat> {
    if '0' <= c <= '9' then Some(c as int - '0' as int)
    else if 'a' <= c <= 'f' then Some(c as int - 'a' as int + 10)
    else if 'A' <= c <= 'F' then Some(c as int - 'A' as int + 10)
    else None
  }

  predicate AllHex(s: seq<char>) {
    forall i :: 0 <= i < |s| ==> HexDigit(s[i]).Some?
  }

  /** The base-16 value of a string of hex digits. */
  function HexValue(s: seq<char>): nat
    requires AllHex(s)
  {
    if s == [] then 0
    else
      assert HexDigit(s[|s| - 1]).Some?;
      HexValue(s[..|s| - 1]) * 16 + HexDigit(s[|s| - 1]).value
  }

  lemma {:induction false} HexValueBound(s: seq<char>)
    requires AllHex(s)
    ensures HexValue(s) < Pow16(|s|)
  {
    if s != [] {
      HexValueBound(s[..|s| - 1]);
    }
  }

  function Pow16(n: nat): nat {
    if n == 0 then 1 else 16 * Pow16(n - 1)
  }

  lemma Pow16Small(k: nat)
    requires k < 4
    ensures Pow16(k) <= 0x1000
  {
    assert Pow16(0) == 1 && Pow16(1) == 16 && Pow16(2) == 256 && Pow16(3) == 0x1000;
  }

  /** The value of four hex digits, most significant first. */
  lemma HexValue4(s: seq<char>)
    requires |s| == 4 && AllHex(s)
    ensures HexValue(s) == ((HexDigit(s[0]).value * 16 + HexDigit(s[1]).value) * 16 + HexDigit(s[2]).value) * 16 + HexDigit(s[3]).value
  {
    assert s[..3][..2][..1][..0] == [];
    assert s[..3][..2][..1] == s[..1] && s[..3][..2] == s[..2];
    assert HexValue(s[..1]) == HexDigit(s[0]).value;
    assert HexValue(s[..2]) == HexDigit(s[0]).value * 16 + HexDigit(s[1]).value;
  }

  /** `parse_hex4`: exactly four hex digits, read as their value. */
  function Hex4(s: seq<char>): (r: Option<nat>)
    ensures r.Some? ==> r.value < 0x10000
  {
    if |s| == 4 && AllHex(s) then
      HexValueBound(s);
      Some(HexValue(s))
    else None
  }

  /** The loop of `parse_hex4`. The `u16` checks of the source never fail: four
      digits stay below 0x10000. */
  method ParseHex4(slice: seq<char>) returns (r: Option<nat>)
    ensures r == Hex4(slice)
  {
    if |slice| != 4 {
      return None;
    }
    var value := 0;
    for k := 0 to 4
      invariant AllHex(slice[..k]) && value == HexValue(slice[..k])
    {
      HexValueBound(slice[..k]);
      Pow16Small(k);
      var d := HexDigit(slice[k]);
      if d.None? {
        assert !AllHex(slice);
        return None;
      }
      assert value * 16 + d.value <= 0xFFFF;
      assert slice[..k + 1][..k] == slice[..k];
      value := value * 16 + d.value;
    }
    assert slice[..4] == slice;
    return Some(value);
  }

  /** The four upper-case hex digits of `n`. */
  function HexChar(d: nat): char
    requires d < 16
  {
    if d < 10 then ('0' as int + d) as char else ('A' as int + d - 10) as char
  }

  function Hex4Text(n: nat): (s: string)
    requires n < 0x10000
    ensures |s| == 4
  {
    var q1 := n / 16;
    var q2 := q1 / 16;
    [HexChar(q2 / 16), HexChar(q2 % 16), HexChar(q1 % 16), HexChar(n % 16)]
  }

  lemma HexCharDigit(d: nat)
    requires d < 16
    ensures HexDigit(HexChar(d)) == Some(d)
  {
  }

  /** `parse_hex4` reads back the digits `Hex4Text` writes. */
  lemma Hex4RoundTrip(n: nat)
    requires n < 0x10000
    ensures Hex4(Hex4Text(n)) == Some(n)
  {
    var s := Hex4Text(n);
    var q1 := n / 16;
    var q2 := q1 / 16;
    HexCharDigit(q2 / 16);
    HexCharDigit(q2 % 16);
    HexCharDigit(q1 % 16);
    HexCharDigit(n % 16);
    assert AllHex(s);
    HexValue4(s);
    assert (q2 / 16) * 16 + q2 % 16 == q2;
    assert q2 * 16 + q1 % 16 == q1;
    assert q1 * 16 + n % 16 == n;
  }

  // ---------------------------------------------------- decode_unicode_escapes

  predicate IsHighSurrogate(u: nat) { 0xD800 <= u <= 0xDBFF }

  predicate IsLowSurrogate(u: nat) { 0xDC00 <= u <= 0xDFFF }

  /** `char::from_u32` succeeds: a Unicode scalar value. */
  predicate IsScalar(u: nat) { u < 0xD800 || 0xE000 <= u <= 0x10FFFF }

  /** The code point of a surrogate pair: `0x10000 + ((hi - 0xD800) << 10 | (lo - 0xDC00))`;
      the low ten bits are below 1024, so the `|` is an addition. */
  function Combine(hi: nat, lo: nat): (u: nat)
    requires IsHighSurrogate(hi) && IsLowSurrogate(lo)
    ensures 0x10000 <= u <= 0x10FFFF && IsScalar(u)
  {
    0x10000 + (hi - 0xD800) * 1024 + (lo - 0xDC00)
  }

  /** The escape at the head of `s`, if it starts with one that decodes: the
      character and how many input characters it takes. A high surrogate
      followed by a low-surrogate escape takes twelve; any other scalar six. */
  function EscapeAt(s: seq<char>): (r: Option<(char, nat)>)
    ensures r.Some? ==> r.value.1 <= |s| && (r.value.1 == 6 || r.value.1 == 12)
  {
    if 5 < |s| && s[0] == '\\' && s[1] == 'u' && Hex4(s[2..6]).Some? then
      var code := Hex4(s[2..6]).value;
      if IsHighSurrogate(code) && 11 < |s| && s[6] == '\\' && s[7] == 'u'
         && Hex4(s[8..12]).Some? && IsLowSurrogate(Hex4(s[8..12]).value)
      then Some((Combine(code, Hex4(s[8..12]).value) as char, 12))
      else if IsScalar(code) then Some((code as char, 6))
      else None
    else None
  }

  /** `decode_unicode_escapes`: escapes that decode are replaced, everything
      else (bad hex, a lone surrogate, a truncated escape) is copied. */
  function Decode(s: seq<char>): (r: string)
    ensures |r| <= |s|
    decreases |s|
  {
    if s == [] then []
    else match EscapeAt(s)
      case Some((c, n)) => [c] + Decode(s[n..])
      case None => [s[0]] + Decode(s[1..])
  }

  /** The loop of `decode_unicode_escapes`, over the index `i`. */
  method DecodeUnicodeEscapes(input: string) returns (out: string)
    ensures out == Decode(input)
  {
    out := [];
    var i := 0;
    while i < |input|
      invariant 0 <= i <= |input|
      invariant out + Decode(input[i..]) == Decode(input)
    {
      var step := DecodeStep(input, i);
      match step
      case Some((c, n)) =>
        DecodedEscape(input, i, out, c, n);
        out := out + [c];
        i := i + n;
      case None =>
        DecodedLiteral(input, i, out);
        out := out + [input[i]];
        i := i + 1;
    }
    assert input[i..] == [];
  }

  /** The loop's invariant kept across an escape at index `i`. */
  lemma DecodedEscape(input: string, i: nat, out: string, c: char, n: nat)
    requires i < |input| && EscapeAt(input[i..]) == Some((c, n))
    requires out + Decode(input[i..]) == Decode(input)
    ensures i + n <= |input| && (out + [c]) + Decode(input[i + n..]) == Decode(input)
  {
    DecodeAtEscape(input[i..], c, n);
    assert input[i..][n..] == input[i + n..];
  }

  /** The loop's invariant kept across a copied character at index `i`. */
  lemma DecodedLiteral(input: string, i: nat, out: string)
    requires i < |input| && EscapeAt(input[i..]).None?
    requires out + Decode(input[i..]) == Decode(input)
    ensures (out + [input[i]]) + Decode(input[i + 1..]) == Decode(input)
  {
    DecodeAtLiteral(input[i..]);
    assert input[i..][1..] == input[i + 1..];
  }

  /** The body of the loop at index `i`, with the source's index checks. */
  method DecodeStep(chars: string, i: nat) returns (r: Option<(char, nat)>)
    requires i < |chars|
    ensures r == EscapeAt(chars[i..])
  {
    var rest := chars[i..];
    if chars[i] == '\\' && i + 5 < |chars| && chars[i + 1] == 'u' {
      assert rest[2..6] == chars[i + 2..i + 6];
      var code := ParseHex4(chars[i + 2..i + 6]);
      if code.Some? {
        if IsHighSurrogate(code.value) && i + 11 < |chars| && chars[i + 6] == '\\' && chars[i + 7] == 'u' {
          assert rest[8..12] == chars[i + 8..i + 12];
          var low := ParseHex4(chars[i + 8..i + 12]);
          if low.Some? && IsLowSurrogate(low.value) {
            return Some((Combine(code.value, low.value) as char, 12));
          }
        }
        if IsScalar(code.value) {
          return Some((code.value as char, 6));
        }
      }
    }
    return None;
  }

  /** A backslash followed by `u` at index `i`. */
  predicate EscapeStartAt(s: string, i: nat)
    requires i + 1 < |s|
  {
    s[i] == '\\' && s[i + 1] == 'u'
  }

  predicate NoEscapeStart(s: string) {
    forall i :: 0 <= i < |s| - 1 ==> !EscapeStartAt(s, i)
  }

  /** Text with no backslash followed by `u` is returned unchanged. */
  lemma {:induction false} DecodeWithoutEscapes(s: string)
    requires NoEscapeStart(s)
    ensures Decode(s) == s
    decreases |s|
  {
    if s != [] {
      assert EscapeAt(s).None? by {
        if 1 < |s| { assert !EscapeStartAt(s, 0); }
      }
      forall i | 0 <= i < |s[1..]| - 1 ensures !EscapeStartAt(s[1..], i) {
        assert !EscapeStartAt(s, i + 1);
      }
      DecodeWithoutEscapes(s[1..]);
      assert [s[0]] + s[1..] == s;
    }
  }

  /** The escape of one character: `\uXXXX` for the basic plane, a surrogate
      pair of escapes above it. */
  function EscapeChar(c: char): string {
    var u := c as int;
    if u < 0x10000 then "\\u" + Hex4Text(u)
    else
      var v := u - 0x10000;
      "\\u" + Hex4Text(0xD800 + v / 1024) + "\\u" + Hex4Text(0xDC00 + v % 1024)
  }

  function EscapeAll(s: string): string
    decreases |s|
  {
    if s == [] then [] else EscapeChar(s[0]) + EscapeAll(s[1..])
  }

  /** When an escape of a basic-plane scalar leads the text. */
  lemma EscapeAtSingle(s: string, code: nat)
    requires 5 < |s| && s[0] == '\\' && s[1] == 'u' && Hex4(s[2..6]) == Some(code)
    requires !IsHighSurrogate(code) && IsScalar(code)
    ensures EscapeAt(s) == Some((code as char, 6))
  {
  }

  /** When the escapes of a surrogate pair lead the text. */
  lemma EscapeAtPair(s: string, hi: nat, lo: nat)
    requires 11 < |s| && s[0] == '\\' && s[1] == 'u' && Hex4(s[2..6]) == Some(hi)
    requires s[6] == '\\' && s[7] == 'u' && Hex4(s[8..12]) == Some(lo)
    requires IsHighSurrogate(hi) && IsLowSurrogate(lo)
    ensures EscapeAt(s) == Some((Combine(hi, lo) as char, 12))
  {
  }

  lemma EscapeCharDecodes(c: char, rest: string)
    ensures EscapeAt(EscapeChar(c) + rest) == Some((c, |EscapeChar(c)|))
  {
    if c as int < 0x10000 {
      EscapeBmpDecodes(c, rest);
    } else {
      EscapePairDecodes(c, rest);
    }
  }

  /** A character below U+10000 is one escape. */
  lemma EscapeBmpDecodes(c: char, rest: string)
    requires c as int < 0x10000
    ensures EscapeAt(EscapeChar(c) + rest) == Some((c, 6))
  {
    var u := c as int;
    var t := EscapeChar(c) + rest;
    Hex4RoundTrip(u);
    assert t[2..6] == Hex4Text(u);
    EscapeAtSingle(t, u);
  }

  /** A character from U+10000 on is the escapes of its surrogate pair. */
  lemma EscapePairDecodes(c: char, rest: string)
    requires 0x10000 <= c as int
    ensures EscapeAt(EscapeChar(c) + rest) == Some((c, 12))
  {
    var u := c as int;
    var v := u - 0x10000;
    var hi, lo := 0xD800 + v / 1024, 0xDC00 + v % 1024;
    assert EscapeChar(c) == "\\u" + Hex4Text(hi) + "\\u" + Hex4Text(lo);
    assert Combine(hi, lo) == u;
    PairEscapeAt(hi, lo, rest);
  }

  /** The escapes of a surrogate pair, at the head of any text. */
  lemma PairEscapeAt(hi: nat, lo: nat, rest: string)
    requires IsHighSurrogate(hi) && IsLowSurrogate(lo)
    ensures EscapeAt("\\u" + Hex4Text(hi) + "\\u" + Hex4Text(lo) + rest) == Some((Combine(hi, lo) as char, 12))
  {
    var t := "\\u" + Hex4Text(hi) + "\\u" + Hex4Text(lo) + rest;
    Hex4RoundTrip(hi);
    Hex4RoundTrip(lo);
    assert t[2..6] == Hex4Text(hi);
    assert t[8..12] == Hex4Text(lo);
    assert t[6] == '\\' && t[7] == 'u';
    EscapeAtPair(t, hi, lo);
  }

  /** Every character written as escapes decodes back to itself, surrogate
      pairs included. */
  lemma {:induction false} DecodeEscapeAll(s: string)
    ensures Decode(EscapeAll(s)) == s
    decreases |s|
  {
    if s != [] {
      var e, rest := EscapeChar(s[0]), EscapeAll(s[1..]);
      assert EscapeAll(s) == e + rest;
      EscapeCharDecodes(s[0], rest);
      DecodeAtEscape(e + rest, s[0], |e|);
      assert (e + rest)[|e|..] == rest;
      DecodeEscapeAll(s[1..]);
      assert [s[0]] + s[1..] == s;
    }
  }

  /** One decoding step where no escape decodes. */
  lemma DecodeAtLiteral(t: string)
    requires t != [] && EscapeAt(t).None?
    ensures Decode(t) == [t[0]] + Decode(t[1..])
  {
  }

  /** One decoding step at an escape. */
  lemma DecodeAtEscape(t: string, c: char, n: nat)
    requires EscapeAt(t) == Some((c, n))
    ensures Decode(t) == [c] + Decode(t[n..])
  {
  }

  /** The source's test case: the escaped surrogate pair of U+1F5D3 becomes
      that one character, and text without escapes after it is kept. */
  lemma DecodesCalendarPair(rest: string)
    requires NoEscapeStart(rest)
    ensures Decode("\\uD83D\\uDDD3" + rest) == "\U{1F5D3}" + rest
  {
    var s := "\\uD83D\\uDDD3" + rest;
    assert s[2..6] == "D83D" && s[8..12] == "DDD3";
    HexValue4("D83D");
    HexValue4("DDD3");
    EscapeAtPair(s, 0xD83D, 0xDDD3);
    assert s[12..] == rest;
    DecodeWithoutEscapes(rest);
  }

  /** A surrogate escape that does not start a valid pair is copied literally,
      one character at a time. */
  lemma LoneSurrogateKept(s: string)
    requires 5 < |s| && s[0] == '\\' && s[1] == 'u' && Hex4(s[2..6]).Some?
    requires 0xD800 <= Hex4(s[2..6]).value <= 0xDFFF
    requires !(11 < |s| && s[6] == '\\' && s[7] == 'u' && Hex4(s[8..12]).Some? && IsLowSurrogate(Hex4(s[8..12]).value))
    ensures Decode(s) == "\\" + Decode(s[1..])
  {
  }

  /** A `\u` without four hex digits after it is copied literally. */
  lemma MalformedEscapeKept(s: string)
    requires 1 < |s| && s[0] == '\\' && s[1] == 'u'
    requires |s| < 6 || Hex4(s[2..6]).None?
    ensures Decode(s) == "\\" + Decode(s[1..])
  {
  }

  // --------------------------------------------------------- extract_filename

  /** `extract_filename`: the last `/`-separated piece of the text before the
      first `?`. */
  function ExtractFilename(value: string): (name: string)
    ensures '/' !in name && '?' !in name
  {
    var path := Split(value, '?')[0];
    var pieces := Split(path, '/');
    SplitPiecesLack(path, '/', '?');
    pieces[|pieces| - 1]
  }

  /** The query is dropped and the directory part too. */
  lemma ExtractFilenameOf(dir: string, name: string, query: string)
    requires '?' !in dir && '/' !in name && '?' !in name
    requires query == "" || query[0] == '?'
    ensures ExtractFilename(dir + "/" + name + query) == name
    ensures ExtractFilename(name + query) == name
  {
    BeforeQuery(dir + "/" + name, query);
    BeforeQuery(name, query);
    SplitLast(dir, '/', name);
  }

  lemma BeforeQuery(path: string, query: string)
    requires '?' !in path && (query == "" || query[0] == '?')
    ensures Split(path + query, '?')[0] == path
  {
    if query == "" {
      assert path + query == path;
    } else {
      IndexOfAfter(path + query, '?', path);
      assert (path + query)[..|path|] == path;
    }
  }

  // -------------------------------------------------------------- table rows

  /** A row without its surrounding whitespace and every leading and trailing
      `|`: `line.trim().trim_matches('|')`. */
  function RowInner(line: string): string {
    TrimChar(Trim(line), '|')
  }

  /** Every piece trimmed. */
  function TrimEach(pieces: seq<string>): (r: seq<string>)
    ensures |r| == |pieces| && forall i :: 0 <= i < |r| ==> r[i] == Trim(pieces[i])
  {
    if pieces == [] then [] else [Trim(pieces[0])] + TrimEach(pieces[1..])
  }

  /** `table_cells`: the trimmed `|`-separated cells of a row. */
  function TableCells(line: string): seq<string> {
    TrimEach(Split(RowInner(line), '|'))
  }

  /** The text without one leading `c`, if it has one. */
  function StripLead(s: string, c: char): (r: string)
    ensures if |s| > 0 && s[0] == c then r == s[1..] else r == s
  {
    if |s| > 0 && s[0] == c then s[1..] else s
  }

  /** The text without one trailing `c`, if it has one. */
  function StripTrail(s: string, c: char): (r: string)
    ensures if |s| > 0 && s[|s| - 1] == c then r == s[..|s| - 1] else r == s
  {
    if |s| > 0 && s[|s| - 1] == c then s[..|s| - 1] else s
  }

  predicate AllDash(m: string) {
    forall i :: 0 <= i < |m| ==> m[i] == '-'
  }

  /** `^:?-{3,}:?$`: an optional colon, three or more dashes, an optional colon. */
  predicate SepCell(cell: string) {
    var m := StripTrail(StripLead(cell, ':'), ':');
    |m| >= 3 && AllDash(m)
  }

  function Colon(present: bool): string {
    if present then ":" else ""
  }

  lemma {:induction false} AllDashRepeat(m: string)
    ensures AllDash(m) <==> m == Repeat("-", |m|)
    decreases |m|
  {
    if m != [] {
      AllDashRepeat(m[1..]);
      assert Repeat("-", |m|) == "-" + Repeat("-", |m| - 1);
      if AllDash(m) {
        assert AllDash(m[1..]) by {
          forall i | 0 <= i < |m[1..]| ensures m[1..][i] == '-' {
            assert m[1..][i] == m[i + 1];
          }
        }
        assert m == [m[0]] + m[1..];
      }
    }
  }

  /** A separator cell is colon, dashes, colon. */
  lemma SepCellParts(cell: string) returns (lead: bool, dashes: nat, trail: bool)
    requires SepCell(cell)
    ensures dashes >= 3 && cell == Colon(lead) + Repeat("-", dashes) + Colon(trail)
  {
    lead := |cell| > 0 && cell[0] == ':';
    var a := StripLead(cell, ':');
    trail := |a| > 0 && a[|a| - 1] == ':';
    var m := StripTrail(a, ':');
    LeadColon(cell, lead, a);
    TrailColon(a, trail, m);
    AllDashRepeat(m);
    dashes := |m|;
    ColonsAround(cell, Colon(lead), a, m, Colon(trail));
  }

  lemma LeadColon(cell: string, lead: bool, a: string)
    requires lead == (|cell| > 0 && cell[0] == ':') && a == StripLead(cell, ':')
    ensures cell == Colon(lead) + a
  {
    if lead {
      assert cell == [cell[0]] + cell[1..];
    }
  }

  lemma TrailColon(a: string, trail: bool, m: string)
    requires trail == (|a| > 0 && a[|a| - 1] == ':') && m == StripTrail(a, ':')
    ensures a == m + Colon(trail)
  {
    if trail {
      assert a == a[..|a| - 1] + [a[|a| - 1]];
    }
  }

  lemma ColonsAround(cell: string, l: string, a: string, m: string, t: string)
    requires cell == l + a && a == m + t
    ensures cell == l + m + t
  {
  }

  /** The optional colons come off a middle that neither starts nor ends
      with a colon. */
  lemma ColonsOff(lead: bool, m: string, trail: bool)
    requires m != [] && m[0] != ':' && m[|m| - 1] != ':'
    ensures StripTrail(StripLead(Colon(lead) + m + Colon(trail), ':'), ':') == m
  {
    var a := m + Colon(trail);
    assert Colon(lead) + m + Colon(trail) == Colon(lead) + a;
    if lead {
      assert (":" + a)[1..] == a;
    } else {
      assert "" + a == a;
    }
    if trail {
      assert (m + ":")[..|m|] == m;
    } else {
      assert m + "" == m;
    }
  }

  /** Colon, three or more dashes, colon is a separator cell. */
  lemma SepCellOf(lead: bool, dashes: nat, trail: bool)
    requires dashes >= 3
    ensures SepCell(Colon(lead) + Repeat("-", dashes) + Colon(trail))
  {
    var d := Repeat("-", dashes);
    assert |d| == dashes;
    AllDashRepeat(d);
    assert d[0] == '-' && d[|d| - 1] == '-';
    ColonsOff(lead, d, trail);
  }

  /** The predicate is the regex: colon, dashes, colon. */
  lemma SepCellIff(cell: string)
    ensures SepCell(cell) <==>
      exists lead: bool, dashes: nat, trail: bool :: dashes >= 3 && cell == Colon(lead) + Repeat("-", dashes) + Colon(trail)
  {
    if SepCell(cell) {
      var lead, dashes, trail := SepCellParts(cell);
    }
    forall lead: bool, dashes: nat, trail: bool | dashes >= 3 && cell == Colon(lead) + Repeat("-", dashes) + Colon(trail)
      ensures SepCell(cell)
    {
      SepCellOf(lead, dashes, trail);
    }
  }

  /** `^!\[[^\]]*\]\([^)]*\)$`: `![alt](url)` with no `]` in the alt text and no
      `)` in the url. */
  predicate ImageText(c: string) {
    2 <= |c| && c[0] == '!' && c[1] == '[' &&
    match IndexOf(c[2..], ']')
    case None => false
    case Some(j) => ImageTarget(c[3 + j..])
  }

  /** `\([^)]*\)` */
  predicate ImageTarget(rest: string) {
    2 <= |rest| && rest[0] == '(' && rest[|rest| - 1] == ')' && ')' !in rest[1..|rest| - 1]
  }

  /** Every image text is `![alt](url)`. */
  lemma ImageTextParts(c: string) returns (alt: string, url: string)
    requires ImageText(c)
    ensures ']' !in alt && ')' !in url && c == "![" + alt + "](" + url + ")"
  {
    var j := IndexOf(c[2..], ']').value;
    alt := c[2..2 + j];
    var rest := c[3 + j..];
    AltBeforeBracket(c, j);
    url := ImageTargetParts(rest);
    BracketedAt(c, j, alt, rest);
    ImageConcat(alt, url, rest);
  }

  /** The first `]` after `![` closes the alternative text. */
  lemma AltBeforeBracket(c: string, j: nat)
    requires 2 <= |c| && IndexOf(c[2..], ']') == Some(j)
    ensures 3 + j <= |c| && c[2 + j] == ']' && ']' !in c[2..2 + j]
  {
    assert c[2..][..j] == c[2..2 + j];
    assert c[2 + j] == c[2..][j];
  }

  /** `\([^)]*\)` is a URL in parentheses. */
  lemma ImageTargetParts(rest: string) returns (url: string)
    requires ImageTarget(rest)
    ensures ')' !in url && rest == "(" + url + ")"
  {
    url := rest[1..|rest| - 1];
    assert rest == [rest[0]] + url + [rest[|rest| - 1]];
  }

  lemma ImageConcat(alt: string, url: string, rest: string)
    requires rest == "(" + url + ")"
    ensures "![" + alt + "]" + rest == "![" + alt + "](" + url + ")"
  {
  }

  lemma BracketedAt(c: string, j: nat, alt: string, rest: string)
    requires 3 + j <= |c| && c[0] == '!' && c[1] == '[' && c[2 + j] == ']'
    requires alt == c[2..2 + j] && rest == c[3 + j..]
    ensures c == "![" + alt + "]" + rest
  {
    assert c == c[..2] + c[2..2 + j] + [c[2 + j]] + c[3 + j..];
  }

  /** `![alt](url)` is image text. */
  lemma ImageTextOf(alt: string, url: string)
    requires ']' !in alt && ')' !in url
    ensures ImageText("![" + alt + "](" + url + ")")
  {
    var c := "![" + alt + "](" + url + ")";
    var t := alt + "](" + url + ")";
    assert c[2..] == t;
    IndexOfAfter(t, ']', alt);
    assert t[..|alt|] == alt;
    var rest := c[3 + |alt|..];
    assert rest == "(" + url + ")";
    assert rest[1..|rest| - 1] == url;
  }

  /** The predicate is the regex. */
  lemma ImageTextIff(c: string)
    ensures ImageText(c) <==> exists alt, url :: ']' !in alt && ')' !in url && c == "![" + alt + "](" + url + ")"
  {
    if ImageText(c) {
      var alt, url := ImageTextParts(c);
    }
    forall alt, url | ']' !in alt && ')' !in url && c == "![" + alt + "](" + url + ")"
      ensures ImageText(c)
    {
      ImageTextOf(alt, url);
    }
  }

  /** `is_image_only_cell` */
  predicate IsImageOnlyCell(cell: string) {
    ImageText(Trim(cell))
  }

  /** `separator_like_row`: every cell empty or a separator cell. A row always
      has a cell, so the emptiness guard of the source never applies. */
  predicate SeparatorLikeRow(line: string) {
    var cells := TableCells(line);
    |cells| > 0 && forall i :: 0 <= i < |cells| ==> cells[i] == "" || SepCell(cells[i])
  }

  /** The pieces the separator regex sees: the trimmed row without one `|` at
      each end, split on `|`. */
  function SepRowPieces(line: string): seq<string> {
    Split(StripTrail(StripLead(Trim(line), '|'), '|'), '|')
  }

  /** `^\s*\|?\s*:?-{3,}:?\s*(\|\s*:?-{3,}:?\s*)+\|?\s*$`: at least two separator
      cells between `|`s, with at most one `|` at each end. */
  predicate TableSepRow(line: string) {
    var pieces := SepRowPieces(line);
    |pieces| >= 2 && forall i :: 0 <= i < |pieces| ==> SepCell(Trim(pieces[i]))
  }

  lemma TrimEmpty()
    ensures Trim("") == ""
  {
  }

  /** Stripping one leading `|` strips them all when no second one follows. */
  lemma StripOneLead(t: string)
    requires var a := StripLead(t, '|'); a != [] && a[0] != '|'
    ensures TrimStartChar(t, '|') == StripLead(t, '|')
  {
    if t[0] == '|' {
      TrimStartCharAt(t, '|', 1);
    } else {
      TrimStartCharAt(t, '|', 0);
    }
  }

  /** Stripping one trailing `|` strips them all when no second one precedes it. */
  lemma StripOneTrail(a: string)
    requires var b := StripTrail(a, '|'); b != [] && b[|b| - 1] != '|'
    ensures TrimEndChar(a, '|') == StripTrail(a, '|')
  {
    if a[|a| - 1] == '|' {
      TrimEndCharAt(a, '|', |a| - 1);
    } else {
      TrimEndCharAt(a, '|', |a|);
    }
  }

  /** When the first and last pieces of the inner text are not empty, stripping
      one `|` at each end is the same as stripping them all. */
  lemma StripOnePipe(t: string)
    requires var b := StripTrail(StripLead(t, '|'), '|'); b != [] && b[0] != '|' && b[|b| - 1] != '|'
    ensures TrimChar(t, '|') == StripTrail(StripLead(t, '|'), '|')
  {
    var a := StripLead(t, '|');
    assert a[0] == StripTrail(a, '|')[0];
    StripOneLead(t);
    StripOneTrail(a);
  }

  /** A row the separator regex accepts is also separator-like, with at least
      two cells. */
  lemma TableSepRowIsSeparatorLike(line: string)
    requires TableSepRow(line)
    ensures SeparatorLikeRow(line) && |TableCells(line)| >= 2
  {
    var b := StripTrail(StripLead(Trim(line), '|'), '|');
    var pieces := Split(b, '|');
    var first, last := pieces[0], pieces[|pieces| - 1];
    TrimEmpty();
    assert first != "" && last != "" by {
      assert SepCell(Trim(first)) && SepCell(Trim(last));
    }
    JoinSplit(b, '|');
    JoinEnds(pieces, "|");
    assert b[0] == first[0] && b[|b| - 1] == last[|last| - 1];
    StripOnePipe(Trim(line));
    assert RowInner(line) == b;
    var cells := TableCells(line);
    assert cells == TrimEach(pieces);
    forall i | 0 <= i < |cells| ensures SepCell(cells[i]) {
      assert cells[i] == Trim(pieces[i]);
    }
  }

  // ------------------------------------------------------ the separator row

  function Copies(s: string, n: nat): (r: seq<string>)
    ensures |r| == n && forall i :: 0 <= i < n ==> r[i] == s
  {
    seq(n, i => s)
  }

  /** `format!("|{}|", vec![" --- "; columns].join("|"))` */
  function SeparatorRow(columns: nat): string {
    "|" + Join(Copies(" --- ", columns), "|") + "|"
  }

  lemma SeparatorRowTwo()
    ensures SeparatorRow(2) == "| --- | --- |"
  {
    assert Copies(" --- ", 2) == [" --- ", " --- "];
  }

  lemma TrimSepPiece()
    ensures Trim(" --- ") == "---" && SepCell("---")
  {
    TrimDashPiece();
    DashCell();
  }

  lemma TrimDashPiece()
    ensures Trim(" --- ") == "---"
  {
    assert TrimStart(" --- ") == "--- ";
    assert TrimEnd("--- ") == "---";
  }

  lemma DashCell()
    ensures SepCell("---")
  {
    SepCellOf(false, 3, false);
    assert Colon(false) + Repeat("-", 3) + Colon(false) == "---";
  }

  /** What lies between the outer pipes of the generated row. */
  lemma SeparatorRowInner(n: nat)
    requires n >= 1
    ensures Trim(SeparatorRow(n)) == SeparatorRow(n)
    ensures StripTrail(StripLead(SeparatorRow(n), '|'), '|') == Join(Copies(" --- ", n), "|")
    ensures RowInner(SeparatorRow(n)) == Join(Copies(" --- ", n), "|")
  {
    var parts := Copies(" --- ", n);
    var j := Join(parts, "|");
    var s := SeparatorRow(n);
    JoinEnds(parts, "|");
    assert j[0] == ' ' && j[|j| - 1] == ' ';
    TrimNoEdges(s);
    assert StripLead(s, '|') == j + "|";
    assert (j + "|")[..|j|] == j;
    StripOnePipe(s);
  }

  lemma TrimEachCopies(p: string, q: string, n: nat)
    requires Trim(p) == q
    ensures TrimEach(Copies(p, n)) == Copies(q, n)
  {
  }

  /** The generated row has one `---` cell per column. */
  lemma SeparatorRowCells(n: nat)
    requires n >= 1
    ensures TableCells(SeparatorRow(n)) == Copies("---", n)
  {
    SeparatorRowInner(n);
    TrimSepPiece();
    PieceHasNoPipe();
    CellsOfCopies(SeparatorRow(n), " --- ", "---", n);
  }

  lemma PieceHasNoPipe()
    ensures '|' !in " --- "
  {
  }

  /** A row whose inner text is `n` pipe-free copies of `p` joined by `|` has
      `n` cells, each the trimmed `p`. */
  lemma CellsOfCopies(line: string, p: string, q: string, n: nat)
    requires n >= 1 && '|' !in p && Trim(p) == q
    requires RowInner(line) == Join(Copies(p, n), "|")
    ensures TableCells(line) == Copies(q, n)
  {
    assert "|" == ['|'];
    SplitJoin(Copies(p, n), '|');
    TrimEachCopies(p, q, n);
  }

  /** The generated row is separator-like. */
  lemma SeparatorRowIsSeparatorLike(n: nat)
    requires n >= 1
    ensures SeparatorLikeRow(SeparatorRow(n))
  {
    SeparatorRowCells(n);
    DashCell();
    CopiesSeparatorLike(SeparatorRow(n), "---", n);
  }

  lemma CopiesSeparatorLike(line: string, cell: string, n: nat)
    requires n >= 1 && TableCells(line) == Copies(cell, n) && SepCell(cell)
    ensures SeparatorLikeRow(line)
  {
    AllSepCells(TableCells(line), cell);
  }

  lemma AllSepCells(cells: seq<string>, cell: string)
    requires |cells| > 0 && SepCell(cell) && forall i :: 0 <= i < |cells| ==> cells[i] == cell
    ensures forall i :: 0 <= i < |cells| ==> cells[i] == "" || SepCell(cells[i])
  {
  }

  /** Every copy of a piece whose trim is a separator cell passes the regex's
      cell test. */
  lemma CopiesSepCells(p: string, n: nat)
    requires SepCell(Trim(p))
    ensures forall i :: 0 <= i < n ==> SepCell(Trim(Copies(p, n)[i]))
  {
  }

  /** The separator regex accepts the generated row exactly when it has two
      columns or more. */
  lemma SeparatorRowMatchesRegex(n: nat)
    requires n >= 1
    ensures TableSepRow(SeparatorRow(n)) <==> n >= 2
  {
    SeparatorRowPieces(n);
    TrimSepPiece();
    CopiesSepCells(" --- ", n);
    SepCellPiecesDecide(SeparatorRow(n), Copies(" --- ", n));
  }

  /** The regex splits the generated row into its `n` copies of ` --- `. */
  lemma SeparatorRowPieces(n: nat)
    requires n >= 1
    ensures SepRowPieces(SeparatorRow(n)) == Copies(" --- ", n)
  {
    var parts := Copies(" --- ", n);
    SeparatorRowInner(n);
    PiecesOfInner(SeparatorRow(n), Join(parts, "|"));
    PieceHasNoPipe();
    PipeSplitJoin(parts);
  }

  lemma PiecesOfInner(line: string, inner: string)
    requires Trim(line) == line && StripTrail(StripLead(line, '|'), '|') == inner
    ensures SepRowPieces(line) == Split(inner, '|')
  {
  }

  lemma PipeSplitJoin(parts: seq<string>)
    requires |parts| >= 1 && forall i :: 0 <= i < |parts| ==> '|' !in parts[i]
    ensures Split(Join(parts, "|"), '|') == parts
  {
    assert "|" == ['|'];
    SplitJoin(parts, '|');
  }

  /** When every piece is a separator cell, the regex holds exactly when there
      are two pieces or more. */
  lemma SepCellPiecesDecide(line: string, pieces: seq<string>)
    requires SepRowPieces(line) == pieces
    requires forall i :: 0 <= i < |pieces| ==> SepCell(Trim(pieces[i]))
    ensures TableSepRow(line) <==> |pieces| >= 2
  {
  }

  // --------------------------------------------------- postprocess_markdown

  /** One trailing carriage return removed. */
  function StripCR(line: string): string {
    StripTrail(line, '\r')
  }

  function StripCRs(lines: seq<string>): (r: seq<string>)
    ensures |r| == |lines| && forall i :: 0 <= i < |r| ==> r[i] == StripCR(lines[i])
  {
    if lines == [] then [] else [StripCR(lines[0])] + StripCRs(lines[1..])
  }

  /** `str::lines`: the pieces between `\n`s, each that ended with `\n` without
      a `\r` before it, and no empty piece after a final `\n`. */
  function Lines(s: string): seq<string> {
    var pieces := Split(s, '\n');
    var last := pieces[|pieces| - 1];
    StripCRs(pieces[..|pieces| - 1]) + (if last == "" then [] else [last])
  }

  /** Pieces without a carriage return lose nothing to `StripCRs`. */
  lemma StripCRsLack(lines: seq<string>)
    requires forall i :: 0 <= i < |lines| ==> '\r' !in lines[i]
    ensures StripCRs(lines) == lines
  {
    forall i | 0 <= i < |lines| ensures StripCR(lines[i]) == lines[i] {
      assert |lines[i]| > 0 ==> lines[i][|lines[i]| - 1] in lines[i];
    }
  }

  /** Without carriage returns, the lines are the `\n`-separated pieces, less
      an empty last one. */
  lemma LinesOfPieces(s: string)
    requires '\r' !in s
    ensures var pieces := Split(s, '\n'); var last := pieces[|pieces| - 1];
      Lines(s) == pieces[..|pieces| - 1] + (if last == "" then [] else [last])
  {
    var pieces := Split(s, '\n');
    SplitPiecesLack(s, '\n', '\r');
    StripCRsLack(pieces[..|pieces| - 1]);
  }

  /** Without carriage returns, joining the lines gives the text back, less a
      final newline. */
  lemma LinesJoin(s: string)
    requires '\r' !in s
    ensures Join(Lines(s), "\n") + (if EndsWith(s, "\n") then "\n" else "") == s
  {
    var pieces := Split(s, '\n');
    LinesOfPieces(s);
    JoinSplit(s, '\n');
    assert ['\n'] == "\n";
    InitLast(pieces);
    LinesJoinPieces(s, pieces[..|pieces| - 1], pieces[|pieces| - 1], Lines(s));
  }

  lemma LinesJoinPieces(s: string, body: seq<string>, last: string, lines: seq<string>)
    requires '\n' !in last && Join(body + [last], "\n") == s
    requires lines == body + (if last == "" then [] else [last])
    ensures Join(lines, "\n") + (if EndsWith(s, "\n") then "\n" else "") == s
  {
    if body == [] {
      assert body + [last] == [last];
      LinesJoinSingle(s, last, lines);
    } else {
      LinesJoinMany(s, body, last);
    }
  }

  lemma LinesJoinSingle(s: string, last: string, lines: seq<string>)
    requires '\n' !in last && Join([last], "\n") == s
    requires lines == [] + (if last == "" then [] else [last])
    ensures Join(lines, "\n") + (if EndsWith(s, "\n") then "\n" else "") == s
  {
    assert s == last;
    assert lines == (if s == "" then [] else [s]);
    LinesJoinOne(s);
  }

  lemma LinesJoinOne(s: string)
    requires '\n' !in s
    ensures Join(if s == "" then [] else [s], "\n") + (if EndsWith(s, "\n") then "\n" else "") == s
  {
    if s != "" {
      assert s[|s| - 1] in s;
    }
  }

  lemma LinesJoinMany(s: string, body: seq<string>, last: string)
    requires |body| >= 1 && '\n' !in last && s == Join(body + [last], "\n")
    ensures Join(body + (if last == "" then [] else [last]), "\n") + (if EndsWith(s, "\n") then "\n" else "") == s
  {
    JoinSnoc(body, "\n", last);
    if last == "" {
      assert body + [] == body;
      assert s[|s| - 1..] == "\n";
    } else {
      assert s[|s| - 1] == last[|last| - 1];
      assert last[|last| - 1] in last;
    }
  }

  /** The regex `^\s*(?:[-*+]|\d+\.)\s*$`: a line that is only a bullet or a
      number followed by a dot. */
  predicate EmptyListItem(line: string)
    ensures EmptyListItem(line) ==> !IsTableLine(line)
  {
    IsTableLineTrim(line);
    var t := Trim(line);
    t == "-" || t == "*" || t == "+" || (|t| >= 2 && t[|t| - 1] == '.' && AllDigits(t[..|t| - 1]))
  }

  /** The lines for which `drop` does not hold, in order. */
  function DropWhere(lines: seq<string>, drop: string -> bool): seq<string> {
    if lines == [] then []
    else
      var init, last := lines[..|lines| - 1], lines[|lines| - 1];
      DropWhere(init, drop) + (if drop(last) then [] else [last])
  }

  /** Dropping keeps only lines of the input, none for which `drop` holds, and
      every other line. */
  lemma {:induction false} DropWhereFilters(lines: seq<string>, drop: string -> bool)
    ensures var r := DropWhere(lines, drop);
      (forall i :: 0 <= i < |r| ==> r[i] in lines && !drop(r[i]))
      && (forall i :: 0 <= i < |lines| && !drop(lines[i]) ==> lines[i] in r)
    decreases |lines|
  {
    if lines != [] {
      var init, last := lines[..|lines| - 1], lines[|lines| - 1];
      assert lines == init + [last];
      DropWhereFilters(init, drop);
    }
  }

  /** The first loop of `postprocess_markdown`: empty list items are dropped
      unless they are to be kept. */
  function KeepLines(lines: seq<string>, keepEmptyListItems: bool): seq<string> {
    if keepEmptyListItems then lines else DropWhere(lines, EmptyListItem)
  }

  /** Filtering keeps only lines of the input in their order, drops every empty
      list item when asked to, keeps every other line, and changes nothing
      when empty items are kept. */
  lemma KeepLinesFilters(lines: seq<string>, keepEmptyListItems: bool)
    ensures var r := KeepLines(lines, keepEmptyListItems);
      (keepEmptyListItems ==> r == lines)
      && (forall i :: 0 <= i < |r| ==> r[i] in lines)
      && (!keepEmptyListItems ==> forall i :: 0 <= i < |r| ==> !EmptyListItem(r[i]))
      && (forall i :: 0 <= i < |lines| && !EmptyListItem(lines[i]) ==> lines[i] in r)
  {
    if !keepEmptyListItems {
      DropWhereFilters(lines, EmptyListItem);
    }
  }

  /** The first character that is not whitespace. */
  function FirstNonSpace(line: string): Option<char>
    decreases |line|
  {
    if line == [] then None
    else if IsWhitespace(line[0]) then FirstNonSpace(line[1..])
    else Some(line[0])
  }

  /** `line.trim().starts_with('|')` */
  predicate IsTableLine(line: string) {
    FirstNonSpace(line) == Some('|')
  }

  /** After trimming, a table line starts with `|`. */
  lemma {:induction false} IsTableLineTrim(line: string)
    ensures IsTableLine(line) <==> (|Trim(line)| > 0 && Trim(line)[0] == '|')
    decreases |line|
  {
    if line != [] && IsWhitespace(line[0]) {
      IsTableLineTrim(line[1..]);
      assert TrimStart(line) == TrimStart(line[1..]);
    } else if line != [] {
      assert TrimStart(line) == line;
      var t := TrimEnd(line);
      assert t != [] && t[0] == line[0];
    }
  }

  /** The length of the run of table lines at the head of `lines`. */
  function TableRun(lines: seq<string>): (n: nat)
    ensures n <= |lines|
    ensures forall i :: 0 <= i < n ==> IsTableLine(lines[i])
    ensures n < |lines| ==> !IsTableLine(lines[n])
  {
    if lines == [] || !IsTableLine(lines[0]) then 0 else 1 + TableRun(lines[1..])
  }

  /** The rows the separator regex does not match, in order. */
  function DataRows(block: seq<string>): (r: seq<string>)
    ensures forall i :: 0 <= i < |r| ==> r[i] in block && !TableSepRow(r[i])
  {
    if block == [] then []
    else (if TableSepRow(block[0]) then [] else [block[0]]) + DataRows(block[1..])
  }

  /** The cell of a row that is one image-only cell. */
  function ImageCell(row: string): (r: Option<string>)
    ensures r.Some? ==> TableCells(row) == [r.value] && ImageText(r.value)
  {
    var cells := TableCells(row);
    if |cells| == 1 && IsImageOnlyCell(cells[0]) then
      TrimEachTrimmed(Split(RowInner(row), '|'), 0);
      assert cells == [cells[0]];
      Some(cells[0])
    else None
  }

  lemma TrimEachTrimmed(pieces: seq<string>, i: nat)
    requires i < |pieces|
    ensures Trim(TrimEach(pieces)[i]) == TrimEach(pieces)[i]
  {
    TrimIdempotent(pieces[i]);
  }

  /** What one block of table lines becomes. */
  function RenderBlock(block: seq<string>): (r: seq<string>)
    ensures r == [] <==> block == []
  {
    if block == [] then []
    else if |block| == 2 && SeparatorLikeRow(block[1]) && ImageCell(block[0]).Some? then [ImageCell(block[0]).value]
    else if |DataRows(block)| == 1 && ImageCell(DataRows(block)[0]).Some? then [ImageCell(DataRows(block)[0]).value]
    else if |block| < 2 || !TableSepRow(block[1]) then
      // `split` gives at least one piece, so `.max(1)` changes nothing
      [block[0], SeparatorRow(|Split(RowInner(block[0]), '|')|)]
        + (if |block| > 1 && SeparatorLikeRow(block[1]) then block[2..] else block[1..])
    else block
  }

  /** The second loop of `postprocess_markdown`, for a given way of rendering
      a block: each maximal run of table lines is rendered as a block, other
      lines are copied. */
  function RenderWith(lines: seq<string>, renderBlock: seq<string> -> seq<string>): seq<string>
    decreases |lines|
  {
    if lines == [] then []
    else if IsTableLine(lines[0]) then
      var n := TableRun(lines);
      renderBlock(lines[..n]) + RenderWith(lines[n..], renderBlock)
    else [lines[0]] + RenderWith(lines[1..], renderBlock)
  }

  /** `postprocess_markdown` */
  function Postprocess(markdown: string, keepEmptyListItems: bool): string {
    Join(RenderWith(KeepLines(Lines(markdown), keepEmptyListItems), RenderBlock), "\n")
  }

  /** The first loop of `postprocess_markdown`. */
  method FilterLines(source: seq<string>, keepEmptyListItems: bool) returns (lines: seq<string>)
    ensures lines == KeepLines(source, keepEmptyListItems)
  {
    lines := [];
    for k := 0 to |source|
      invariant lines == KeepLines(source[..k], keepEmptyListItems)
    {
      assert source[..k + 1][..k] == source[..k];
      if keepEmptyListItems || !EmptyListItem(source[k]) {
        lines := lines + [source[k]];
      }
    }
    assert source[..|source|] == source;
  }

  /** The inner loop of `postprocess_markdown`: the table lines from `start`. */
  method CollectBlock(lines: seq<string>, start: nat) returns (block: seq<string>, next: nat)
    requires start <= |lines|
    ensures next == start + TableRun(lines[start..]) && block == lines[start..next]
  {
    block := [];
    next := start;
    while next < |lines| && IsTableLine(lines[next])
      invariant start <= next <= |lines|
      invariant block == lines[start..next]
      invariant TableRun(lines[start..]) == next - start + TableRun(lines[next..])
    {
      assert lines[next..][1..] == lines[next + 1..];
      block := block + [lines[next]];
      next := next + 1;
    }
    assert next < |lines| ==> lines[next..][0] == lines[next];
  }

  /** Rendering at a table line consumes the block there. */
  lemma RenderAtTable(lines: seq<string>, idx: nat, renderBlock: seq<string> -> seq<string>)
    requires idx < |lines| && IsTableLine(lines[idx])
    ensures var n := TableRun(lines[idx..]);
      RenderWith(lines[idx..], renderBlock) == renderBlock(lines[idx..idx + n]) + RenderWith(lines[idx + n..], renderBlock)
  {
    var rest := lines[idx..];
    var n := TableRun(rest);
    assert rest[0] == lines[idx];
    RenderWithTable(rest, renderBlock);
    assert rest[..n] == lines[idx..idx + n] && rest[n..] == lines[idx + n..];
  }

  lemma RenderWithTable(lines: seq<string>, renderBlock: seq<string> -> seq<string>)
    requires lines != [] && IsTableLine(lines[0])
    ensures RenderWith(lines, renderBlock) == renderBlock(lines[..TableRun(lines)]) + RenderWith(lines[TableRun(lines)..], renderBlock)
  {
  }

  /** Rendering at another line copies it. */
  lemma RenderAtText(lines: seq<string>, idx: nat, renderBlock: seq<string> -> seq<string>)
    requires idx < |lines| && !IsTableLine(lines[idx])
    ensures RenderWith(lines[idx..], renderBlock) == [lines[idx]] + RenderWith(lines[idx + 1..], renderBlock)
  {
    assert lines[idx..][0] == lines[idx] && lines[idx..][1..] == lines[idx + 1..];
  }

  lemma RenderedSoFar(out: seq<string>, piece: seq<string>, rest: seq<string>, all: seq<string>)
    requires out + (piece + rest) == all
    ensures (out + piece) + rest == all
  {
  }

  /** The second loop of `postprocess_markdown`, with the inner loop that
      collects a block. */
  method RenderLines(lines: seq<string>, renderBlock: seq<string> -> seq<string>) returns (out: seq<string>)
    ensures out == RenderWith(lines, renderBlock)
  {
    out := [];
    var idx := 0;
    while idx < |lines|
      invariant 0 <= idx <= |lines|
      invariant out + RenderWith(lines[idx..], renderBlock) == RenderWith(lines, renderBlock)
    {
      var line := lines[idx];
      if IsTableLine(line) {
        RenderAtTable(lines, idx, renderBlock);
        var block, next := CollectBlock(lines, idx);
        RenderedSoFar(out, renderBlock(block), RenderWith(lines[next..], renderBlock), RenderWith(lines, renderBlock));
        out := out + renderBlock(block);
        idx := next;
      } else {
        RenderAtText(lines, idx, renderBlock);
        RenderedSoFar(out, [line], RenderWith(lines[idx + 1..], renderBlock), RenderWith(lines, renderBlock));
        out := out + [line];
        idx := idx + 1;
      }
    }
    assert lines[idx..] == [];
  }

  /** `postprocess_markdown` */
  method PostprocessMarkdown(markdown: string, keepEmptyListItems: bool) returns (result: string)
    ensures result == Postprocess(markdown, keepEmptyListItems)
  {
    var lines := FilterLines(Lines(markdown), keepEmptyListItems);
    var out := RenderLines(lines, RenderBlock);
    result := Join(out, "\n");
  }

  // ------------------------------------------------- what rendering promises

  /** The columns of a row: `split` always gives at least one piece. */
  lemma ColumnsPositive(row: string)
    ensures |Split(RowInner(row), '|')| >= 1 && |TableCells(row)| == |Split(RowInner(row), '|')|
  {
  }

  /** A row the separator regex accepts is not an image-only row. */
  lemma TableSepRowNoImage(row: string)
    requires TableSepRow(row)
    ensures ImageCell(row).None?
  {
    TableSepRowIsSeparatorLike(row);
  }

  /** A rendered block is either a lone image taken from one of its rows, or
      its first row, a separator-like row, and the remaining rows with a
      separator-like second row dropped. */
  lemma RenderBlockShape(block: seq<string>)
    requires block != []
    ensures var r := RenderBlock(block);
      (|r| == 1 && ImageText(r[0]) && exists i :: 0 <= i < |block| && ImageCell(block[i]) == Some(r[0]))
      || (|r| >= 2 && r[0] == block[0] && SeparatorLikeRow(r[1])
          && r[2..] == (if |block| > 1 && SeparatorLikeRow(block[1]) then block[2..] else block[1..]))
  {
    var rows := DataRows(block);
    if |block| == 2 && SeparatorLikeRow(block[1]) && ImageCell(block[0]).Some? {
      assert ImageCell(block[0]) == Some(RenderBlock(block)[0]);
    } else if |rows| == 1 && ImageCell(rows[0]).Some? {
      var k :| 0 <= k < |block| && block[k] == rows[0];
      assert ImageCell(block[k]) == Some(RenderBlock(block)[0]);
    } else if |block| < 2 || !TableSepRow(block[1]) {
      var n := |Split(RowInner(block[0]), '|')|;
      var tail := if |block| > 1 && SeparatorLikeRow(block[1]) then block[2..] else block[1..];
      assert RenderBlock(block) == [block[0], SeparatorRow(n)] + tail;
      ColumnsPositive(block[0]);
      SeparatorRowIsSeparatorLike(n);
      PairThen(block[0], SeparatorRow(n), tail);
    } else {
      assert RenderBlock(block) == block;
      TableSepRowIsSeparatorLike(block[1]);
    }
  }

  lemma PairThen<T>(a: T, b: T, tail: seq<T>)
    ensures var r := [a, b] + tail; |r| >= 2 && r[0] == a && r[1] == b && r[2..] == tail
  {
  }

  /** When the block is not collapsed and its second row is not a separator,
      the row put after the header has one `---` cell per header cell; a block
      whose second row is a separator is kept whole. */
  lemma RenderBlockSeparator(block: seq<string>)
    requires block != [] && |RenderBlock(block)| >= 2
    ensures var r := RenderBlock(block);
      if |block| >= 2 && TableSepRow(block[1]) then r == block
      else TableCells(r[1]) == Copies("---", |TableCells(block[0])|)
  {
    var rows := DataRows(block);
    if |block| >= 2 && TableSepRow(block[1]) {
    } else {
      ColumnsPositive(block[0]);
      SeparatorRowCells(|TableCells(block[0])|);
    }
  }

  /** A block whose only data row is a single image-only cell becomes that image. */
  lemma ImageTableCollapses(block: seq<string>)
    requires |DataRows(block)| == 1 && ImageCell(DataRows(block)[0]).Some?
    ensures RenderBlock(block) == [ImageCell(DataRows(block)[0]).value]
  {
    var rows := DataRows(block);
    if |block| == 2 && SeparatorLikeRow(block[1]) && ImageCell(block[0]).Some? {
      TableSepRowNoImage2(block[0]);
      assert DataRows(block) == [block[0]] + DataRows(block[1..]);
    }
  }

  lemma TableSepRowNoImage2(row: string)
    requires ImageCell(row).Some?
    ensures !TableSepRow(row)
  {
    if TableSepRow(row) {
      TableSepRowNoImage(row);
    }
  }

  /** A two-row table whose second row is separator-like and whose first row is
      one image-only cell becomes that image. */
  lemma ImageWithSeparatorCollapses(block: seq<string>)
    requires |block| == 2 && SeparatorLikeRow(block[1]) && ImageCell(block[0]).Some?
    ensures RenderBlock(block) == [ImageCell(block[0]).value]
  {
  }

  /** Lines that are not table lines are copied unchanged, whatever the block
      renderer. */
  lemma {:induction false} RenderWithoutTables(lines: seq<string>, renderBlock: seq<string> -> seq<string>)
    requires forall i :: 0 <= i < |lines| ==> !IsTableLine(lines[i])
    ensures RenderWith(lines, renderBlock) == lines
    decreases |lines|
  {
    if lines != [] {
      assert forall i :: 0 <= i < |lines[1..]| ==> lines[1..][i] == lines[i + 1];
      RenderWithoutTables(lines[1..], renderBlock);
      assert lines == [lines[0]] + lines[1..];
    }
  }

  /** Text without tables and carriage returns comes back as it was, less a
      final newline, when empty list items are kept. */
  lemma PlainTextUnchanged(markdown: string)
    requires '\r' !in markdown
    requires forall i :: 0 <= i < |Lines(markdown)| ==> !IsTableLine(Lines(markdown)[i])
    ensures Postprocess(markdown, true) + (if EndsWith(markdown, "\n") then "\n" else "") == markdown
  {
    RenderWithoutTables(Lines(markdown), RenderBlock);
    LinesJoin(markdown);
  }

  /** `html_to_markdown_with_options`: `convert` stands for `preprocess_html`
      followed by the `htmd` conversion, neither of which is part of this
      model; the post-processing and the final trim are. */
  function HtmlToMarkdown(html: string, keepEmptyListItems: bool, convert: string -> Result<string>): (r: Result<string>)
    ensures convert(html).Err? ==> r == convert(html)
    ensures convert(html).Ok? ==> r == Ok(Trim(Postprocess(convert(html).value, keepEmptyListItems)))
    ensures r.Ok? ==> Trim(r.value) == r.value
  {
    match convert(html)
    case Err(e) => Err(e)
    case Ok(m) =>
      TrimIdempotent(Postprocess(m, keepEmptyListItems));
      Ok(Trim(Postprocess(m, keepEmptyListItems)))
  }
}
