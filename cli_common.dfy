/**
 * src/cli/common.rs: the argument validators `parse_space_key` and
 * `parse_positive_limit`. Rust's `str::len` counts UTF-8 bytes, so the length
 * check of a space key is modelled on the byte length.
 */
module CliCommon {
  import opened Wrappers
  import opened Strings

  /** The number of bytes UTF-8 uses for a character. */
  function Utf8Width(c: char): nat {
    if c as int < 0x80 then 1 else if c as int < 0x800 then 2 else if c as int < 0x10000 then 3 else 4
  }

  /** `s.len()`: the length of the UTF-8 encoding. */
  function Utf8Len(s: string): (n: nat)
    ensures n >= |s|
    decreases |s|
  {
    if s == [] then 0 else Utf8Width(s[0]) + Utf8Len(s[1..])
  }

  predicate IsAscii(s: string) {
    forall i :: 0 <= i < |s| ==> s[i] as int < 0x80
  }

  lemma {:induction false} AsciiUtf8Len(s: string)
    requires IsAscii(s)
    ensures Utf8Len(s) == |s|
    decreases |s|
  {
    if s != [] {
      assert forall i :: 0 <= i < |s[1..]| ==> s[1..][i] == s[i + 1];
      AsciiUtf8Len(s[1..]);
    }
  }

  predicate KeyChar(c: char) { IsAsciiUpper(c) || IsAsciiDigit(c) }

  predicate RestKeyChars(k: string) {
    forall i :: 1 <= i < |k| ==> KeyChar(k[i])
  }

  /** A valid space key: 2 to 32 characters, an upper-case ASCII letter
      first, then upper-case ASCII letters and digits. */
  predicate ValidSpaceKey(k: string) {
    2 <= |k| <= 32 && IsAsciiUpper(k[0]) && RestKeyChars(k)
  }

  const KEY_EMPTY: string := "space key cannot be empty"
  const KEY_LENGTH: string := "space key must be 2-32 characters"
  const KEY_FIRST: string := "space key must start with an uppercase letter (A-Z)"
  const KEY_CHARS: string := "space key must contain only A-Z and 0-9"

  /** `parse_space_key`: the checks run in this order: empty, byte length,
      first character, the rest. */
  function ParseSpaceKey(s: string): (r: Result<string>)
    ensures var t := Trim(s);
      (t == [] ==> r == Err(KEY_EMPTY))
      && (t != [] && !(2 <= Utf8Len(t) <= 32) ==> r == Err(KEY_LENGTH))
      && (t != [] && 2 <= Utf8Len(t) <= 32 && !IsAsciiUpper(t[0]) ==> r == Err(KEY_FIRST))
      && (t != [] && 2 <= Utf8Len(t) <= 32 && IsAsciiUpper(t[0]) && !RestKeyChars(t) ==> r == Err(KEY_CHARS))
      && (r.Ok? ==> r.value == t)
  {
    var t := Trim(s);
    if t == [] then Err(KEY_EMPTY)
    else if Utf8Len(t) < 2 || Utf8Len(t) > 32 then Err(KEY_LENGTH)
    else if !IsAsciiUpper(t[0]) then Err(KEY_FIRST)
    else if !RestKeyChars(t) then Err(KEY_CHARS)
    else Ok(t)
  }

  lemma ValidKeyAscii(k: string)
    requires |k| >= 1 && IsAsciiUpper(k[0]) && RestKeyChars(k)
    ensures IsAscii(k)
  {
    forall i | 0 <= i < |k| ensures k[i] as int < 0x80 {
      if i > 0 { assert KeyChar(k[i]); }
    }
  }

  /** A key is accepted exactly when, trimmed, it is a valid space key, and
      then the trimmed key is what is returned. */
  lemma ParseSpaceKeyIff(s: string)
    ensures ParseSpaceKey(s).Ok? <==> ValidSpaceKey(Trim(s))
    ensures ParseSpaceKey(s).Ok? ==> ParseSpaceKey(s).value == Trim(s)
  {
    var t := Trim(s);
    if t != [] && IsAsciiUpper(t[0]) && RestKeyChars(t) {
      ValidKeyAscii(t);
      AsciiUtf8Len(t);
    }
  }

  const LIMIT_NOT_NUMBER: string := "limit must be a positive integer"
  const LIMIT_ZERO: string := "limit must be at least 1"

  /** `parse_positive_limit`: the trimmed text read as a `usize` (64 bits),
      which must not be zero. */
  function ParsePositiveLimit(s: string): (r: Result<nat>)
    ensures r.Ok? <==> (ParseUnsigned(Trim(s), U64_BOUND).Some? && ParseUnsigned(Trim(s), U64_BOUND).value >= 1)
    ensures r.Ok? ==> r.value >= 1 && ParseUnsigned(Trim(s), U64_BOUND) == Some(r.value)
    ensures ParseUnsigned(Trim(s), U64_BOUND).None? ==> r == Err(LIMIT_NOT_NUMBER)
    ensures ParseUnsigned(Trim(s), U64_BOUND) == Some(0) ==> r == Err(LIMIT_ZERO)
  {
    match ParseUnsigned(Trim(s), U64_BOUND)
    case None => Err(LIMIT_NOT_NUMBER)
    case Some(v) => if v == 0 then Err(LIMIT_ZERO) else Ok(v)
  }

  /** The decimal text of every positive `usize` is accepted as that value. */
  lemma LimitRoundTrip(n: nat)
    requires 1 <= n < U64_BOUND
    ensures ParsePositiveLimit(NatToString(n)) == Ok(n)
  {
    var d := NatToString(n);
    ParseNatToString(n);
    assert IsAsciiDigit(d[0]) && IsAsciiDigit(d[|d| - 1]);
    TrimNoEdges(d);
  }
}
