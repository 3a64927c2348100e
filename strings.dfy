/**
 * Character classes and string operations shared by the model: Rust's `trim`,
 * `split`, `starts_with`, `contains`, decimal rendering and parsing, ASCII case
 * folding for keyword comparison.
 */
module Strings {
  import opened Wrappers

  /** Rust's `char::is_whitespace` (the Unicode White_Space property), also the
      class `\s` of the regex crate. */
  predicate IsWhitespace(c: char) {
    var n := c as int;
    (0x09 <= n <= 0x0D) || n == 0x20 || n == 0x85 || n == 0xA0 || n == 0x1680
    || (0x2000 <= n <= 0x200A) || n == 0x2028 || n == 0x2029 || n == 0x202F
    || n == 0x205F || n == 0x3000
  }

  /** Rust's `char::is_control` (general category Cc). */
  predicate IsControl(c: char) {
    var n := c as int;
    n <= 0x1F || (0x7F <= n <= 0x9F)
  }

  predicate IsAsciiDigit(c: char) { '0' <= c <= '9' }

  predicate IsAsciiUpper(c: char) { 'A' <= c <= 'Z' }

  predicate IsAsciiLower(c: char) { 'a' <= c <= 'z' }

  predicate IsAsciiAlnum(c: char) { IsAsciiDigit(c) || IsAsciiUpper(c) || IsAsciiLower(c) }

  /** `!s.is_empty() && s.chars().all(|c| c.is_ascii_digit())` */
  predicate AllDigits(s: string) {
    |s| > 0 && forall i :: 0 <= i < |s| ==> IsAsciiDigit(s[i])
  }

  /** The one-character lowercase of `c` when that lowercase is ASCII: the letters
      A-Z and U+212A KELVIN SIGN. Every other character is kept, so comparing
      `LowerAscii(s)` with an ASCII word gives the same answer as comparing Rust's
      `s.to_lowercase()` with it. */
  function LowerChar(c: char): char {
    if IsAsciiUpper(c) then (c as int + 32) as char
    else if c as int == 0x212A then 'k'
    else c
  }

  function LowerAscii(s: string): (r: string)
    ensures |r| == |s|
    ensures forall i :: 0 <= i < |s| ==> r[i] == LowerChar(s[i])
  {
    if s == [] then [] else [LowerChar(s[0])] + LowerAscii(s[1..])
  }

  predicate StartsWith(s: string, prefix: string) {
    |prefix| <= |s| && s[..|prefix|] == prefix
  }

  predicate EndsWith(s: string, suffix: string) {
    |suffix| <= |s| && s[|s| - |suffix|..] == suffix
  }

  /** `s.contains(p)` for a string pattern. */
  predicate Contains(s: string, p: string)
    decreases |s|
  {
    StartsWith(s, p) || (|s| > 0 && Contains(s[1..], p))
  }

  lemma {:induction false} ContainsAt(s: string, p: string, i: nat)
    requires i + |p| <= |s| && s[i..i + |p|] == p
    ensures Contains(s, p)
    decreases i
  {
    if i > 0 {
      assert s[1..][i - 1..i - 1 + |p|] == s[i..i + |p|];
      ContainsAt(s[1..], p, i - 1);
    }
  }

  /** Index of the first `true`. */
  function FirstTrue(bs: seq<bool>): (r: Option<nat>)
    ensures r.None? <==> forall i :: 0 <= i < |bs| ==> !bs[i]
    ensures r.Some? ==> (r.value < |bs| && bs[r.value] && forall j :: 0 <= j < r.value ==> !bs[j])
  {
    if bs == [] then None
    else if bs[0] then Some(0)
    else
      match FirstTrue(bs[1..])
      case None => None
      case Some(i) => Some(i + 1)
  }

  /** Index of the first occurrence of `c` (Rust's `find` on a char). */
  function IndexOf(s: string, c: char): (r: Option<nat>)
    ensures r.None? ==> c !in s
    ensures r.Some? ==> r.value < |s| && s[r.value] == c && c !in s[..r.value]
  {
    if s == [] then None
    else if s[0] == c then Some(0)
    else match IndexOf(s[1..], c)
      case None => None
      case Some(i) => Some(i + 1)
  }

  /** `s.trim_start()` */
  function TrimStart(s: string): (r: string)
    ensures |r| <= |s| && r == s[|s| - |r|..]
    ensures r == [] || !IsWhitespace(r[0])
    ensures forall i :: 0 <= i < |s| - |r| ==> IsWhitespace(s[i])
  {
    if |s| > 0 && IsWhitespace(s[0]) then TrimStart(s[1..]) else s
  }

  /** `s.trim_end()` */
  function TrimEnd(s: string): (r: string)
    ensures |r| <= |s| && r == s[..|r|]
    ensures r == [] || !IsWhitespace(r[|r| - 1])
    ensures forall i :: |r| <= i < |s| ==> IsWhitespace(s[i])
  {
    if |s| > 0 && IsWhitespace(s[|s| - 1]) then TrimEnd(s[..|s| - 1]) else s
  }

  /** `s.trim()` */
  function Trim(s: string): string {
    TrimEnd(TrimStart(s))
  }

  /** Trimming removes exactly the surrounding whitespace and nothing else. */
  lemma TrimShape(s: string) returns (a: nat, b: nat)
    ensures a <= b <= |s| && Trim(s) == s[a..b]
    ensures Trim(s) == [] || (!IsWhitespace(Trim(s)[0]) && !IsWhitespace(Trim(s)[|Trim(s)| - 1]))
  {
    var t := TrimStart(s);
    a, b := TrimSlice(s, t, TrimEnd(t));
  }

  /** A prefix without trailing whitespace of a suffix without leading
      whitespace is a slice with neither. */
  lemma TrimSlice(s: string, t: string, r: string) returns (a: nat, b: nat)
    requires |t| <= |s| && t == s[|s| - |t|..] && (t == [] || !IsWhitespace(t[0]))
    requires |r| <= |t| && r == t[..|r|] && (r == [] || !IsWhitespace(r[|r| - 1]))
    ensures a <= b <= |s| && r == s[a..b]
    ensures r == [] || (!IsWhitespace(r[0]) && !IsWhitespace(r[|r| - 1]))
  {
    a := |s| - |t|;
    b := a + |r|;
    SliceOfSuffix(s, a, t, r);
    if r != [] {
      assert r[0] == t[0];
    }
  }

  lemma SliceOfSuffix(s: string, a: nat, t: string, r: string)
    requires a <= |s| && t == s[a..] && |r| <= |t| && r == t[..|r|]
    ensures a + |r| <= |s| && r == s[a..a + |r|]
  {
  }

  lemma TrimNoEdges(s: string)
    requires s == [] || (!IsWhitespace(s[0]) && !IsWhitespace(s[|s| - 1]))
    ensures Trim(s) == s
  {
  }

  lemma TrimIdempotent(s: string)
    ensures Trim(Trim(s)) == Trim(s)
  {
    var _, _ := TrimShape(s);
    TrimNoEdges(Trim(s));
  }

  /** `s.trim_end_matches(c)` for one character. */
  function TrimEndChar(s: string, c: char): (r: string)
    ensures |r| <= |s| && r == s[..|r|]
    ensures r == [] || r[|r| - 1] != c
    ensures forall i :: |r| <= i < |s| ==> s[i] == c
  {
    if |s| > 0 && s[|s| - 1] == c then TrimEndChar(s[..|s| - 1], c) else s
  }

  /** Trailing copies of `c` appended to `s` are all removed again. */
  lemma {:induction false} TrimEndCharRepeat(s: string, c: char, n: nat)
    ensures TrimEndChar(s + Repeat([c], n), c) == TrimEndChar(s, c)
    decreases n
  {
    if n > 0 {
      assert s + Repeat([c], n) == (s + Repeat([c], n - 1)) + [c] by {
        RepeatSnoc([c], n - 1);
      }
      var t := s + Repeat([c], n - 1);
      assert (t + [c])[..|t|] == t;
      assert TrimEndChar(t + [c], c) == TrimEndChar(t, c);
      TrimEndCharRepeat(s, c, n - 1);
    } else {
      assert s + Repeat([c], n) == s;
    }
  }

  /** `s.trim_start_matches(c)` for one character. */
  function TrimStartChar(s: string, c: char): (r: string)
    ensures |r| <= |s| && r == s[|s| - |r|..]
    ensures r == [] || r[0] != c
    ensures forall i :: 0 <= i < |s| - |r| ==> s[i] == c
  {
    if |s| > 0 && s[0] == c then TrimStartChar(s[1..], c) else s
  }

  /** `s.trim_matches(c)` for one character: strips it at both ends. */
  function TrimChar(s: string, c: char): string {
    TrimEndChar(TrimStartChar(s, c), c)
  }

  /** Rust's `s.split(sep)`: always at least one piece. */
  function Split(s: string, sep: char): (parts: seq<string>)
    ensures |parts| >= 1
    ensures forall i :: 0 <= i < |parts| ==> sep !in parts[i]
    decreases |s|
  {
    match IndexOf(s, sep)
    case None => [s]
    case Some(i) => [s[..i]] + Split(s[i + 1..], sep)
  }

  /** `parts.join(sep)` */
  function Join(parts: seq<string>, sep: string): string {
    if |parts| == 0 then ""
    else if |parts| == 1 then parts[0]
    else parts[0] + sep + Join(parts[1..], sep)
  }

  /** Splitting and joining on the same separator gives the input back. */
  lemma {:induction false} JoinSplit(s: string, sep: char)
    ensures Join(Split(s, sep), [sep]) == s
    decreases |s|
  {
    match IndexOf(s, sep)
    case None =>
    case Some(i) =>
      var rest := Split(s[i + 1..], sep);
      var parts := [s[..i]] + rest;
      JoinSplit(s[i + 1..], sep);
      assert parts[0] == s[..i] && parts[1..] == rest;
      assert Join(parts, [sep]) == s[..i] + [sep] + Join(rest, [sep]);
      assert s == s[..i] + [sep] + s[i + 1..];
  }

  /** Joining pieces that do not contain the separator and splitting again
      gives the pieces back. */
  lemma {:induction false} SplitJoin(parts: seq<string>, sep: char)
    requires |parts| >= 1 && forall i :: 0 <= i < |parts| ==> sep !in parts[i]
    ensures Split(Join(parts, [sep]), sep) == parts
    decreases |parts|
  {
    if |parts| > 1 {
      var rest := Join(parts[1..], [sep]);
      var s := parts[0] + [sep] + rest;
      assert Join(parts, [sep]) == s;
      IndexOfAfter(s, sep, parts[0]);
      assert s[..|parts[0]|] == parts[0] && s[|parts[0]| + 1..] == rest;
      SplitJoin(parts[1..], sep);
      assert parts == [parts[0]] + parts[1..];
    }
  }

  /** `trim_start_matches(c)` stops at the first character that is not `c`. */
  lemma TrimStartCharAt(s: string, c: char, k: nat)
    requires k <= |s| && (forall i :: 0 <= i < k ==> s[i] == c) && (k == |s| || s[k] != c)
    ensures TrimStartChar(s, c) == s[k..]
  {
    var r := TrimStartChar(s, c);
    var k' := |s| - |r|;
    if |r| > 0 {
      assert r[0] == s[k'];
    }
    if k < |s| {
      assert s[k] != c;
    }
  }

  /** `trim_end_matches(c)` stops at the last character that is not `c`. */
  lemma TrimEndCharAt(s: string, c: char, k: nat)
    requires k <= |s| && (forall i :: k <= i < |s| ==> s[i] == c) && (k == 0 || s[k - 1] != c)
    ensures TrimEndChar(s, c) == s[..k]
  {
    var r := TrimEndChar(s, c);
    if |r| > 0 {
      assert r[|r| - 1] == s[|r| - 1];
    }
    if k > 0 {
      assert s[k - 1] != c;
    }
  }

  /** The last piece of a split is what follows the last separator. */
  lemma {:induction false} SplitLast(a: string, sep: char, b: string)
    requires sep !in b
    ensures var parts := Split(a + [sep] + b, sep); parts[|parts| - 1] == b
    decreases |a|
  {
    var s := a + [sep] + b;
    var i := FirstSeparator(a, sep, b);
    SplitUnfold(s, sep, i);
    var rest := Split(s[i + 1..], sep);
    LastOfCons(s[..i], rest);
    if i == |a| {
      AfterLastSeparator(a, sep, b);
      SplitNoSeparator(b, sep);
    } else {
      AfterSeparator(a, sep, b, i);
      SplitLast(a[i + 1..], sep, b);
    }
  }

  lemma SplitUnfold(s: string, sep: char, i: nat)
    requires IndexOf(s, sep) == Some(i)
    ensures Split(s, sep) == [s[..i]] + Split(s[i + 1..], sep)
  {
  }

  lemma SplitNoSeparator(s: string, sep: char)
    requires sep !in s
    ensures Split(s, sep) == [s]
  {
  }

  lemma InitLast<T>(p: seq<T>)
    requires p != []
    ensures p == p[..|p| - 1] + [p[|p| - 1]]
  {
  }

  lemma LastOfCons<T>(x: T, rest: seq<T>)
    requires |rest| >= 1
    ensures ([x] + rest)[|[x] + rest| - 1] == rest[|rest| - 1]
  {
  }

  lemma FirstSeparator(a: string, sep: char, b: string) returns (i: nat)
    ensures IndexOf(a + [sep] + b, sep) == Some(i) && i <= |a|
  {
    var s := a + [sep] + b;
    assert s[|a|] == sep;
    i := IndexOf(s, sep).value;
  }

  lemma AfterSeparator(a: string, sep: char, b: string, i: nat)
    requires i < |a|
    ensures (a + [sep] + b)[i + 1..] == a[i + 1..] + [sep] + b
  {
  }

  lemma AfterLastSeparator(a: string, sep: char, b: string)
    ensures (a + [sep] + b)[|a| + 1..] == b
  {
  }

  /** A character the text lacks is in none of its pieces. */
  lemma {:induction false} SplitPiecesLack(s: string, sep: char, c: char)
    requires c !in s
    ensures forall i :: 0 <= i < |Split(s, sep)| ==> c !in Split(s, sep)[i]
    decreases |s|
  {
    match IndexOf(s, sep)
    case None =>
    case Some(i) =>
      assert forall x :: x in s[i + 1..] ==> x in s;
      assert forall x :: x in s[..i] ==> x in s;
      SplitPiecesLack(s[i + 1..], sep, c);
  }

  /** A join starts with its first piece and ends with its last. */
  lemma {:induction false} JoinEnds(parts: seq<string>, sep: string)
    requires |parts| >= 1
    ensures StartsWith(Join(parts, sep), parts[0])
    ensures EndsWith(Join(parts, sep), parts[|parts| - 1])
    decreases |parts|
  {
    if |parts| > 1 {
      JoinEnds(parts[1..], sep);
      var rest := Join(parts[1..], sep);
      var j := parts[0] + sep + rest;
      assert j[..|parts[0]|] == parts[0];
      assert j[|j| - |rest|..] == rest;
      var l := parts[|parts| - 1];
      assert rest[|rest| - |l|..] == l;
      assert j[|j| - |l|..] == rest[|rest| - |l|..];
    }
  }

  /** Joining one more piece on the end. */
  lemma {:induction false} JoinSnoc(parts: seq<string>, sep: string, x: string)
    requires |parts| >= 1
    ensures Join(parts + [x], sep) == Join(parts, sep) + sep + x
    decreases |parts|
  {
    if |parts| > 1 {
      assert (parts + [x])[1..] == parts[1..] + [x];
      JoinSnoc(parts[1..], sep, x);
    } else {
      assert parts + [x] == [parts[0], x];
    }
  }

  /** `s.split_once(c)` */
  function SplitOnce(s: string, c: char): (r: Option<(string, string)>)
    ensures r.None? <==> c !in s
    ensures r.Some? ==> c !in r.value.0 && s == r.value.0 + [c] + r.value.1
  {
    match IndexOf(s, c)
    case None => None
    case Some(i) =>
      assert s == s[..i] + [c] + s[i + 1..];
      Some((s[..i], s[i + 1..]))
  }

  /** The first occurrence of `c` is the only place `s` splits into a
      `c`-free prefix, `c` and a rest. */
  lemma SplitOnceUnique(s: string, c: char, a: string, b: string)
    requires c !in a && s == a + [c] + b
    ensures SplitOnce(s, c) == Some((a, b))
  {
    IndexOfAfter(s, c, a);
    assert s[..|a|] == a && s[|a| + 1..] == b;
  }

  lemma {:induction false} IndexOfAfter(s: string, c: char, a: string)
    requires c !in a && |a| < |s| && s[..|a|] == a && s[|a|] == c
    ensures IndexOf(s, c) == Some(|a|)
    decreases |a|
  {
    if a != [] {
      assert s[1..][..|a| - 1] == a[1..];
      IndexOfAfter(s[1..], c, a[1..]);
    }
  }

  /** `s.repeat(n)` */
  function Repeat(s: string, n: nat): (r: string)
    ensures |r| == n * |s|
  {
    if n == 0 then "" else s + Repeat(s, n - 1)
  }

  lemma {:induction false} RepeatSnoc(s: string, n: nat)
    ensures Repeat(s, n + 1) == Repeat(s, n) + s
    decreases n
  {
    if n > 0 {
      RepeatSnoc(s, n - 1);
    }
  }

  // ---------------------------------------------------------------- decimals

  function DigitChar(d: nat): char
    requires d < 10
  {
    ('0' as int + d) as char
  }

  function DigitValue(c: char): nat
    requires IsAsciiDigit(c)
  {
    c as int - '0' as int
  }

  /** Decimal text of a natural number (`n.to_string()`). */
  function NatToString(n: nat): (r: string)
    ensures AllDigits(r)
    decreases n
  {
    if n < 10 then [DigitChar(n)] else NatToString(n / 10) + [DigitChar(n % 10)]
  }

  /** Decimal text of an integer, with a leading `-` for negative values. */
  function IntToString(i: int): string {
    if i < 0 then "-" + NatToString(-i) else NatToString(i)
  }

  /** The value of a string of decimal digits. */
  function DigitsValue(s: string): nat
    requires forall i :: 0 <= i < |s| ==> IsAsciiDigit(s[i])
  {
    if s == [] then 0 else DigitsValue(s[..|s| - 1]) * 10 + DigitValue(s[|s| - 1])
  }

  /** Reading back the decimal text of `n` gives `n`. */
  lemma {:induction false} NatToStringRoundTrip(n: nat)
    ensures DigitsValue(NatToString(n)) == n
    decreases n
  {
    if n >= 10 {
      NatToStringRoundTrip(n / 10);
      var s := NatToString(n);
      assert s[..|s| - 1] == NatToString(n / 10);
    }
  }

  /** Rust's `str::parse::<uN>()` for an unsigned type whose values stay below
      `bound`: an optional `+`, then one or more ASCII digits, and no overflow. */
  function ParseUnsigned(s: string, bound: nat): (r: Option<nat>)
    ensures r.Some? ==> r.value < bound
  {
    var digits := if |s| > 0 && s[0] == '+' then s[1..] else s;
    if AllDigits(digits) && DigitsValue(digits) < bound then Some(DigitsValue(digits))
    else None
  }

  /** Reads back the text `IntToString` produces: an optional `-`, then digits. */
  function ParseIntText(s: string): Option<int> {
    if |s| > 0 && s[0] == '-' then
      if AllDigits(s[1..]) then Some(0 - DigitsValue(s[1..]) as int) else None
    else if AllDigits(s) then Some(DigitsValue(s))
    else None
  }

  lemma IntToStringRoundTrip(i: int)
    ensures ParseIntText(IntToString(i)) == Some(i)
  {
    if i < 0 {
      NatToStringRoundTrip(-i);
      assert IntToString(i)[1..] == NatToString(-i);
    } else {
      NatToStringRoundTrip(i);
    }
  }

  /** Digits as Rust prints them: at least one, and no leading zero except in `0`. */
  predicate CanonicalDigits(d: string) {
    |d| > 0 && AllDigits(d) && (d[0] == '0' ==> d == "0")
  }

  /** An integer's text as Rust prints it: canonical digits, with a `-` only
      before a nonzero value. */
  predicate CanonicalIntText(s: string) {
    if |s| > 0 && s[0] == '-' then CanonicalDigits(s[1..]) && s[1..] != "0" else CanonicalDigits(s)
  }

  /** The decimal text of a positive number does not start with `0`. */
  lemma {:induction false} NatToStringLead(n: nat)
    ensures |NatToString(n)| > 0 && (n > 0 ==> NatToString(n)[0] != '0')
    decreases n
  {
    if n >= 10 {
      NatToStringLead(n / 10);
    }
  }

  /** `IntToString` prints the canonical text: no leading zero, no `-0`. */
  lemma IntToStringCanonical(i: int)
    ensures CanonicalIntText(IntToString(i))
  {
    if i < 0 {
      NatToStringLead(-i);
      assert IntToString(i)[1..] == NatToString(-i);
    } else {
      NatToStringLead(i);
    }
  }

  const U64_BOUND: nat := 0x1_0000_0000_0000_0000

  lemma ParseNatToString(n: nat)
    requires n < U64_BOUND
    ensures ParseUnsigned(NatToString(n), U64_BOUND) == Some(n)
  {
    NatToStringRoundTrip(n);
  }
}
