/**
 * The PHP string built-ins and PCRE character classes that the modelled code relies on.
 * PHP strings are byte strings; here each `char` stands for one byte, and the case
 * mappings are the ASCII ones that PHP 8's strtoupper/strtolower apply.
 */
module PhpStrings {

  //
  // Character classes
  // ----

  /** The characters PHP's trim(), ltrim() and rtrim() strip by default. */
  predicate IsTrimChar(c: char) {
    c == ' ' || c == '\t' || c == '\n' || c == '\r' || c == '\0' || c == '\U{B}'
  }

  /** PCRE `\s`: space, tab, line feed, vertical tab, form feed, carriage return. */
  predicate IsRegexSpace(c: char) {
    c == ' ' || c == '\t' || c == '\n' || c == '\U{B}' || c == '\U{C}' || c == '\r'
  }

  /** PCRE `\d` and ctype_digit's character class. */
  predicate IsDigit(c: char) { '0' <= c <= '9' }

  predicate IsLower(c: char) { 'a' <= c <= 'z' }

  predicate IsUpper(c: char) { 'A' <= c <= 'Z' }

  predicate IsLetter(c: char) { IsLower(c) || IsUpper(c) }

  /** `[a-z0-9]` under the case-insensitive flag `i`. */
  predicate IsAlnum(c: char) { IsLetter(c) || IsDigit(c) }

  /** `[a-f0-9]` under the case-insensitive flag `i`. */
  predicate IsHexDigit(c: char) { IsDigit(c) || 'a' <= c <= 'f' || 'A' <= c <= 'F' }

  /** PCRE `\w`, the class that `\b` separates from its complement. */
  predicate IsWordChar(c: char) { IsAlnum(c) || c == '_' }

  /** The characters that PHP's string-to-number conversion skips before a number. */
  predicate IsNumericSpace(c: char) {
    c == ' ' || c == '\t' || c == '\n' || c == '\r' || c == '\U{B}' || c == '\U{C}'
  }

  //
  // Case mapping
  // ----

  function UpperChar(c: char): (r: char)
    ensures IsLower(c) ==> IsUpper(r)
    ensures !IsLower(c) ==> r == c
  {
    if IsLower(c) then (c as int - 32) as char else c
  }

  function LowerChar(c: char): (r: char)
    ensures IsUpper(c) ==> IsLower(r)
    ensures !IsUpper(c) ==> r == c
  {
    if IsUpper(c) then (c as int + 32) as char else c
  }

  /** strtoupper(): every lower-case ASCII letter mapped to upper case, all else kept. */
  function ToUpper(s: string): (r: string)
    ensures |r| == |s|
    ensures forall i :: 0 <= i < |s| ==> r[i] == UpperChar(s[i])
  {
    seq(|s|, i requires 0 <= i < |s| => UpperChar(s[i]))
  }

  /** strtolower(): every upper-case ASCII letter mapped to lower case, all else kept. */
  function ToLower(s: string): (r: string)
    ensures |r| == |s|
    ensures forall i :: 0 <= i < |s| ==> r[i] == LowerChar(s[i])
  {
    seq(|s|, i requires 0 <= i < |s| => LowerChar(s[i]))
  }

  lemma ToUpperIdempotent(s: string)
    ensures ToUpper(ToUpper(s)) == ToUpper(s)
  {
    assert forall i :: 0 <= i < |s| ==> UpperChar(UpperChar(s[i])) == UpperChar(s[i]);
  }

  //
  // Prefixes, suffixes, infixes
  // ----

  /** str_starts_with(). */
  predicate StartsWith(s: string, p: string) {
    |p| <= |s| && s[..|p|] == p
  }

  /** str_ends_with(). */
  predicate EndsWith(s: string, p: string) {
    |p| <= |s| && s[|s| - |p|..] == p
  }

  /** str_contains(): `p` occurs in `s` at some position. */
  predicate Contains(s: string, p: string)
    decreases |s|
  {
    StartsWith(s, p) || (|s| > 0 && Contains(s[1..], p))
  }

  /** `p` occurs in `s` at position `i`. */
  predicate OccursAt(s: string, p: string, i: int) {
    0 <= i && i + |p| <= |s| && s[i..i + |p|] == p
  }

  lemma {:induction false} ContainsIffOccurs(s: string, p: string)
    ensures Contains(s, p) <==> exists i :: OccursAt(s, p, i)
    decreases |s|
  {
    if StartsWith(s, p) {
      assert OccursAt(s, p, 0);
    } else if |s| > 0 {
      ContainsIffOccurs(s[1..], p);
      if Contains(s[1..], p) {
        var i :| OccursAt(s[1..], p, i);
        assert s[i + 1..i + 1 + |p|] == s[1..][i..i + |p|];
        assert OccursAt(s, p, i + 1);
      }
      if i :| OccursAt(s, p, i) {
        assert i != 0;
        assert s[1..][i - 1..i - 1 + |p|] == s[i..i + |p|];
        assert OccursAt(s[1..], p, i - 1);
      }
    } else {
      assert forall i :: OccursAt(s, p, i) ==> |p| == 0;
    }
  }

  lemma ContainsChar(s: string, c: char)
    ensures Contains(s, [c]) <==> c in s
  {
    ContainsIffOccurs(s, [c]);
    if c in s {
      var i :| 0 <= i < |s| && s[i] == c;
      assert s[i..i + 1] == [c];
      assert OccursAt(s, [c], i);
    }
    if i :| OccursAt(s, [c], i) {
      assert s[i] == s[i..i + 1][0];
    }
  }

  //
  // Trimming
  // ----

  /** ltrim() with the default character set. */
  function TrimLeft(s: string): (r: string)
    ensures |r| <= |s| && r == s[|s| - |r|..]
    ensures r == [] || !IsTrimChar(r[0])
    decreases |s|
  {
    if |s| > 0 && IsTrimChar(s[0]) then TrimLeft(s[1..]) else s
  }

  /** rtrim() with the default character set. */
  function TrimRight(s: string): (r: string)
    ensures |r| <= |s| && r == s[..|r|]
    ensures r == [] || !IsTrimChar(r[|r| - 1])
    decreases |s|
  {
    if |s| > 0 && IsTrimChar(s[|s| - 1]) then TrimRight(s[..|s| - 1]) else s
  }

  /** trim() with the default character set. */
  function Trim(s: string): (r: string)
    ensures |r| <= |s|
    ensures r == [] || (!IsTrimChar(r[0]) && !IsTrimChar(r[|r| - 1]))
  {
    TrimRight(TrimLeft(s))
  }

  /** Whether `s` holds nothing but the characters trim() removes. */
  predicate IsBlank(s: string) {
    forall i :: 0 <= i < |s| ==> IsTrimChar(s[i])
  }

  /** trim() gives the empty string exactly for blank strings. */
  lemma TrimEmptyIff(s: string)
    ensures Trim(s) == [] <==> IsBlank(s)
  {
    TrimLeftEmptyIff(s);
    var l := TrimLeft(s);
    if l != [] {
      TrimRightKeepsFirst(l);
    }
  }

  lemma {:induction false} TrimLeftEmptyIff(s: string)
    ensures TrimLeft(s) == [] <==> IsBlank(s)
    decreases |s|
  {
    if |s| > 0 && IsTrimChar(s[0]) {
      TrimLeftEmptyIff(s[1..]);
      assert IsBlank(s) <==> IsBlank(s[1..]) by {
        if IsBlank(s[1..]) {
          forall i | 0 <= i < |s| ensures IsTrimChar(s[i]) {
            if i > 0 { assert s[i] == s[1..][i - 1]; }
          }
        }
      }
    }
  }

  lemma {:induction false} TrimRightKeepsFirst(s: string)
    requires |s| > 0 && !IsTrimChar(s[0])
    ensures TrimRight(s) != []
    decreases |s|
  {
    if IsTrimChar(s[|s| - 1]) {
      TrimRightKeepsFirst(s[..|s| - 1]);
    }
  }

  /** rtrim($s, $c) for a single character `c`. */
  function RTrimChar(s: string, c: char): (r: string)
    ensures |r| <= |s| && r == s[..|r|]
    ensures r == [] || r[|r| - 1] != c
    ensures forall i :: |r| <= i < |s| ==> s[i] == c
    decreases |s|
  {
    if |s| > 0 && s[|s| - 1] == c then RTrimChar(s[..|s| - 1], c) else s
  }

  /** ltrim($s, $c) for a single character `c`. */
  function LTrimChar(s: string, c: char): (r: string)
    ensures |r| <= |s| && r == s[|s| - |r|..]
    ensures r == [] || r[0] != c
    ensures forall i :: 0 <= i < |s| - |r| ==> s[i] == c
    decreases |s|
  {
    if |s| > 0 && s[0] == c then LTrimChar(s[1..], c) else s
  }

  lemma RTrimCharIdempotent(s: string, c: char)
    ensures RTrimChar(RTrimChar(s, c), c) == RTrimChar(s, c)
  {
  }

  //
  // Replacement, splitting and joining
  // ----

  /** str_replace() of the single character `c` by the string `rep`. */
  function ReplaceChar(s: string, c: char, rep: string): (r: string)
    ensures c !in rep ==> c !in r
    ensures c !in s ==> r == s
    decreases |s|
  {
    if |s| == 0 then []
    else (if s[0] == c then rep else [s[0]]) + ReplaceChar(s[1..], c, rep)
  }

  /** The index of the first occurrence of `c` in `s`. */
  function IndexOf(s: string, c: char): (i: nat)
    requires c in s
    ensures i < |s| && s[i] == c && c !in s[..i]
  {
    if s[0] == c then 0 else 1 + IndexOf(s[1..], c)
  }

  lemma IndexOfIsFirst(s: string, c: char, n: nat)
    requires n < |s| && s[n] == c && c !in s[..n]
    ensures IndexOf(s, c) == n
  {
    var i := IndexOf(s, c);
    assert forall j :: 0 <= j < n ==> s[j] != c by {
      forall j | 0 <= j < n ensures s[j] != c { assert s[..n][j] == s[j]; }
    }
    assert forall j :: 0 <= j < i ==> s[j] != c by {
      forall j | 0 <= j < i ensures s[j] != c { assert s[..i][j] == s[j]; }
    }
  }

  /** explode() with a one-character delimiter: never empty, pieces free of the delimiter. */
  function Split(s: string, d: char): (parts: seq<string>)
    ensures |parts| >= 1
    ensures forall k :: 0 <= k < |parts| ==> d !in parts[k]
    decreases |s|
  {
    if d !in s then [s]
    else
      var i := IndexOf(s, d);
      [s[..i]] + Split(s[i + 1..], d)
  }

  /** implode() with a one-character glue. */
  function Join(parts: seq<string>, d: char): string
    decreases |parts|
  {
    if |parts| == 0 then ""
    else if |parts| == 1 then parts[0]
    else parts[0] + [d] + Join(parts[1..], d)
  }

  /** Splitting is the inverse of joining pieces that do not contain the delimiter. */
  lemma {:induction false} SplitJoin(parts: seq<string>, d: char)
    requires |parts| >= 1
    requires forall k :: 0 <= k < |parts| ==> d !in parts[k]
    ensures Split(Join(parts, d), d) == parts
    decreases |parts|
  {
    if |parts| == 1 {
    } else {
      var rest := Join(parts[1..], d);
      var s := parts[0] + [d] + rest;
      assert Join(parts, d) == s;
      assert d in s by { assert s[|parts[0]|] == d; }
      var n := |parts[0]|;
      assert s[..n] == parts[0];
      IndexOfIsFirst(s, d, n);
      var i := IndexOf(s, d);
      assert s[i + 1..] == rest;
      SplitJoin(parts[1..], d);
    }
  }

  /** Joining what was split gives the original string back. */
  lemma {:induction false} JoinSplit(s: string, d: char)
    ensures Join(Split(s, d), d) == s
    decreases |s|
  {
    if d in s {
      var i := IndexOf(s, d);
      assert s == s[..i] + [d] + s[i + 1..];
      var rest := Split(s[i + 1..], d);
      var parts := Split(s, d);
      assert parts == [s[..i]] + rest;
      assert parts[1..] == rest;
      JoinSplit(s[i + 1..], d);
      assert Join(parts, d) == s[..i] + [d] + Join(rest, d);
    }
  }

  //
  // Digits and numbers
  // ----

  /** ctype_digit(): a non-empty string of decimal digits. */
  predicate IsDigits(s: string) {
    |s| > 0 && forall i :: 0 <= i < |s| ==> IsDigit(s[i])
  }

  function DigitValue(c: char): (v: nat)
    requires IsDigit(c)
    ensures v < 10
  {
    c as int - '0' as int
  }

  /** The value of the longest run of digits at the start of `s` (0 when there is none). */
  function LeadingDigitsValue(s: string): nat
  {
    LeadingDigitsValueAcc(s, 0)
  }

  function LeadingDigitsValueAcc(s: string, acc: nat): nat
    decreases |s|
  {
    if |s| > 0 && IsDigit(s[0]) then LeadingDigitsValueAcc(s[1..], 10 * acc + DigitValue(s[0])) else acc
  }

  /** The number of digits at the start of `s`. */
  function DigitPrefixLength(s: string): (n: nat)
    ensures n <= |s|
    ensures forall i :: 0 <= i < n ==> IsDigit(s[i])
    ensures n == |s| || !IsDigit(s[n])
    decreases |s|
  {
    if |s| > 0 && IsDigit(s[0]) then 1 + DigitPrefixLength(s[1..]) else 0
  }

  /** The number of PCRE whitespace characters at the start of `s`. */
  function SpacePrefixLength(s: string): (n: nat)
    ensures n <= |s|
    ensures forall i :: 0 <= i < n ==> IsRegexSpace(s[i])
    ensures n == |s| || !IsRegexSpace(s[n])
    decreases |s|
  {
    if |s| > 0 && IsRegexSpace(s[0]) then 1 + SpacePrefixLength(s[1..]) else 0
  }

  /** The digits at the start of `a + b` are those of `a` when `b` does not start with one. */
  lemma DigitPrefixOf(a: string, b: string)
    requires forall i :: 0 <= i < |a| ==> IsDigit(a[i])
    requires |b| == 0 || !IsDigit(b[0])
    ensures DigitPrefixLength(a + b) == |a|
  {
    var s := a + b;
    assert forall i :: 0 <= i < |a| ==> s[i] == a[i];
    assert |b| > 0 ==> s[|a|] == b[0];
  }

  /** The whitespace at the start of `a + b` is that of `a` when `b` does not start with any. */
  lemma SpacePrefixOf(a: string, b: string)
    requires forall i :: 0 <= i < |a| ==> IsRegexSpace(a[i])
    requires |b| == 0 || !IsRegexSpace(b[0])
    ensures SpacePrefixLength(a + b) == |a|
  {
    var s := a + b;
    assert forall i :: 0 <= i < |a| ==> s[i] == a[i];
    assert |b| > 0 ==> s[|a|] == b[0];
  }

  function SkipNumericSpace(s: string): (r: string)
    ensures |r| <= |s| && r == s[|s| - |r|..]
    decreases |s|
  {
    if |s| > 0 && IsNumericSpace(s[0]) then SkipNumericSpace(s[1..]) else s
  }

  /**
   * PHP's (int) cast of a string: leading whitespace is skipped, an optional sign is read,
   * then the leading run of digits gives the magnitude; anything else gives 0.
   */
  function IntCast(s: string): int
  {
    var t := SkipNumericSpace(s);
    if |t| > 0 && t[0] == '-' then -(LeadingDigitsValue(t[1..]) as int)
    else if |t| > 0 && t[0] == '+' then LeadingDigitsValue(t[1..])
    else LeadingDigitsValue(t)
  }

  /** An unsigned decimal numeral: digits with an optional fraction, or a bare fraction. */
  predicate IsUnsignedDecimal(s: string) {
    var n := DigitPrefixLength(s);
    if n == |s| then n > 0
    else s[n] == '.' && IsDigitsOrEmpty(s[n + 1..]) && (n > 0 || |s| > n + 1)
  }

  predicate IsDigitsOrEmpty(s: string) {
    forall i :: 0 <= i < |s| ==> IsDigit(s[i])
  }

  /**
   * is_numeric() for strings: optional surrounding whitespace, an optional sign and a
   * decimal numeral.
   */
  predicate IsNumericString(s: string) {
    var t := SkipNumericSpace(s);
    var u := TrimRightNumericSpace(t);
    if |u| > 0 && (u[0] == '-' || u[0] == '+') then IsUnsignedDecimal(u[1..]) else IsUnsignedDecimal(u)
  }

  function TrimRightNumericSpace(s: string): (r: string)
    ensures |r| <= |s|
    decreases |s|
  {
    if |s| > 0 && IsNumericSpace(s[|s| - 1]) then TrimRightNumericSpace(s[..|s| - 1]) else s
  }

  lemma {:induction false} LeadingDigitsOfDigits(s: string, acc: nat)
    requires IsDigits(s)
    ensures LeadingDigitsValueAcc(s, acc) >= acc
    ensures acc > 0 ==> LeadingDigitsValueAcc(s, acc) > 0
    decreases |s|
  {
    if |s| > 1 {
      LeadingDigitsOfDigits(s[1..], 10 * acc + DigitValue(s[0]));
    }
  }

  /** A string of digits is numeric, and (int) reads all of its digits. */
  lemma DigitsNumeric(s: string)
    requires IsDigits(s)
    ensures IsNumericString(s) && IntCast(s) == LeadingDigitsValue(s)
  {
    assert !IsNumericSpace(s[0]);
    assert SkipNumericSpace(s) == s;
    assert !IsNumericSpace(s[|s| - 1]);
    assert TrimRightNumericSpace(s) == s;
    assert s + [] == s;
    DigitPrefixOf(s, []);
    assert IsUnsignedDecimal(s);
    assert s[0] != '-' && s[0] != '+';
  }

  /** Digits followed by letters ("300s") are not numeric. */
  lemma DigitsThenLettersNotNumeric(d: string, x: string)
    requires IsDigits(d) && |x| > 0 && forall i :: 0 <= i < |x| ==> IsLetter(x[i])
    ensures !IsNumericString(d + x)
  {
    var s := d + x;
    assert s[0] == d[0];
    assert SkipNumericSpace(s) == s;
    assert s[|s| - 1] == x[|x| - 1];
    assert TrimRightNumericSpace(s) == s;
    DigitPrefixOf(d, x);
    assert s[|d|] == x[0];
  }

  /** The decimal numeral of a natural number, without leading zeros. */
  function NatToString(n: nat): (s: string)
    ensures IsDigits(s)
    decreases n
  {
    if n < 10 then [('0' as int + n) as char]
    else NatToString(n / 10) + [('0' as int + n % 10) as char]
  }

  /** Distinct numbers have distinct numerals. */
  lemma {:induction false} NatToStringInjective(a: nat, b: nat)
    requires NatToString(a) == NatToString(b)
    ensures a == b
    decreases a
  {
    var s, t := NatToString(a), NatToString(b);
    if a >= 10 && b >= 10 {
      assert s[..|s| - 1] == NatToString(a / 10);
      assert t[..|t| - 1] == NatToString(b / 10);
      NatToStringInjective(a / 10, b / 10);
    }
  }

  //
  // PCRE anchors
  // ----

  /**
   * The part of `s` that a pattern ending in `$` must match: without the D modifier, `$`
   * also matches just before a final line feed.  For patterns whose character classes
   * never match a line feed, "P matches `s`" is "P's body matches Chomp(s)".
   */
  function Chomp(s: string): (r: string)
    ensures r == s || (r + "\n" == s)
  {
    if |s| > 0 && s[|s| - 1] == '\n' then s[..|s| - 1] else s
  }
}
