/**
 * The few JavaScript string operations the chat page relies on:
 * `trim`, `length` (in UTF-16 code units), `startsWith`, `endsWith`
 * and the decimal rendering of a non-negative integer in a template literal.
 */
module JsStrings {

  /** The code points `String.prototype.trim` removes: ECMAScript's WhiteSpace and LineTerminator sets. */
  predicate IsTrimmable(c: char) {
    || c == '\t' || c == '\n' || c == '\U{B}' || c == '\U{C}' || c == '\r' || c == ' '
    || c == '\U{A0}' || c == '\U{1680}' || ('\U{2000}' <= c <= '\U{200A}')
    || c == '\U{2028}' || c == '\U{2029}' || c == '\U{202F}' || c == '\U{205F}'
    || c == '\U{3000}' || c == '\U{FEFF}'
  }

  /** Code points outside the Basic Multilingual Plane take two UTF-16 code units (a surrogate pair). */
  predicate IsAstral(c: char) {
    c as int >= 0x1_0000
  }

  /** What `s.length` reports in JavaScript: the number of UTF-16 code units of `s`. */
  function Utf16Length(s: string): (n: nat)
    ensures |s| <= n <= 2 * |s|
    ensures n == |s| <==> forall i :: 0 <= i < |s| ==> !IsAstral(s[i])
    ensures |s| == 1 ==> n == (if IsAstral(s[0]) then 2 else 1)
  {
    if s == [] then 0
    else
      var rest := Utf16Length(s[1..]);
      assert forall i :: 1 <= i < |s| ==> s[i] == s[1..][i - 1];
      (if IsAstral(s[0]) then 2 else 1) + rest
  }

  /**
   * `length` adds up over concatenation. With the one-code-point values above this
   * fixes `length` as the number of code points plus the number of astral ones.
   */
  lemma {:induction false} Utf16LengthAppend(a: string, b: string)
    ensures Utf16Length(a + b) == Utf16Length(a) + Utf16Length(b)
  {
    if a == [] {
      assert a + b == b;
    } else {
      assert (a + b)[0] == a[0] && (a + b)[1..] == a[1..] + b;
      Utf16LengthAppend(a[1..], b);
    }
  }

  /** `s.startsWith(p)`. */
  predicate StartsWith(s: string, p: string) {
    |p| <= |s| && s[..|p|] == p
  }

  /** `s.endsWith(p)`. */
  predicate EndsWith(s: string, p: string) {
    |p| <= |s| && s[|s| - |p|..] == p
  }

  /** The index of the first code point at or after `i` that `trim` keeps, or `|s|` if there is none. */
  function KeepFrom(s: string, i: nat): (j: nat)
    requires i <= |s|
    ensures i <= j <= |s|
    ensures forall k :: i <= k < j ==> IsTrimmable(s[k])
    ensures j == |s| || !IsTrimmable(s[j])
    decreases |s| - i
  {
    if i < |s| && IsTrimmable(s[i]) then KeepFrom(s, i + 1) else i
  }

  /** The index just past the last code point in `s[lo..j]` that `trim` keeps, or `lo` if there is none. */
  function KeepUntil(s: string, lo: nat, j: nat): (h: nat)
    requires lo <= j <= |s|
    ensures lo <= h <= j
    ensures forall k :: h <= k < j ==> IsTrimmable(s[k])
    ensures h == lo || !IsTrimmable(s[h - 1])
    decreases j
  {
    if lo < j && IsTrimmable(s[j - 1]) then KeepUntil(s, lo, j - 1) else j
  }

  /**
   * `r` is `s` with trimmable code points removed at both ends: `r` sits in `s` at offset `lo`,
   * everything before and after it is trimmable, and `r` neither starts nor ends with a trimmable one.
   */
  ghost predicate TrimmedAt(s: string, lo: nat, r: string) {
    && lo + |r| <= |s|
    && r == s[lo..lo + |r|]
    && (forall i :: 0 <= i < lo ==> IsTrimmable(s[i]))
    && (forall i :: lo + |r| <= i < |s| ==> IsTrimmable(s[i]))
    && (r == [] || (!IsTrimmable(r[0]) && !IsTrimmable(r[|r| - 1])))
  }

  /** `s.trim()`: `s` with every leading and trailing WhiteSpace or LineTerminator removed. */
  function Trim(s: string): (r: string)
    ensures |r| <= |s|
    ensures TrimmedAt(s, KeepFrom(s, 0), r)
  {
    var lo := KeepFrom(s, 0);
    s[lo..KeepUntil(s, lo, |s|)]
  }

  /** `TrimmedAt` pins the trim down completely: whatever satisfies it is `Trim(s)`. */
  lemma TrimUnique(s: string, lo: nat, r: string)
    requires TrimmedAt(s, lo, r)
    ensures r == Trim(s)
  {
    var lo' := KeepFrom(s, 0);
    var hi' := KeepUntil(s, lo', |s|);
    if r == [] {
      forall i | 0 <= i < |s|
        ensures IsTrimmable(s[i])
      {
        if i >= lo {
          assert lo + |r| <= i;
        }
      }
      assert lo' == |s|;
    } else {
      assert s[lo] == r[0];
      assert lo' == lo;
      assert s[lo + |r| - 1] == r[|r| - 1];
      assert hi' == lo + |r|;
    }
  }

  /** Trimming twice is trimming once. */
  lemma TrimIdempotent(s: string)
    ensures Trim(Trim(s)) == Trim(s)
  {
    var r := Trim(s);
    assert r[0..|r|] == r;
    TrimUnique(r, 0, r);
  }

  /** A string made only of trimmable code points trims to the empty string. */
  lemma TrimBlank(s: string)
    requires forall i :: 0 <= i < |s| ==> IsTrimmable(s[i])
    ensures Trim(s) == []
  {
    TrimUnique(s, |s|, []);
  }

  function DigitChar(d: nat): (c: char)
    requires d < 10
    ensures '0' <= c <= '9' && c as int - '0' as int == d
  {
    "0123456789"[d]
  }

  predicate IsDigits(s: string) {
    forall i :: 0 <= i < |s| ==> '0' <= s[i] <= '9'
  }

  /** The number a string of decimal digits denotes. */
  function DigitsValue(s: string): nat
    requires IsDigits(s)
  {
    if s == [] then 0 else DigitsValue(s[..|s| - 1]) * 10 + (s[|s| - 1] as int - '0' as int)
  }

  /** `${n}` for a non-negative integer: its shortest decimal digit string, which denotes `n`. */
  function Decimal(n: nat): (s: string)
    ensures |s| >= 1 && IsDigits(s)
    ensures |s| > 1 ==> s[0] != '0'
    ensures DigitsValue(s) == n
  {
    if n < 10 then [DigitChar(n)]
    else
      var prefix := Decimal(n / 10);
      var s := prefix + [DigitChar(n % 10)];
      assert s[..|s| - 1] == prefix;
      s
  }
}
