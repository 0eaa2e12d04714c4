/**
 * The parts of Python's `str` and sequence semantics that the wizard relies
 * on: `isspace`, `strip`, `split()`, `split('\n')`, `lower`, `startswith`,
 * `s[:n]`, `int(digits)` and `str(n)`.
 */
module PyStrings {

  /** The code points for which Python's `str.isspace()` holds, as inclusive
      ranges; `split()` and `strip()` with no argument break and trim on exactly
      these characters. */
  const SPACE_RANGES: seq<(int, int)> :=
    [(9, 13), (28, 32), (0x85, 0x85), (0xA0, 0xA0), (0x1680, 0x1680),
     (0x2000, 0x200A), (0x2028, 0x2029), (0x202F, 0x202F), (0x205F, 0x205F),
     (0x3000, 0x3000)]

  predicate InRanges(n: int, ranges: seq<(int, int)>) {
    ranges != [] && ((ranges[0].0 <= n <= ranges[0].1) || InRanges(n, ranges[1..]))
  }

  predicate IsSpace(c: char) { InRanges(c as int, SPACE_RANGES) }

  predicate IsDigit(c: char) { '0' <= c <= '9' }

  predicate IsAsciiLetter(c: char) { 'a' <= c <= 'z' || 'A' <= c <= 'Z' }

  /** Word characters of the regular expression `\b` (ASCII letters, digits, underscore). */
  predicate IsWordChar(c: char) { IsAsciiLetter(c) || IsDigit(c) || c == '_' }

  predicate AllDigits(t: string) { forall k :: 0 <= k < |t| ==> IsDigit(t[k]) }

  predicate NoSpace(w: string) { forall k :: 0 <= k < |w| ==> !IsSpace(w[k]) }

  function Min(a: int, b: int): int { if a <= b then a else b }

  function Max(a: int, b: int): int { if a >= b then a else b }

  /** Python's `s[:n]`: a negative bound counts from the end. */
  function SliceTo<T>(s: seq<T>, n: int): (r: seq<T>)
    ensures n >= 0 ==> |r| == Min(n, |s|)
    ensures n < 0 ==> |r| == Max(0, |s| + n)
    ensures r == s[..|r|]
  {
    if n >= 0 then s[..Min(n, |s|)] else s[..Max(0, |s| + n)]
  }

  // ---- strip ----------------------------------------------------------------

  /** `s.lstrip()`: the suffix left after the leading whitespace. */
  function TrimLeft(s: string): (r: string)
    ensures |r| <= |s| && r == s[|s| - |r|..]
    ensures r == [] || !IsSpace(r[0])
  {
    if s != [] && IsSpace(s[0]) then TrimLeft(s[1..]) else s
  }

  /** Everything `lstrip` removes is whitespace. */
  lemma {:induction false} TrimLeftRemovesSpace(s: string)
    ensures forall k :: 0 <= k < |s| - |TrimLeft(s)| ==> IsSpace(s[k])
  {
    if s != [] && IsSpace(s[0]) {
      TrimLeftRemovesSpace(s[1..]);
      forall k | 1 <= k < |s| - |TrimLeft(s)|
        ensures IsSpace(s[k])
      {
        assert s[k] == s[1..][k - 1];
      }
    }
  }

  /** `s.rstrip()`: the prefix left before the trailing whitespace. */
  function TrimRight(s: string): (r: string)
    ensures |r| <= |s| && r == s[..|r|]
    ensures r == [] || !IsSpace(r[|r| - 1])
  {
    if s != [] && IsSpace(s[|s| - 1]) then TrimRight(s[..|s| - 1]) else s
  }

  /** Everything `rstrip` removes is whitespace. */
  lemma {:induction false} TrimRightRemovesSpace(s: string)
    ensures forall k :: |TrimRight(s)| <= k < |s| ==> IsSpace(s[k])
  {
    if s != [] && IsSpace(s[|s| - 1]) {
      TrimRightRemovesSpace(s[..|s| - 1]);
      forall k | |TrimRight(s)| <= k < |s| - 1
        ensures IsSpace(s[k])
      {
        assert s[k] == s[..|s| - 1][k];
      }
    }
  }

  /** `r` is the piece of `s` starting at `a`, with only whitespace around it. */
  predicate StrippedAt(s: string, a: int, r: string) {
    0 <= a <= |s| - |r| && r == s[a..a + |r|]
    && (forall k :: 0 <= k < a ==> IsSpace(s[k]))
    && (forall k :: a + |r| <= k < |s| ==> IsSpace(s[k]))
  }

  /** `s.strip()`: neither end of the result is whitespace. */
  function Strip(s: string): (r: string)
    ensures |r| <= |s|
    ensures r == [] || (!IsSpace(r[0]) && !IsSpace(r[|r| - 1]))
  {
    TrimRight(TrimLeft(s))
  }

  /** What `strip` removes: `Strip(s)` is a contiguous piece of `s` with only
      whitespace around it. */
  lemma StripIsTrimmedPiece(s: string)
    ensures exists a :: StrippedAt(s, a, Strip(s))
  {
    var t := TrimLeft(s);
    var r := TrimRight(t);
    TrimLeftRemovesSpace(s);
    TrimRightRemovesSpace(t);
    var a := |s| - |t|;
    assert r == Strip(s);
    assert r == s[a..a + |r|];
    assert StrippedAt(s, a, r);
  }

  // ---- split() --------------------------------------------------------------

  /** The longest prefix of `t` without whitespace. */
  function TakeWord(t: string): (w: string)
    ensures |w| <= |t| && w == t[..|w|]
    ensures NoSpace(w)
    ensures t != [] && !IsSpace(t[0]) ==> |w| >= 1
  {
    if t != [] && !IsSpace(t[0]) then [t[0]] + TakeWord(t[1..]) else []
  }

  /** `TakeWord` stops only at the end of `t` or at whitespace. */
  lemma {:induction false} TakeWordMaximal(t: string)
    ensures |TakeWord(t)| == |t| || IsSpace(t[|TakeWord(t)|])
  {
    if t != [] && !IsSpace(t[0]) {
      TakeWordMaximal(t[1..]);
    }
  }

  /** `s.split()`: the maximal runs of non-whitespace characters, in order. */
  function Words(s: string): (ws: seq<string>)
    ensures forall w <- ws :: w != [] && NoSpace(w)
    decreases |s|
  {
    if s == [] then []
    else if IsSpace(s[0]) then Words(s[1..])
    else
      var w := TakeWord(s);
      [w] + Words(s[|w|..])
  }

  /** A non-whitespace prefix of `t` followed by whitespace or the end is `TakeWord(t)`. */
  lemma {:induction false} TakeWordOfRun(t: string, n: nat)
    requires n <= |t| && NoSpace(t[..n]) && (n == |t| || IsSpace(t[n]))
    ensures TakeWord(t) == t[..n]
  {
    if n > 0 {
      assert t[..n][0] == t[0];
      assert t[1..][..n - 1] == t[..n][1..];
      TakeWordOfRun(t[1..], n - 1);
    }
  }

  /** `s[a..b]` is a maximal run of non-whitespace characters of `s`. */
  predicate WordRun(s: string, a: nat, b: nat) {
    a < b <= |s| && NoSpace(s[a..b])
    && (a == 0 || IsSpace(s[a - 1])) && (b == |s| || IsSpace(s[b]))
  }

  /** The first word of `s.split()` is the first maximal non-whitespace run of
      `s`; the remaining words are those of the text after it. */
  lemma {:induction false} WordsFirst(s: string, a: nat, b: nat)
    requires WordRun(s, a, b) && forall k :: 0 <= k < a ==> IsSpace(s[k])
    ensures Words(s) == [s[a..b]] + Words(s[b..])
    decreases a
  {
    if a == 0 {
      assert s[0] == s[a..b][0];
      assert s[..b] == s[a..b];
      TakeWordOfRun(s, b);
    } else {
      WordRunShift(s, a, b);
      WordsFirst(s[1..], a - 1, b - 1);
      assert s[1..][a - 1..b - 1] == s[a..b];
      assert s[1..][b - 1..] == s[b..];
    }
  }

  /** Dropping a leading character moves a later word run one place left. */
  lemma WordRunShift(s: string, a: nat, b: nat)
    requires WordRun(s, a, b) && a > 0 && forall k :: 0 <= k < a ==> IsSpace(s[k])
    ensures WordRun(s[1..], a - 1, b - 1) && forall k :: 0 <= k < a - 1 ==> IsSpace(s[1..][k])
  {
    assert s[1..][a - 1..b - 1] == s[a..b];
  }

  /** `s.split()` is empty exactly when `s` is all whitespace. */
  lemma {:induction false} WordsNone(s: string)
    ensures Words(s) == [] <==> forall k :: 0 <= k < |s| ==> IsSpace(s[k])
  {
    if s != [] && IsSpace(s[0]) {
      WordsNone(s[1..]);
      assert forall k :: 1 <= k < |s| ==> s[k] == s[1..][k - 1];
    }
  }

  // ---- split(sep) -----------------------------------------------------------

  /** `s.split(sep)` for a one-character separator: always at least one part,
      and no part holds the separator. */
  function SplitOn(s: string, sep: char): (parts: seq<string>)
    ensures |parts| >= 1
    ensures forall k :: 0 <= k < |parts| ==> sep !in parts[k]
  {
    if s == [] then [""]
    else
      var rest := SplitOn(s[1..], sep);
      if s[0] == sep then [""] + rest else [[s[0]] + rest[0]] + rest[1..]
  }

  /** `sep.join(parts)`, the inverse of `SplitOn`. */
  function JoinWith(parts: seq<string>, sep: char): string {
    if parts == [] then ""
    else if |parts| == 1 then parts[0]
    else parts[0] + [sep] + JoinWith(parts[1..], sep)
  }

  lemma {:induction false} JoinSplit(s: string, sep: char)
    ensures JoinWith(SplitOn(s, sep), sep) == s
  {
    if s != [] {
      var rest := SplitOn(s[1..], sep);
      JoinSplit(s[1..], sep);
      if s[0] == sep {
        assert SplitOn(s, sep) == [""] + rest;
        assert ([""] + rest)[1..] == rest;
      } else {
        var parts := [[s[0]] + rest[0]] + rest[1..];
        assert SplitOn(s, sep) == parts;
        if |rest| == 1 {
          assert JoinWith(rest, sep) == rest[0];
        } else {
          assert JoinWith(rest, sep) == rest[0] + [sep] + JoinWith(rest[1..], sep);
          assert parts[1..] == rest[1..];
        }
      }
    }
  }

  // ---- lower / startswith ---------------------------------------------------

  function LowerChar(c: char): (d: char)
    ensures IsAsciiLetter(c) ==> 'a' <= d <= 'z'
    ensures !('A' <= c <= 'Z') ==> d == c
  {
    if 'A' <= c <= 'Z' then (c as int + 32) as char else c
  }

  /** `s.lower()`, on ASCII letters. */
  function Lower(s: string): (r: string)
    ensures |r| == |s| && forall k :: 0 <= k < |s| ==> r[k] == LowerChar(s[k])
  {
    seq(|s|, k requires 0 <= k < |s| => LowerChar(s[k]))
  }

  predicate StartsWith(s: string, prefix: string) {
    |prefix| <= |s| && s[..|prefix|] == prefix
  }

  // ---- int() and str() on naturals -----------------------------------------

  function DigitChar(d: nat): (c: char)
    requires d < 10
    ensures IsDigit(c)
  {
    (('0' as int) + d) as char
  }

  function DigitValue(c: char): (d: nat)
    requires IsDigit(c)
    ensures d < 10
  {
    c as int - '0' as int
  }

  /** `int(t)` for a string of ASCII digits (leading zeros allowed). */
  function DigitsValue(t: string): nat
    requires AllDigits(t)
  {
    if t == [] then 0 else 10 * DigitsValue(t[..|t| - 1]) + DigitValue(t[|t| - 1])
  }

  /** `str(n)` for a natural number. */
  function NatToString(n: nat): (s: string)
    ensures |s| >= 1 && AllDigits(s)
    ensures |s| == 1 || s[0] != '0'
  {
    if n < 10 then [DigitChar(n)] else NatToString(n / 10) + [DigitChar(n % 10)]
  }

  lemma {:induction false} NatToStringRoundTrip(n: nat)
    ensures DigitsValue(NatToString(n)) == n
  {
    if n >= 10 {
      var s := NatToString(n);
      NatToStringRoundTrip(n / 10);
      assert s[..|s| - 1] == NatToString(n / 10);
    }
  }

  /** One, two and three digits are worth at most 9, 99 and 999. */
  lemma {:induction false} DigitsValueBound(t: string)
    requires AllDigits(t)
    ensures |t| <= 1 ==> DigitsValue(t) <= 9
    ensures |t| <= 2 ==> DigitsValue(t) <= 99
    ensures |t| <= 3 ==> DigitsValue(t) <= 999
  {
    if t != [] {
      DigitsValueBound(t[..|t| - 1]);
    }
  }
}
