/**
 * The handful of Python string operations the workshop code relies on, restricted to
 * ASCII: `str.upper`, `str.replace(c, "")`, `str.strip`, `str.split(maxsplit=1)`,
 * the `in` substring test and `str(n)` for a non-negative integer.
 */
module Text {

  predicate IsDigit(c: char) { '0' <= c <= '9' }

  predicate IsUpper(c: char) { 'A' <= c <= 'Z' }

  predicate IsLower(c: char) { 'a' <= c <= 'z' }

  /**
   * The ASCII characters Python's `str.split()` and `str.strip()` treat as whitespace: space,
   * tab, line feed, vertical tab, form feed, carriage return and the four separators 0x1C-0x1F.
   */
  predicate IsSpace(c: char) {
    c == ' ' || c == '\t' || c == '\n' || c == '\r' || c == '\U{000B}' || c == '\U{000C}' ||
    ('\U{001C}' <= c <= '\U{001F}')
  }

  predicate AllDigits(s: string) {
    forall i :: 0 <= i < |s| ==> IsDigit(s[i])
  }

  function DigitValue(c: char): (d: nat)
    requires IsDigit(c)
    ensures d < 10
  {
    c as int - '0' as int
  }

  function DigitChar(d: nat): (c: char)
    requires d < 10
    ensures IsDigit(c) && DigitValue(c) == d
  {
    ('0' as int + d) as char
  }

  /** `c.upper()` for an ASCII letter; every other character is left as it is. */
  function UpperChar(c: char): (u: char)
    ensures !IsLower(u)
    ensures IsLower(c) ==> IsUpper(u)
    ensures !IsLower(c) ==> u == c
  {
    if IsLower(c) then (c as int - 32) as char else c
  }

  /** `s.upper()`: no lower-case letter survives and nothing else is touched. */
  function Upper(s: string): (r: string)
    ensures |r| == |s|
    ensures forall i :: 0 <= i < |r| ==> !IsLower(r[i])
    ensures forall i :: 0 <= i < |s| && !IsLower(s[i]) ==> r[i] == s[i]
  {
    seq(|s|, i requires 0 <= i < |s| => UpperChar(s[i]))
  }

  /** `s.replace(c, "")`: every occurrence of `c` is dropped, every other character kept. */
  function Remove(s: string, c: char): (r: string)
    ensures c !in r
    ensures forall x :: x in r <==> x in s && x != c
    ensures |r| <= |s|
  {
    if s == [] then [] else (if s[0] == c then [] else [s[0]]) + Remove(s[1..], c)
  }

  lemma {:induction false} RemoveAppend(a: string, b: string, c: char)
    ensures Remove(a + b, c) == Remove(a, c) + Remove(b, c)
    decreases |a|
  {
    if a == [] {
      assert a + b == b;
    } else {
      var head := if a[0] == c then [] else [a[0]];
      assert (a + b)[0] == a[0] && (a + b)[1..] == a[1..] + b;
      assert Remove(a + b, c) == head + Remove(a[1..] + b, c);
      RemoveAppend(a[1..], b, c);
      assert Remove(a, c) == head + Remove(a[1..], c);
    }
  }

  lemma {:induction false} RemoveAbsent(s: string, c: char)
    requires c !in s
    ensures Remove(s, c) == s
    decreases |s|
  {
    if s != [] {
      assert s == [s[0]] + s[1..];
      RemoveAbsent(s[1..], c);
    }
  }

  lemma {:induction false} UpperAppend(a: string, b: string)
    ensures Upper(a + b) == Upper(a) + Upper(b)
  {
    var u := Upper(a + b);
    var v := Upper(a) + Upper(b);
    assert |u| == |v|;
    forall i | 0 <= i < |u|
      ensures u[i] == v[i]
    {
      if i < |a| {
        assert (a + b)[i] == a[i];
      } else {
        assert (a + b)[i] == b[i - |a|];
      }
    }
  }

  /** The first index at or after `from` that does not hold whitespace (or `|s|`). */
  function SkipSpaces(s: string, from: nat): (j: nat)
    requires from <= |s|
    ensures from <= j <= |s|
    ensures forall i :: from <= i < j ==> IsSpace(s[i])
    ensures j < |s| ==> !IsSpace(s[j])
    decreases |s| - from
  {
    if from < |s| && IsSpace(s[from]) then SkipSpaces(s, from + 1) else from
  }

  /** The first index at or after `from` that holds whitespace (or `|s|`). */
  function SkipWord(s: string, from: nat): (j: nat)
    requires from <= |s|
    ensures from <= j <= |s|
    ensures forall i :: from <= i < j ==> !IsSpace(s[i])
    ensures j < |s| ==> IsSpace(s[j])
    decreases |s| - from
  {
    if from < |s| && !IsSpace(s[from]) then SkipWord(s, from + 1) else from
  }

  /** The length of `s[..end]` once trailing whitespace is dropped. */
  function TrimmedEnd(s: string, end: nat): (j: nat)
    requires end <= |s|
    ensures j <= end
    ensures forall i :: j <= i < end ==> IsSpace(s[i])
    ensures j > 0 ==> !IsSpace(s[j - 1])
    decreases end
  {
    if end > 0 && IsSpace(s[end - 1]) then TrimmedEnd(s, end - 1) else end
  }

  /**
   * `s.strip()`: the slice between the leading and the trailing whitespace; it neither
   * starts nor ends with whitespace, and only whitespace was cut away.
   */
  function Strip(s: string): (r: string)
    ensures r == [] || (!IsSpace(r[0]) && !IsSpace(r[|r| - 1]))
    ensures r == [] <==> forall i :: 0 <= i < |s| ==> IsSpace(s[i])
  {
    var a := SkipSpaces(s, 0);
    var b := TrimmedEnd(s, |s|);
    if b <= a then
      assert forall i :: 0 <= i < |s| ==> IsSpace(s[i]) by {
        forall i | 0 <= i < |s| ensures IsSpace(s[i]) {
          if a <= i { assert b <= i; }
        }
      }
      []
    else
      s[a..b]
  }

  /**
   * `s.split(maxsplit=1)`: the first whitespace-delimited word and, when anything
   * non-blank follows it, the rest of the string from its next non-blank character.
   */
  function SplitOnce(s: string): (r: seq<string>)
    ensures |r| <= 2
    ensures r == [] <==> forall i :: 0 <= i < |s| ==> IsSpace(s[i])
    ensures |r| >= 1 ==> r[0] != [] && forall i :: 0 <= i < |r[0]| ==> !IsSpace(r[0][i])
    ensures |r| == 2 ==> r[1] != [] && !IsSpace(r[1][0])
  {
    var a := SkipSpaces(s, 0);
    if a == |s| then []
    else
      var b := SkipWord(s, a);
      var c := SkipSpaces(s, b);
      assert a < b;
      if c == |s| then [s[a..b]] else [s[a..b], s[c..]]
  }

  /** `s` holds at least two whitespace-separated words. */
  predicate HasTwoWords(s: string) {
    exists i, j, k :: 0 <= i < j < k < |s| && !IsSpace(s[i]) && IsSpace(s[j]) && !IsSpace(s[k])
  }

  /** `split(maxsplit=1)` yields two parts exactly when there are at least two words. */
  lemma SplitOnceTwoWords(s: string)
    ensures |SplitOnce(s)| == 2 <==> HasTwoWords(s)
  {
    var a := SkipSpaces(s, 0);
    if a < |s| {
      var b := SkipWord(s, a);
      var c := SkipSpaces(s, b);
      if c < |s| {
        assert b < c;
        assert !IsSpace(s[a]) && IsSpace(s[b]) && !IsSpace(s[c]);
      } else {
        forall i, j, x | 0 <= i < j < x < |s| && !IsSpace(s[i]) && IsSpace(s[j])
          ensures IsSpace(s[x])
        {
          assert b <= j;
        }
      }
    }
  }

  /** `needle in haystack` for strings: a contiguous occurrence somewhere. */
  function Contains(haystack: string, needle: string): bool
    decreases |haystack|
  {
    needle <= haystack || (haystack != [] && Contains(haystack[1..], needle))
  }

  lemma {:induction false} ContainsAt(haystack: string, needle: string, i: nat)
    requires i + |needle| <= |haystack| && haystack[i..i + |needle|] == needle
    ensures Contains(haystack, needle)
    decreases i
  {
    if i > 0 {
      assert haystack[1..][i - 1..i - 1 + |needle|] == needle;
      ContainsAt(haystack[1..], needle, i - 1);
    }
  }

  /** An occurrence found by `Contains` really is a slice of the haystack. */
  lemma {:induction false} ContainsWitness(haystack: string, needle: string) returns (i: nat)
    requires Contains(haystack, needle)
    ensures i + |needle| <= |haystack| && haystack[i..i + |needle|] == needle
    decreases |haystack|
  {
    if needle <= haystack {
      i := 0;
    } else {
      var j := ContainsWitness(haystack[1..], needle);
      i := j + 1;
    }
  }

  /** The value of a string of decimal digits. */
  function DigitsValue(s: string): nat
    requires AllDigits(s)
    decreases |s|
  {
    if s == [] then 0 else DigitsValue(s[..|s| - 1]) * 10 + DigitValue(s[|s| - 1])
  }

  function Pow10(k: nat): (p: nat)
    ensures p >= 1
  {
    if k == 0 then 1 else 10 * Pow10(k - 1)
  }

  /** `str(n)` for a non-negative integer: decimal digits without leading zeros. */
  function NatToString(n: nat): (s: string)
    ensures 1 <= |s|
    ensures AllDigits(s)
    ensures |s| > 1 ==> s[0] != '0'
    ensures DigitsValue(s) == n
    decreases n
  {
    if n < 10 then [DigitChar(n)]
    else
      var p := NatToString(n / 10);
      var s := p + [DigitChar(n % 10)];
      assert s[..|s| - 1] == p;
      s
  }

  /** `str(n)` has exactly k digits when 10^(k-1) <= n < 10^k. */
  lemma {:induction false} NatToStringLength(n: nat, k: nat)
    requires 1 <= k && (k == 1 || Pow10(k - 1) <= n) && n < Pow10(k)
    ensures |NatToString(n)| == k
    decreases k
  {
    if k > 1 {
      PowMonotone(1, k - 1);
      NatToStringLength(n / 10, k - 1);
    } else {
      assert n < 10;
    }
  }

  lemma {:induction false} PowMonotone(a: nat, b: nat)
    requires a <= b
    ensures Pow10(a) <= Pow10(b)
    decreases b
  {
    if a < b {
      PowMonotone(a, b - 1);
    }
  }
}
