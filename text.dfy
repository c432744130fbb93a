/** The handful of Python string operations the radio player relies on. */
module Text {

  /** ASCII lowercasing of one character (the model's stand-in for `str.lower`). */
  function LowerChar(c: char): char {
    if 'A' <= c <= 'Z' then (c as int - 'A' as int + 'a' as int) as char else c
  }

  /** `s.lower()`, restricted to ASCII letters. */
  function Lower(s: string): (r: string)
    ensures |r| == |s|
    ensures forall i :: 0 <= i < |s| ==> r[i] == LowerChar(s[i])
  {
    if s == [] then [] else [LowerChar(s[0])] + Lower(s[1..])
  }

  /** A string without capitals is its own lowercase form. */
  lemma LowerNoCapitals(s: string)
    requires forall i :: 0 <= i < |s| ==> !('A' <= s[i] <= 'Z')
    ensures Lower(s) == s
  {
  }

  /** `needle in hay`: `needle` occurs as a contiguous block of `hay`. */
  predicate Contains(hay: string, needle: string)
    decreases |hay|
  {
    needle <= hay || (hay != [] && Contains(hay[1..], needle))
  }

  /** Occurrence of `needle` at position `i` of `hay`. */
  predicate OccursAt(hay: string, needle: string, i: int) {
    0 <= i && i + |needle| <= |hay| && hay[i..i + |needle|] == needle
  }

  /** An occurrence anywhere makes `Contains` hold. */
  lemma {:induction false} OccursAtContains(hay: string, needle: string, i: int)
    requires OccursAt(hay, needle, i)
    ensures Contains(hay, needle)
    decreases i
  {
    if i == 0 {
      assert hay[..|needle|] == needle;
    } else {
      assert hay[1..][i - 1..i - 1 + |needle|] == hay[i..i + |needle|];
      OccursAtContains(hay[1..], needle, i - 1);
    }
  }

  /** `Contains` only holds where the needle occurs at some position. */
  lemma {:induction false} ContainsOccursAt(hay: string, needle: string) returns (i: int)
    requires Contains(hay, needle)
    ensures OccursAt(hay, needle, i)
    decreases |hay|
  {
    if needle <= hay {
      i := 0;
    } else {
      var j := ContainsOccursAt(hay[1..], needle);
      assert hay[j + 1..j + 1 + |needle|] == hay[1..][j..j + |needle|];
      i := j + 1;
    }
  }

  /** `Contains` is the usual substring relation: some position holds the needle. */
  lemma ContainsIsSubstring(hay: string, needle: string)
    ensures Contains(hay, needle) <==> exists i :: OccursAt(hay, needle, i)
  {
    if Contains(hay, needle) {
      var i := ContainsOccursAt(hay, needle);
    }
    if exists i :: OccursAt(hay, needle, i) {
      var i :| OccursAt(hay, needle, i);
      OccursAtContains(hay, needle, i);
    }
  }

  /** `s.endswith(suffix)`. */
  predicate EndsWith(s: string, suffix: string) {
    |suffix| <= |s| && s[|s| - |suffix|..] == suffix
  }

  /** `s.startswith(prefix)`. */
  predicate StartsWith(s: string, prefix: string) {
    prefix <= s
  }

  /** `s.lstrip(c)` for a single character `c`: every leading `c` is removed. */
  function StripLeading(s: string, c: char): (r: string)
    ensures |r| <= |s|
  {
    if s != [] && s[0] == c then StripLeading(s[1..], c) else s
  }

  /** `k` copies of the character `c`. */
  function Repeat(c: char, k: nat): (r: string)
    ensures |r| == k
  {
    if k == 0 then [] else [c] + Repeat(c, k - 1)
  }

  lemma RepeatCons(c: char, k: nat, r: string)
    ensures [c] + (Repeat(c, k) + r) == Repeat(c, k + 1) + r
  {
    assert Repeat(c, k + 1) == [c] + Repeat(c, k);
  }

  /** What `StripLeading` removes is exactly a run of `c`, and what remains does not start with `c`. */
  lemma {:induction false} StripLeadingRemovesRun(s: string, c: char)
    ensures var r := StripLeading(s, c);
      (r == [] || r[0] != c) && s == Repeat(c, |s| - |r|) + r
    decreases |s|
  {
    if s != [] && s[0] == c {
      var t := s[1..];
      StripLeadingRemovesRun(t, c);
      var r := StripLeading(t, c);
      var k := |t| - |r|;
      assert StripLeading(s, c) == r;
      assert s == [c] + t;
      assert |s| - |r| == k + 1;
      RepeatCons(c, k, r);
      assert s == Repeat(c, |s| - |StripLeading(s, c)|) + StripLeading(s, c);
    } else {
      assert StripLeading(s, c) == s;
      assert Repeat(c, 0) + s == s;
    }
  }

  /** Decimal digits of a natural number, as `str(n)` prints them. */
  function NatToString(n: nat): (r: string)
    ensures |r| > 0
    ensures forall i :: 0 <= i < |r| ==> '0' <= r[i] <= '9'
    decreases n
  {
    if n < 10 then [Digit(n)] else NatToString(n / 10) + [Digit(n % 10)]
  }

  function Digit(d: nat): (c: char)
    requires d < 10
    ensures '0' <= c <= '9'
  {
    ('0' as int + d) as char
  }

  /** `str(i)` for an integer: a minus sign before the digits of a negative number. */
  function IntToString(i: int): string {
    if i < 0 then "-" + NatToString(-i) else NatToString(i)
  }

  /** The value of a string of decimal digits. */
  function DigitsValue(s: string): nat
    requires forall i :: 0 <= i < |s| ==> '0' <= s[i] <= '9'
  {
    if s == [] then 0 else DigitsValue(s[..|s| - 1]) * 10 + (s[|s| - 1] as int - '0' as int)
  }

  /** Reading back the digits `NatToString` prints gives the number. */
  lemma {:induction false} NatToStringRoundTrip(n: nat)
    ensures DigitsValue(NatToString(n)) == n
    decreases n
  {
    if n >= 10 {
      NatToStringRoundTrip(n / 10);
      var s := NatToString(n);
      assert s[..|s| - 1] == NatToString(n / 10);
    }
  }
}
