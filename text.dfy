/**
 * Character strings with the meaning Python's `str` operations give them on
 * ASCII text: prefixes and suffixes, slicing, `strip`, `replace`, `int()` and
 * `str()` of integers, and the code-point order used by `sorted`. Whitespace
 * and digits are the ASCII ones only; Python also accepts other Unicode
 * whitespace and decimal digits.
 */
module Text {
  import opened Wrappers

  /** `s.startswith(p)` */
  predicate StartsWith(s: string, p: string) {
    |p| <= |s| && s[..|p|] == p
  }

  /** `s.endswith(p)` */
  predicate EndsWith(s: string, p: string) {
    |p| <= |s| && s[|s| - |p|..] == p
  }

  /** `t` occurs in `s` starting at index `i`. */
  predicate OccursAt(t: string, s: string, i: int) {
    0 <= i && i + |t| <= |s| && s[i..i + |t|] == t
  }

  /** `t in s` */
  predicate Occurs(t: string, s: string) {
    exists i :: 0 <= i <= |s| && OccursAt(t, s, i)
  }

  lemma OccursInMiddle(a: string, t: string, b: string)
    ensures OccursAt(t, a + t + b, |a|) && Occurs(t, a + t + b)
  {
    var s := a + t + b;
    assert s[|a|..|a| + |t|] == t;
    assert OccursAt(t, s, |a|);
  }

  lemma OccursAtEnd(a: string, t: string)
    ensures OccursAt(t, a + t, |a|)
  {
    assert (a + t)[|a|..|a| + |t|] == t;
  }

  lemma OccursShift(a: string, b: string, t: string, i: int)
    requires OccursAt(t, b, i)
    ensures OccursAt(t, a + b, |a| + i) && Occurs(t, a + b)
  {
    assert (a + b)[|a| + i..|a| + i + |t|] == b[i..i + |t|];
    assert OccursAt(t, a + b, |a| + i);
  }

  /** `s[:n]`: at most the first `n` characters. */
  function Take(s: string, n: nat): (r: string)
    ensures |r| <= n && StartsWith(s, r)
    ensures |s| <= n ==> r == s
    ensures |s| > n ==> |r| == n
  {
    if |s| <= n then s else s[..n]
  }

  /** The characters `str.isspace` accepts among the first 128 code points. */
  predicate IsSpace(c: char) {
    c == ' ' || (9 <= c as int <= 13) || (28 <= c as int <= 31)
  }

  function StripLeft(s: string): (r: string)
    ensures |r| <= |s|
    ensures r == [] || !IsSpace(r[0])
    decreases |s|
  {
    if |s| > 0 && IsSpace(s[0]) then StripLeft(s[1..]) else s
  }

  function StripRight(s: string): (r: string)
    ensures |r| <= |s|
    ensures r == [] || !IsSpace(r[|r| - 1])
    decreases |s|
  {
    if |s| > 0 && IsSpace(s[|s| - 1]) then StripRight(s[..|s| - 1]) else s
  }

  /** `s.strip()` */
  function Strip(s: string): string {
    StripRight(StripLeft(s))
  }

  lemma StripNoSpaceEnds(s: string)
    requires s != [] && !IsSpace(s[0]) && !IsSpace(s[|s| - 1])
    ensures Strip(s) == s
  {
  }

  /** `s.split(sep)[0]`: everything before the first `sep`. */
  function TakeUntil(s: string, sep: char): (r: string)
    ensures StartsWith(s, r) && sep !in r
    ensures |r| < |s| ==> s[|r|] == sep
    decreases |s|
  {
    if s == [] || s[0] == sep then [] else [s[0]] + TakeUntil(s[1..], sep)
  }

  lemma {:induction false} TakeUntilAppend(a: string, b: string, sep: char)
    requires sep !in a && b != [] && b[0] == sep
    ensures TakeUntil(a + b, sep) == a
    decreases |a|
  {
    if a == [] {
      assert a + b == b;
    } else {
      assert (a + b)[1..] == a[1..] + b;
      TakeUntilAppend(a[1..], b, sep);
    }
  }

  /** `pat` does not occur anywhere in `s`. */
  predicate Free(s: string, pat: string) {
    forall i :: 0 <= i <= |s| ==> !OccursAt(pat, s, i)
  }

  /** `s.replace(pat, '')`: every occurrence of `pat`, scanning left to right, removed. */
  function RemoveAll(s: string, pat: string): (r: string)
    requires pat != []
    ensures |r| <= |s|
    decreases |s|
  {
    if |s| < |pat| then s
    else if s[..|pat|] == pat then RemoveAll(s[|pat|..], pat)
    else [s[0]] + RemoveAll(s[1..], pat)
  }

  /**
   * Removing a pattern that the text does not contain, from the text with the
   * pattern appended once, gives the text back, as long as the pattern's first
   * character does not reappear inside the pattern (".zip" qualifies).
   */
  lemma {:induction false} RemoveAppended(base: string, pat: string)
    requires pat != [] && pat[0] !in pat[1..]
    requires Free(base, pat)
    ensures RemoveAll(base + pat, pat) == base
    decreases |base|
  {
    var s := base + pat;
    if base == [] {
      assert s == pat;
      assert s[|pat|..] == [];
    } else {
      if |base| >= |pat| {
        assert s[..|pat|] == base[..|pat|];
        assert !OccursAt(pat, base, 0);
      } else {
        assert s[..|pat|][|base|] == pat[0];
        assert pat[1..][|base| - 1] == pat[|base|];
      }
      assert s[..|pat|] != pat;
      assert s[1..] == base[1..] + pat;
      forall i | 0 <= i <= |base[1..]| ensures !OccursAt(pat, base[1..], i) {
        if OccursAt(pat, base[1..], i) {
          assert base[1..][i..i + |pat|] == base[i + 1..i + 1 + |pat|];
          assert OccursAt(pat, base, i + 1);
        }
      }
      RemoveAppended(base[1..], pat);
    }
  }

  /** An ASCII decimal digit; the other Unicode digits `int()` accepts are not modelled. */
  predicate IsDigit(c: char) {
    '0' <= c <= '9'
  }

  function DigitValue(c: char): (d: nat)
    requires IsDigit(c)
    ensures d < 10
  {
    c as int - '0' as int
  }

  function DigitChar(d: nat): (c: char)
    requires d < 10
    ensures IsDigit(c) && DigitValue(c) == d
  {
    ('0' as int + d) as char
  }

  /** `str(n)` for a natural number: its decimal digits, most significant first. */
  function NatToString(n: nat): (r: string)
    ensures r != [] && forall k :: 0 <= k < |r| ==> IsDigit(r[k])
    decreases n
  {
    if n < 10 then [DigitChar(n)] else NatToString(n / 10) + [DigitChar(n % 10)]
  }

  /** `str(i)` for an integer. */
  function IntToString(i: int): (r: string)
    ensures r != [] && ')' !in r && !IsSpace(r[0]) && !IsSpace(r[|r| - 1])
  {
    if i < 0 then "-" + NatToString(-i) else NatToString(i)
  }

  predicate DigitsOrUnderscores(s: string) {
    forall k :: 0 <= k < |s| ==> IsDigit(s[k]) || s[k] == '_'
  }

  /** The digit groups Python's `int()` accepts: digits, with single underscores between digits. */
  predicate DigitGroups(s: string) {
    && s != []
    && DigitsOrUnderscores(s)
    && IsDigit(s[0])
    && IsDigit(s[|s| - 1])
    && SingleUnderscores(s)
  }

  /** No two underscores in a row. */
  predicate SingleUnderscores(s: string)
    decreases |s|
  {
    |s| < 2 || (!(s[|s| - 2] == '_' && s[|s| - 1] == '_') && SingleUnderscores(s[..|s| - 1]))
  }

  /** The value of a string of digits and underscores, the underscores ignored. */
  function DigitsValue(s: string): nat
    requires DigitsOrUnderscores(s)
    decreases |s|
  {
    if s == [] then 0
    else if s[|s| - 1] == '_' then DigitsValue(s[..|s| - 1])
    else 10 * DigitsValue(s[..|s| - 1]) + DigitValue(s[|s| - 1])
  }

  /**
   * `int(s)` with base 10: surrounding white space is ignored, an optional sign
   * is followed by digit groups; anything else raises ValueError (`None`).
   */
  function ParseInt(s: string): Option<int> {
    var t := Strip(s);
    if t != [] && (t[0] == '+' || t[0] == '-') then
      if DigitGroups(t[1..]) then
        Some(if t[0] == '-' then -(DigitsValue(t[1..]) as int) else DigitsValue(t[1..]))
      else None
    else if DigitGroups(t) then Some(DigitsValue(t))
    else None
  }

  lemma {:induction false} NatToStringValue(n: nat)
    ensures DigitGroups(NatToString(n)) && DigitsValue(NatToString(n)) == n
    decreases n
  {
    var r := NatToString(n);
    if n >= 10 {
      NatToStringValue(n / 10);
      assert r[..|r| - 1] == NatToString(n / 10);
    }
  }

  /** `int(str(i)) == i` */
  lemma IntToStringRoundTrip(i: int)
    ensures ParseInt(IntToString(i)) == Some(i)
  {
    var r := IntToString(i);
    StripNoSpaceEnds(r);
    if i < 0 {
      NatToStringValue(-i);
      assert r[1..] == NatToString(-i);
    } else {
      NatToStringValue(i);
    }
  }

  /** Python's `<=` on strings: code-point-wise lexicographic order. */
  predicate LexLe(a: string, b: string)
    decreases |a|
  {
    a == [] || (b != [] && (a[0] < b[0] || (a[0] == b[0] && LexLe(a[1..], b[1..]))))
  }

  /** A shared prefix does not change the order. */
  lemma {:induction false} LexLeCommonPrefix(p: string, a: string, b: string)
    ensures LexLe(p + a, p + b) == LexLe(a, b)
    decreases |p|
  {
    if p == [] {
      assert p + a == a && p + b == b;
    } else {
      assert (p + a)[1..] == p[1..] + a;
      assert (p + b)[1..] == p[1..] + b;
      LexLeCommonPrefix(p[1..], a, b);
    }
  }

  lemma {:induction false} LexLeTotal(a: string, b: string)
    ensures LexLe(a, b) || LexLe(b, a)
    decreases |a|
  {
    if a != [] && b != [] && a[0] == b[0] {
      LexLeTotal(a[1..], b[1..]);
    }
  }

  lemma {:induction false} LexLeTransitive(a: string, b: string, c: string)
    requires LexLe(a, b) && LexLe(b, c)
    ensures LexLe(a, c)
    decreases |a|
  {
    if a != [] && a[0] == b[0] && b[0] == c[0] {
      LexLeTransitive(a[1..], b[1..], c[1..]);
    }
  }
}
