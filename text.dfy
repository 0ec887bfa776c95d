/** Character classes, whitespace runs, `str.strip()` and decimal formatting, as
    Python's str methods and the `\s` and `\d` classes of its `re` module treat them. */
module Text {

  /** `c.isspace()`: the characters `str.strip()` removes and `\s` matches in a str
      pattern (both are CPython's Py_UNICODE_ISSPACE). */
  predicate IsSpace(c: char) {
    ('\t' <= c <= '\r') || ('\U{1C}' <= c <= ' ') || c == '\U{85}' || c == '\U{A0}'
    || c == '\U{1680}' || ('\U{2000}' <= c <= '\U{200A}') || c == '\U{2028}' || c == '\U{2029}'
    || c == '\U{202F}' || c == '\U{205F}' || c == '\U{3000}'
  }

  /** An ASCII decimal digit: what `\d` matches in this model. */
  predicate IsDigit(c: char) {
    '0' <= c <= '9'
  }

  /** Every character of s[lo..hi] is whitespace. */
  predicate AllSpaceIn(s: string, lo: nat, hi: nat)
    requires lo <= hi <= |s|
  {
    forall i :: lo <= i < hi ==> IsSpace(s[i])
  }

  /** Every character of s[lo..hi] is a digit. */
  predicate AllDigitIn(s: string, lo: nat, hi: nat)
    requires lo <= hi <= |s|
  {
    forall i :: lo <= i < hi ==> IsDigit(s[i])
  }

  /** Where a greedy `\s*` that starts at k stops (see SpaceRunEndIsRun). */
  function SpaceRunEnd(s: string, k: nat): (e: nat)
    requires k <= |s|
    ensures k <= e <= |s|
    decreases |s| - k
  {
    if k < |s| && IsSpace(s[k]) then SpaceRunEnd(s, k + 1) else k
  }

  /** SpaceRunEnd stops at the first character from k on that is not whitespace. */
  lemma {:induction false} SpaceRunEndIsRun(s: string, k: nat)
    requires k <= |s|
    ensures AllSpaceIn(s, k, SpaceRunEnd(s, k))
    ensures SpaceRunEnd(s, k) < |s| ==> !IsSpace(s[SpaceRunEnd(s, k)])
    decreases |s| - k
  {
    if k < |s| && IsSpace(s[k]) {
      SpaceRunEndIsRun(s, k + 1);
    }
  }

  /** Where a greedy `\d*` that starts at k stops (see DigitRunEndIsRun). */
  function DigitRunEnd(s: string, k: nat): (e: nat)
    requires k <= |s|
    ensures k <= e <= |s|
    decreases |s| - k
  {
    if k < |s| && IsDigit(s[k]) then DigitRunEnd(s, k + 1) else k
  }

  /** DigitRunEnd stops at the first character from k on that is not a digit. */
  lemma {:induction false} DigitRunEndIsRun(s: string, k: nat)
    requires k <= |s|
    ensures AllDigitIn(s, k, DigitRunEnd(s, k))
    ensures DigitRunEnd(s, k) < |s| ==> !IsDigit(s[DigitRunEnd(s, k)])
    decreases |s| - k
  {
    if k < |s| && IsDigit(s[k]) {
      DigitRunEndIsRun(s, k + 1);
    }
  }

  /** A greedy `\s*` from k stops at e when s[k..e] is whitespace and s[e] is not. */
  lemma SpaceRunEndAt(s: string, k: nat, e: nat)
    requires k <= e <= |s| && AllSpaceIn(s, k, e) && (e == |s| || !IsSpace(s[e]))
    ensures SpaceRunEnd(s, k) == e
  {
    SpaceRunEndIsRun(s, k);
  }

  /** The start of the run of whitespace that ends at k (scanning backwards). */
  function SpaceRunStart(s: string, k: nat): (b: nat)
    requires k <= |s|
    ensures b <= k
  {
    if 0 < k && IsSpace(s[k - 1]) then SpaceRunStart(s, k - 1) else k
  }

  /** SpaceRunStart stops after the last character before k that is not whitespace. */
  lemma {:induction false} SpaceRunStartIsRun(s: string, k: nat)
    requires k <= |s|
    ensures AllSpaceIn(s, SpaceRunStart(s, k), k)
    ensures 0 < SpaceRunStart(s, k) ==> !IsSpace(s[SpaceRunStart(s, k) - 1])
  {
    if 0 < k && IsSpace(s[k - 1]) {
      SpaceRunStartIsRun(s, k - 1);
    }
  }

  /** Neither end of s is whitespace. */
  predicate Trimmed(s: string) {
    s == [] || (!IsSpace(s[0]) && !IsSpace(s[|s| - 1]))
  }

  /** `s.strip()`: s without its leading and trailing whitespace. The result is the
      slice of s that starts at the first non-space character, and only whitespace
      follows it in s. */
  function Trim(s: string): (r: string)
    ensures Trimmed(r)
    ensures SpaceRunEnd(s, 0) + |r| <= |s|
    ensures r == s[SpaceRunEnd(s, 0)..SpaceRunEnd(s, 0) + |r|]
    ensures AllSpaceIn(s, SpaceRunEnd(s, 0) + |r|, |s|)
  {
    var lo := SpaceRunEnd(s, 0);
    var t := s[lo..];
    var hi := SpaceRunStart(t, |t|);
    SpaceRunEndIsRun(s, 0);
    SpaceRunStartIsRun(t, |t|);
    assert forall i :: lo + hi <= i < |s| ==> IsSpace(s[i]) by {
      forall i | lo + hi <= i < |s| ensures IsSpace(s[i]) {
        assert s[i] == t[i - lo];
      }
    }
    t[..hi]
  }

  /** Stripping text that is already stripped changes nothing. */
  lemma TrimTrimmed(s: string)
    requires Trimmed(s)
    ensures Trim(s) == s
  {
    var r := Trim(s);
    assert SpaceRunEnd(s, 0) == 0;
  }

  /** The stripped text is the piece of s from its first to its last character
      that is not whitespace. */
  lemma TrimIs(s: string, lo: nat, hi: nat)
    requires lo < hi <= |s| && AllSpaceIn(s, 0, lo) && AllSpaceIn(s, hi, |s|)
    requires !IsSpace(s[lo]) && !IsSpace(s[hi - 1])
    ensures Trim(s) == s[lo..hi]
  {
    SpaceRunEndIsRun(s, 0);
    assert SpaceRunEnd(s, 0) == lo;
    var r := Trim(s);
    assert r == s[lo..lo + |r|];
    assert hi <= lo + |r|;
    assert |r| > 0 && r[|r| - 1] == s[lo + |r| - 1];
    assert lo + |r| <= hi;
  }

  /** Trimming keeps only characters of s. */
  lemma TrimKeeps(s: string, c: char)
    requires c in Trim(s)
    ensures c in s
  {
    var r := Trim(s);
    var lo := SpaceRunEnd(s, 0);
    var i :| 0 <= i < |r| && r[i] == c;
    assert s[lo + i] == c;
  }

  /** s begins with p (`s.startswith(p)`). */
  predicate StartsWith(s: string, p: string) {
    |p| <= |s| && s[..|p|] == p
  }

  /** The decimal digit character for d. */
  function DigitChar(d: nat): (c: char)
    requires d < 10
    ensures IsDigit(c)
  {
    (('0' as int) + d) as char
  }

  /** The value of a digit character. */
  function DigitValue(c: char): (d: nat)
    requires IsDigit(c)
    ensures d < 10 && DigitChar(d) == c
  {
    (c as int) - ('0' as int)
  }

  /** `str(n)`, the decimal form of n that the f-string `f"{n}"` produces. */
  function Decimal(n: nat): (r: string)
    ensures 1 <= |r|
    ensures AllDigitIn(r, 0, |r|)
    ensures r[0] == '0' ==> n == 0 && |r| == 1
    decreases n
  {
    if n < 10 then [DigitChar(n)] else Decimal(n / 10) + [DigitChar(n % 10)]
  }

  /** The number a string of decimal digits denotes. */
  function DigitsValue(r: string): (v: nat)
    requires AllDigitIn(r, 0, |r|)
  {
    if r == [] then 0 else DigitsValue(r[..|r| - 1]) * 10 + DigitValue(r[|r| - 1])
  }

  /** Reading back the decimal form of n gives n. */
  lemma {:induction false} DecimalValue(n: nat)
    ensures DigitsValue(Decimal(n)) == n
    decreases n
  {
    var r := Decimal(n);
    if n >= 10 {
      DecimalValue(n / 10);
      assert r[..|r| - 1] == Decimal(n / 10);
    }
  }

  /** Distinct numbers have distinct decimal forms. */
  lemma DecimalInjective(m: nat, n: nat)
    requires Decimal(m) == Decimal(n)
    ensures m == n
  {
    DecimalValue(m);
    DecimalValue(n);
  }
}
