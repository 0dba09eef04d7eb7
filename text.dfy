/**
 * The string operations Python gives the ranker for free: substring search
 * (`needle in hay`), ASCII lower-casing, the whitespace class of `str.isspace`
 * and `\s`, and `str.strip()`.
 */
module Text {

  /** `needle` occurs in `hay` starting at index `i`. */
  predicate OccursAt(needle: string, hay: string, i: int) {
    0 <= i <= |hay| - |needle| && hay[i..i + |needle|] == needle
  }

  /** Python's `needle in hay` on strings. */
  predicate Contains(hay: string, needle: string) {
    exists i :: 0 <= i <= |hay| - |needle| && OccursAt(needle, hay, i)
  }

  /** Containment is transitive: a substring of a substring is a substring. */
  lemma ContainsTransitive(hay: string, mid: string, needle: string)
    requires Contains(hay, mid) && Contains(mid, needle)
    ensures Contains(hay, needle)
  {
    var i :| 0 <= i <= |hay| - |mid| && OccursAt(mid, hay, i);
    var j :| 0 <= j <= |mid| - |needle| && OccursAt(needle, mid, j);
    forall k | 0 <= k < |needle| ensures hay[i + j + k] == needle[k] {
      assert needle[k] == mid[j + k] == hay[i + j + k];
    }
    assert hay[i + j..i + j + |needle|] == needle;
    assert OccursAt(needle, hay, i + j);
  }

  /** ASCII upper-case letters become lower-case; every other character is kept. */
  function LowerChar(c: char): char
  {
    if 'A' <= c <= 'Z' then (c as int + 32) as char else c
  }

  function Lower(s: string): (r: string)
    ensures |r| == |s| && forall i :: 0 <= i < |s| ==> r[i] == LowerChar(s[i])
  {
    seq(|s|, i requires 0 <= i < |s| => LowerChar(s[i]))
  }

  /** Case-insensitive `needle in hay`, folding ASCII letters. */
  predicate ContainsIgnoreCase(hay: string, needle: string) {
    Contains(Lower(hay), Lower(needle))
  }

  /** The characters Python's `str.isspace()` (and so `\s` and `str.strip()`)
      treats as whitespace. */
  predicate IsSpace(c: char) {
    || '\t' <= c <= '\r'
    || '\U{1C}' <= c <= '\U{1F}'
    || c == ' ' || c == '\U{85}' || c == '\U{A0}' || c == '\U{1680}'
    || '\U{2000}' <= c <= '\U{200A}'
    || c == '\U{2028}' || c == '\U{2029}' || c == '\U{202F}' || c == '\U{205F}' || c == '\U{3000}'
  }

  predicate IsDigit(c: char) {
    '0' <= c <= '9'
  }

  /** Every character of `s` is whitespace. */
  predicate AllSpace(s: string) {
    forall k :: 0 <= k < |s| ==> IsSpace(s[k])
  }

  /** `s` with its leading whitespace removed. */
  function TrimStart(s: string): (r: string)
    ensures exists i :: 0 <= i <= |s| && r == s[i..] && AllSpace(s[..i])
    ensures r == [] || !IsSpace(r[0])
    decreases |s|
  {
    if s != [] && IsSpace(s[0]) then
      var r := TrimStart(s[1..]);
      TrimStartStep(s, r);
      r
    else
      assert s == s[0..] && s[..0] == [];
      s
  }

  /** Dropping one more leading space keeps `r` a suffix after spaces. */
  lemma TrimStartStep(s: string, r: string)
    requires s != [] && IsSpace(s[0])
    requires exists i :: 0 <= i <= |s[1..]| && r == s[1..][i..] && AllSpace(s[1..][..i])
    ensures exists i :: 0 <= i <= |s| && r == s[i..] && AllSpace(s[..i])
  {
    var i :| 0 <= i <= |s[1..]| && r == s[1..][i..] && AllSpace(s[1..][..i]);
    assert r == s[i + 1..];
    var p := s[..i + 1];
    forall k | 0 <= k < |p| ensures IsSpace(p[k]) {
      if k > 0 { assert p[k] == s[1..][..i][k - 1]; }
    }
    assert AllSpace(p);
  }

  /** `s` with its trailing whitespace removed. */
  function TrimEnd(s: string): (r: string)
    ensures exists j :: 0 <= j <= |s| && r == s[..j] && AllSpace(s[j..])
    ensures r == [] || !IsSpace(r[|r| - 1])
    decreases |s|
  {
    if s != [] && IsSpace(s[|s| - 1]) then
      var r := TrimEnd(s[..|s| - 1]);
      TrimEndStep(s, s[..|s| - 1], r);
      r
    else
      assert s == s[..|s|] && s[|s|..] == [];
      s
  }

  /** Dropping one more trailing space keeps `r` a prefix before spaces. */
  lemma TrimEndStep(s: string, init: string, r: string)
    requires s != [] && IsSpace(s[|s| - 1]) && init == s[..|s| - 1]
    requires exists j :: 0 <= j <= |init| && r == init[..j] && AllSpace(init[j..])
    ensures exists j :: 0 <= j <= |s| && r == s[..j] && AllSpace(s[j..])
  {
    var j :| 0 <= j <= |init| && r == init[..j] && AllSpace(init[j..]);
    assert r == s[..j];
    var p := s[j..];
    forall k | 0 <= k < |p| ensures IsSpace(p[k]) {
      if j + k < |s| - 1 { assert p[k] == init[j..][k]; }
    }
    assert AllSpace(p);
  }

  /** Python's `s.strip()`: the slice of `s` left after removing whitespace at
      both ends; what is left starts and ends with a non-space character. */
  function Strip(s: string): (r: string)
    ensures exists i, j :: 0 <= i <= j <= |s| && r == s[i..j] && AllSpace(s[..i]) && AllSpace(s[j..])
    ensures r == [] || (!IsSpace(r[0]) && !IsSpace(r[|r| - 1]))
  {
    var t := TrimStart(s);
    var r := TrimEnd(t);
    StripSlice(s, t, r);
    r
  }

  lemma StripSlice(s: string, t: string, r: string)
    requires exists i :: 0 <= i <= |s| && t == s[i..] && AllSpace(s[..i])
    requires exists j :: 0 <= j <= |t| && r == t[..j] && AllSpace(t[j..])
    ensures exists i, j :: 0 <= i <= j <= |s| && r == s[i..j] && AllSpace(s[..i]) && AllSpace(s[j..])
  {
    var i :| 0 <= i <= |s| && t == s[i..] && AllSpace(s[..i]);
    var j :| 0 <= j <= |t| && r == t[..j] && AllSpace(t[j..]);
    SliceOfSuffix(s, i, j);
    assert 0 <= i <= i + j <= |s| && r == s[i..i + j] && AllSpace(s[..i]) && AllSpace(s[i + j..]);
  }

  /** A prefix of a suffix is a middle slice, and what follows it is a
      suffix of the original. */
  lemma SliceOfSuffix(s: string, i: nat, j: nat)
    requires i <= |s| && j <= |s| - i
    ensures s[i..][..j] == s[i..i + j] && s[i..][j..] == s[i + j..]
  {
  }
}
