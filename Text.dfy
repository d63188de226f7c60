/** String helpers with Python's meaning: the substring test `needle in hay`,
    `str.strip()`, and the ASCII part of `str.upper()` / `str.lower()`. */
module Text {

  /** Python's `needle in hay` for strings: `needle` occurs at some offset of `hay`. */
  function Contains(hay: string, needle: string): (r: bool)
    ensures r <==> exists i :: 0 <= i <= |hay| && needle <= hay[i..]
    decreases |hay|
  {
    if needle <= hay then
      assert hay[0..] == hay;
      true
    else if |hay| == 0 then false
    else
      var r := Contains(hay[1..], needle);
      assert forall i :: 1 <= i <= |hay| ==> hay[1..][i - 1..] == hay[i..];
      r
  }

  /** A substring of a substring is a substring. */
  lemma ContainsTransitive(text: string, phrase: string, word: string)
    requires Contains(text, phrase) && Contains(phrase, word)
    ensures Contains(text, word)
  {
    var i :| 0 <= i <= |text| && phrase <= text[i..];
    var j :| 0 <= j <= |phrase| && word <= phrase[j..];
    assert word <= text[i + j..] by {
      forall k | 0 <= k < |word|
        ensures text[i + j..][k] == word[k]
      {
        assert phrase[j..][k] == word[k];
        assert text[i..][j + k] == phrase[j + k];
      }
    }
  }

  /** Every character of a contained string is a character of the containing one. */
  lemma ContainsChars(hay: string, needle: string, c: char)
    requires Contains(hay, needle) && c in needle
    ensures c in hay
  {
    var i :| 0 <= i <= |hay| && needle <= hay[i..];
    var k :| 0 <= k < |needle| && needle[k] == c;
    assert hay[i..][k] == c;
  }

  /** The characters Python's `str.strip()` removes (`str.isspace()`). */
  predicate IsSpace(c: char)
  {
    c == ' ' || c == '\t' || c == '\n' || c == '\r'
    || c == '\U{0B}' || c == '\U{0C}'
    || ('\U{1C}' <= c <= '\U{1F}')
    || c == '\U{85}' || c == '\U{A0}' || c == '\U{1680}'
    || ('\U{2000}' <= c <= '\U{200A}')
    || c == '\U{2028}' || c == '\U{2029}' || c == '\U{202F}' || c == '\U{205F}' || c == '\U{3000}'
  }

  predicate AllSpace(s: string)
  {
    forall k :: 0 <= k < |s| ==> IsSpace(s[k])
  }

  function StripLeft(s: string): (r: string)
    ensures exists i :: 0 <= i <= |s| && r == s[i..] && AllSpace(s[..i])
    ensures |r| > 0 ==> !IsSpace(r[0])
  {
    if |s| > 0 && IsSpace(s[0]) then
      var r := StripLeft(s[1..]);
      assert forall i :: 0 <= i <= |s| - 1 ==> s[1..][i..] == s[i + 1..] && s[..i + 1] == [s[0]] + s[1..][..i];
      r
    else
      assert s == s[0..] && s[..0] == [];
      s
  }

  function StripRight(s: string): (r: string)
    ensures exists j :: 0 <= j <= |s| && r == s[..j] && AllSpace(s[j..])
    ensures |r| > 0 ==> !IsSpace(r[|r| - 1])
  {
    if |s| > 0 && IsSpace(s[|s| - 1]) then
      var r := StripRight(s[..|s| - 1]);
      ghost var j :| 0 <= j <= |s| - 1 && r == s[..|s| - 1][..j] && AllSpace(s[..|s| - 1][j..]);
      assert s[..|s| - 1][..j] == s[..j];
      assert s[j..] == s[..|s| - 1][j..] + [s[|s| - 1]];
      r
    else
      assert s == s[..|s|] && s[|s|..] == [];
      s
  }

  /** Python's `str.strip()`: the middle part of `s` left once the leading and
      trailing whitespace is cut off. */
  function Strip(s: string): (r: string)
    ensures exists i, j :: 0 <= i <= j <= |s| && r == s[i..j] && AllSpace(s[..i]) && AllSpace(s[j..])
    ensures |r| > 0 ==> !IsSpace(r[0]) && !IsSpace(r[|r| - 1])
  {
    var left := StripLeft(s);
    var r := StripRight(left);
    StripSlices(s, left, r);
    r
  }

  lemma StripSlices(s: string, left: string, r: string)
    requires exists i :: 0 <= i <= |s| && left == s[i..] && AllSpace(s[..i])
    requires exists j :: 0 <= j <= |left| && r == left[..j] && AllSpace(left[j..])
    ensures exists i, j :: 0 <= i <= j <= |s| && r == s[i..j] && AllSpace(s[..i]) && AllSpace(s[j..])
  {
    var i :| 0 <= i <= |s| && left == s[i..] && AllSpace(s[..i]);
    var j :| 0 <= j <= |left| && r == left[..j] && AllSpace(left[j..]);
    assert r == s[i..i + j];
    assert s[i + j..] == left[j..];
  }

  /** Stripping twice is stripping once. */
  lemma {:induction false} StripIdempotent(s: string)
    ensures Strip(Strip(s)) == Strip(s)
  {
    var r := Strip(s);
    if |r| > 0 {
      assert StripLeft(r) == r;
      assert StripRight(r) == r;
    }
  }

  function UpperChar(c: char): (u: char)
  {
    if 'a' <= c <= 'z' then (c as int - 'a' as int + 'A' as int) as char else c
  }

  function LowerChar(c: char): (l: char)
  {
    if 'A' <= c <= 'Z' then (c as int - 'A' as int + 'a' as int) as char else c
  }

  /** `str.upper()` on the ASCII letters. */
  function Upper(s: string): (u: string)
    ensures |u| == |s|
    ensures forall k :: 0 <= k < |s| ==> !('a' <= u[k] <= 'z')
  {
    seq(|s|, k requires 0 <= k < |s| => UpperChar(s[k]))
  }

  /** `str.lower()` on the ASCII letters. */
  function Lower(s: string): (l: string)
    ensures |l| == |s|
    ensures forall k :: 0 <= k < |s| ==> !('A' <= l[k] <= 'Z')
  {
    seq(|s|, k requires 0 <= k < |s| => LowerChar(s[k]))
  }

  lemma UpperIdempotent(s: string)
    ensures Upper(Upper(s)) == Upper(s)
  {
  }
}
