/** `normalize_subject` (SeatMaster/utils.py): the join key used for every
    subject comparison — a missing cell becomes "", anything else is trimmed
    of surrounding whitespace and upper-cased. */
module Utils {

  /** A spreadsheet cell that may be empty (pandas NaN / None). */
  datatype Cell = Missing | Value(text: string)

  /** The code points Python's `str.isspace()` accepts, and so `str.strip()` removes. */
  const SpaceCodes: set<int> :=
    {9, 10, 11, 12, 13, 28, 29, 30, 31, 32, 0x85, 0xA0, 0x1680,
     0x2000, 0x2001, 0x2002, 0x2003, 0x2004, 0x2005, 0x2006, 0x2007, 0x2008, 0x2009, 0x200A,
     0x2028, 0x2029, 0x202F, 0x205F, 0x3000}

  predicate IsSpace(c: char) {
    c as int in SpaceCodes
  }

  predicate AllSpace(s: string) {
    forall k :: 0 <= k < |s| ==> IsSpace(s[k])
  }

  /** No whitespace at either end. */
  predicate Trimmed(s: string) {
    |s| == 0 || (!IsSpace(s[0]) && !IsSpace(s[|s| - 1]))
  }

  predicate IsLower(c: char) { 'a' <= c <= 'z' }

  predicate NoLower(s: string) {
    forall k :: 0 <= k < |s| ==> !IsLower(s[k])
  }

  /** A value `normalize_subject` leaves as it is. */
  predicate Normalized(s: string) {
    Trimmed(s) && NoLower(s)
  }

  /** `s.lstrip()`: the suffix left after dropping the leading whitespace. */
  function StripLeft(s: string): (r: string)
    ensures |r| <= |s| && r == s[|s| - |r|..]
    ensures AllSpace(s[..|s| - |r|])
    ensures |r| > 0 ==> !IsSpace(r[0])
  {
    if |s| > 0 && IsSpace(s[0]) then
      var r := StripLeft(s[1..]);
      StripLeftStep(s, r);
      r
    else s
  }

  /** `s.rstrip()`: the prefix left after dropping the trailing whitespace. */
  function StripRight(s: string): (r: string)
    ensures |r| <= |s| && r == s[..|r|]
    ensures AllSpace(s[|r|..])
    ensures |r| > 0 ==> !IsSpace(r[|r| - 1])
  {
    if |s| > 0 && IsSpace(s[|s| - 1]) then
      var r := StripRight(s[..|s| - 1]);
      StripRightStep(s, r);
      r
    else s
  }

  lemma StripLeftStep(s: string, r: string)
    requires |s| > 0 && IsSpace(s[0])
    requires |r| <= |s| - 1 && r == s[1..][|s| - 1 - |r|..] && AllSpace(s[1..][..|s| - 1 - |r|])
    ensures r == s[|s| - |r|..] && AllSpace(s[..|s| - |r|])
  {
    var t := s[1..];
    assert t[|t| - |r|..] == s[|s| - |r|..];
    assert s[..|s| - |r|] == [s[0]] + t[..|t| - |r|];
    AllSpaceConcat([s[0]], t[..|t| - |r|]);
  }

  lemma StripRightStep(s: string, r: string)
    requires |s| > 0 && IsSpace(s[|s| - 1])
    requires |r| <= |s| - 1 && r == s[..|s| - 1][..|r|] && AllSpace(s[..|s| - 1][|r|..])
    ensures r == s[..|r|] && AllSpace(s[|r|..])
  {
    var t := s[..|s| - 1];
    assert t[..|r|] == s[..|r|];
    assert s[|r|..] == t[|r|..] + [s[|s| - 1]];
    AllSpaceConcat(t[|r|..], [s[|s| - 1]]);
  }

  /** `s.strip()`: no whitespace at either end. */
  function Strip(s: string): (r: string)
    ensures Trimmed(r)
  {
    StripRight(StripLeft(s))
  }

  /** `s.strip()` is the infix `s[i..j]` with only whitespace outside it. */
  lemma StripInfix(s: string)
    ensures exists i, j :: 0 <= i <= j <= |s| && Strip(s) == s[i..j] && AllSpace(s[..i]) && AllSpace(s[j..])
  {
    var l := StripLeft(s);
    var r := StripRight(l);
    var i := |s| - |l|;
    assert r == s[i..i + |r|];
    assert s[i + |r|..] == l[|r|..];
  }

  /** ASCII upper-casing of one character; every other character is unchanged. */
  function UpperChar(c: char): (u: char)
    ensures !IsLower(u)
    ensures IsSpace(u) == IsSpace(c)
  {
    if IsLower(c) then (c as int - 32) as char else c
  }

  /** `s.upper()`, character by character. */
  function Upper(s: string): (r: string)
    ensures |r| == |s| && NoLower(r)
  {
    seq(|s|, k requires 0 <= k < |s| => UpperChar(s[k]))
  }

  /** `str(s).strip().upper()` for a present cell. */
  function Normalize(s: string): (r: string)
    ensures Normalized(r)
    ensures |r| <= |s|
  {
    UpperTrimmed(Strip(s));
    Upper(Strip(s))
  }

  /** Upper-casing keeps a string trimmed: it never turns a character into
      whitespace or back. */
  lemma UpperTrimmed(s: string)
    requires Trimmed(s)
    ensures Trimmed(Upper(s))
  {
    if |s| > 0 {
      assert Upper(s)[0] == UpperChar(s[0]);
      assert Upper(s)[|s| - 1] == UpperChar(s[|s| - 1]);
    }
  }

  /** `normalize_subject`: "" for a missing cell, otherwise trimmed and upper-cased. */
  function NormalizeSubject(c: Cell): (r: string)
    ensures c.Missing? ==> r == ""
    ensures c.Value? ==> Normalized(r) && |r| <= |c.text|
  {
    match c
    case Missing => ""
    case Value(s) => Normalize(s)
  }

  // ---------------------------------------------------------------------
  // Properties of normalisation.

  lemma {:induction false} StripLeftTrimmed(s: string)
    requires |s| == 0 || !IsSpace(s[0])
    ensures StripLeft(s) == s
  {
  }

  lemma {:induction false} StripRightTrimmed(s: string)
    requires |s| == 0 || !IsSpace(s[|s| - 1])
    ensures StripRight(s) == s
  {
  }

  /** Stripping a string that has no whitespace at its ends changes nothing. */
  lemma StripTrimmed(s: string)
    requires Trimmed(s)
    ensures Strip(s) == s
  {
    StripLeftTrimmed(s);
    StripRightTrimmed(s);
  }

  lemma UpperNoLower(s: string)
    requires NoLower(s)
    ensures Upper(s) == s
  {
  }

  /** A trimmed, upper-case value normalises to itself. */
  lemma NormalizeFixesNormalized(s: string)
    requires Normalized(s)
    ensures Normalize(s) == s
  {
    StripTrimmed(s);
    UpperNoLower(s);
  }

  /** `normalize(normalize(x)) == normalize(x)`. */
  lemma NormalizeIdempotent(s: string)
    ensures Normalize(Normalize(s)) == Normalize(s)
  {
    NormalizeFixesNormalized(Normalize(s));
  }

  lemma NormalizeSubjectIdempotent(c: Cell)
    ensures NormalizeSubject(Value(NormalizeSubject(c))) == NormalizeSubject(c)
  {
    NormalizeFixesNormalized(NormalizeSubject(c));
  }

  lemma {:induction false} StripLeftAllSpace(s: string)
    ensures StripLeft(s) == "" <==> AllSpace(s)
  {
    if |s| > 0 && IsSpace(s[0]) {
      StripLeftAllSpace(s[1..]);
      assert AllSpace(s) <==> AllSpace(s[1..]) by {
        assert forall k :: 1 <= k < |s| ==> s[k] == s[1..][k - 1];
      }
    }
  }

  /** An empty or all-whitespace string, and only such a string, normalises to "". */
  lemma NormalizeEmpty(s: string)
    ensures Normalize(s) == "" <==> AllSpace(s)
  {
    StripLeftAllSpace(s);
    var l := StripLeft(s);
    assert |l| > 0 ==> !IsSpace(l[0]);
    assert |l| > 0 ==> |StripRight(l)| > 0;
  }

  /** Padding with whitespace on either side does not change the result. */
  lemma {:induction false} StripLeftPadding(pre: string, s: string)
    requires AllSpace(pre)
    ensures StripLeft(pre + s) == StripLeft(s)
  {
    if |pre| > 0 {
      assert (pre + s)[1..] == pre[1..] + s;
      StripLeftPadding(pre[1..], s);
    } else {
      assert pre + s == s;
    }
  }

  lemma {:induction false} StripRightPadding(s: string, post: string)
    requires AllSpace(post)
    ensures StripRight(s + post) == StripRight(s)
  {
    if |post| > 0 {
      assert (s + post)[..|s + post| - 1] == s + post[..|post| - 1];
      StripRightPadding(s, post[..|post| - 1]);
    } else {
      assert s + post == s;
    }
  }

  lemma {:induction false} StripLeftOfRightPadded(s: string, post: string)
    requires AllSpace(post)
    requires |Strip(s)| > 0
    ensures StripLeft(s + post) == StripLeft(s) + post
  {
    if |s| > 0 && IsSpace(s[0]) {
      assert (s + post)[1..] == s[1..] + post;
      assert Strip(s[1..]) == Strip(s) by {
        assert StripLeft(s) == StripLeft(s[1..]);
      }
      StripLeftOfRightPadded(s[1..], post);
    }
  }

  lemma AllSpaceConcat(a: string, b: string)
    requires AllSpace(a) && AllSpace(b)
    ensures AllSpace(a + b)
  {
    assert forall k :: 0 <= k < |a| ==> (a + b)[k] == a[k];
    assert forall k :: |a| <= k < |a + b| ==> (a + b)[k] == b[k - |a|];
  }

  lemma StripIgnoresPadding(pre: string, s: string, post: string)
    requires AllSpace(pre) && AllSpace(post)
    ensures Strip(pre + s + post) == Strip(s)
  {
    assert pre + s + post == pre + (s + post);
    StripLeftPadding(pre, s + post);
    if |Strip(s)| > 0 {
      StripLeftOfRightPadded(s, post);
      StripRightPadding(StripLeft(s), post);
    } else {
      NormalizeEmpty(s);
      AllSpaceConcat(s, post);
      NormalizeEmpty(s + post);
    }
  }

  lemma NormalizeIgnoresPadding(pre: string, s: string, post: string)
    requires AllSpace(pre) && AllSpace(post)
    ensures Normalize(pre + s + post) == Normalize(s)
  {
    StripIgnoresPadding(pre, s, post);
  }

  /** Upper-casing commutes with stripping, because it never turns a
      character into whitespace or back. */
  lemma {:induction false} StripLeftUpper(s: string)
    ensures StripLeft(Upper(s)) == Upper(StripLeft(s))
  {
    if |s| > 0 && IsSpace(s[0]) {
      assert Upper(s)[1..] == Upper(s[1..]);
      StripLeftUpper(s[1..]);
    }
  }

  lemma {:induction false} StripRightUpper(s: string)
    ensures StripRight(Upper(s)) == Upper(StripRight(s))
  {
    if |s| > 0 && IsSpace(s[|s| - 1]) {
      assert Upper(s)[..|s| - 1] == Upper(s[..|s| - 1]);
      StripRightUpper(s[..|s| - 1]);
    }
  }

  lemma UpperIdempotent(s: string)
    ensures Upper(Upper(s)) == Upper(s)
  {
  }

  /** Normalisation depends only on the upper-cased text, so it ignores case:
      two strings that agree up to ASCII case normalise alike. */
  lemma NormalizeIgnoresCase(s: string, t: string)
    requires Upper(s) == Upper(t)
    ensures Normalize(s) == Normalize(t)
  {
    StripLeftUpper(s);
    StripRightUpper(StripLeft(s));
    StripLeftUpper(t);
    StripRightUpper(StripLeft(t));
    assert Normalize(s) == Strip(Upper(s));
    assert Normalize(t) == Strip(Upper(t));
  }

  /** Stripping only removes characters. */
  lemma StripKeepsChars(s: string, c: char)
    ensures c in Strip(s) ==> c in s
  {
    var l := StripLeft(s);
    var r := StripRight(l);
    if c in r {
      var k :| 0 <= k < |r| && r[k] == c;
      assert l[k] == c;
      assert s[|s| - |l| + k] == c;
    }
  }

  /** Upper-casing produces a comma only from a comma. */
  lemma UpperKeepsComma(s: string)
    ensures ',' in Upper(s) ==> ',' in s
  {
    if ',' in Upper(s) {
      var k :| 0 <= k < |s| && Upper(s)[k] == ',';
      assert UpperChar(s[k]) == ',';
    }
  }

  /** Normalising never introduces a comma (the list separator of day cells). */
  lemma NormalizeNoComma(s: string)
    requires ',' !in s
    ensures ',' !in Normalize(s)
  {
    StripKeepsChars(s, ',');
    UpperKeepsComma(Strip(s));
  }
}
