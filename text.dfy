/**
  Python `str` primitives the pipeline relies on: `isspace`, `strip`, `lower`,
  the regular-expression word boundary `\b`, `split()` word counting and `join`.
  Strings are sequences of Unicode scalar values, as Python `str` indexes code points.
*/
module Text {

  /** The characters for which Python's `str.isspace()` holds; `strip()` and `split()` use the same set. */
  predicate IsSpace(c: char) {
    c == ' ' || ('\t' <= c <= '\r') || ('\U{1C}' <= c <= '\U{1F}') || c == '\U{85}' || c == '\U{A0}'
    || c == '\U{1680}' || ('\U{2000}' <= c <= '\U{200A}') || c == '\U{2028}' || c == '\U{2029}'
    || c == '\U{202F}' || c == '\U{205F}' || c == '\U{3000}'
  }

  /** Text made of whitespace only (the empty text included): `not s.strip()`. */
  predicate IsBlank(s: string) {
    forall i | 0 <= i < |s| :: IsSpace(s[i])
  }

  /** `s.lstrip()`: the longest suffix of `s` that does not start with whitespace. */
  function StripLeft(s: string): (r: string)
    ensures |r| <= |s| && r == s[|s| - |r|..]
    ensures forall i | 0 <= i < |s| - |r| :: IsSpace(s[i])
    ensures r != [] ==> !IsSpace(r[0])
  {
    if s != [] && IsSpace(s[0]) then StripLeft(s[1..]) else s
  }

  /** `s.rstrip()`: the longest prefix of `s` that does not end with whitespace. */
  function StripRight(s: string): (r: string)
    ensures |r| <= |s| && r == s[..|r|]
    ensures forall i | |r| <= i < |s| :: IsSpace(s[i])
    ensures r != [] ==> !IsSpace(r[|r| - 1])
  {
    if s != [] && IsSpace(s[|s| - 1]) then StripRight(s[..|s| - 1]) else s
  }

  /** `s.strip()`: leading and trailing whitespace removed, nothing else touched. */
  function Strip(s: string): (r: string)
    ensures |r| <= |s|
    ensures r == [] <==> IsBlank(s)
    ensures r != [] ==> !IsSpace(r[0]) && !IsSpace(r[|r| - 1])
    ensures exists i, j | 0 <= i <= j <= |s| :: r == s[i..j] && IsBlank(s[..i]) && IsBlank(s[j..])
  {
    var l := StripLeft(s);
    var r := StripRight(l);
    var i := |s| - |l|;
    assert r == s[i..i + |r|] && IsBlank(s[..i]) && IsBlank(s[i + |r|..]);
    r
  }

  /** Stripping twice is stripping once. */
  lemma {:induction false} StripIdempotent(s: string)
    ensures Strip(Strip(s)) == Strip(s)
  {
    var r := Strip(s);
    assert StripLeft(r) == r;
    assert StripRight(r) == r;
  }

  /** A text with no whitespace at either end is its own strip. */
  lemma StripKeepsTrimmed(s: string)
    requires s != [] ==> !IsSpace(s[0]) && !IsSpace(s[|s| - 1])
    ensures Strip(s) == s
  {
    assert StripLeft(s) == s;
    assert StripRight(s) == s;
  }

  /** Whitespace in front of a text that does not start with whitespace is exactly what `lstrip` removes. */
  lemma {:induction false} StripLeftBlankPrefix(w: string, x: string)
    requires IsBlank(w) && (x != [] ==> !IsSpace(x[0]))
    ensures StripLeft(w + x) == x
  {
    if w != [] {
      assert (w + x)[1..] == w[1..] + x;
      StripLeftBlankPrefix(w[1..], x);
    } else {
      assert w + x == x;
    }
  }

  /** Whitespace after a text that does not end with whitespace is exactly what `rstrip` removes. */
  lemma {:induction false} StripRightBlankSuffix(x: string, w: string)
    requires IsBlank(w) && (x != [] ==> !IsSpace(x[|x| - 1]))
    ensures StripRight(x + w) == x
  {
    if w != [] {
      assert (x + w)[..|x + w| - 1] == x + w[..|w| - 1];
      StripRightBlankSuffix(x, w[..|w| - 1]);
    } else {
      assert x + w == x;
    }
  }

  /** `strip` removes exactly the whitespace around a text that is trimmed already. */
  lemma StripPadded(w1: string, c: string, w2: string)
    requires IsBlank(w1) && IsBlank(w2)
    requires c != [] && !IsSpace(c[0]) && !IsSpace(c[|c| - 1])
    ensures Strip(w1 + c + w2) == c
  {
    assert w1 + c + w2 == w1 + (c + w2);
    StripLeftBlankPrefix(w1, c + w2);
    StripRightBlankSuffix(c, w2);
  }

  /** Lower-casing of one character; only the ASCII letters have a case mapping in this model. */
  function LowerChar(c: char): char {
    if 'A' <= c <= 'Z' then (c as int + 32) as char else c
  }

  /** `s.lower()`, position by position. */
  function Lower(s: string): (r: string)
    ensures |r| == |s| && forall i | 0 <= i < |s| :: r[i] == LowerChar(s[i])
  {
    seq(|s|, i requires 0 <= i < |s| => LowerChar(s[i]))
  }

  /** A text with no ASCII capital is its own lower-case form. */
  lemma LowerKeepsLowerCase(s: string)
    requires forall i | 0 <= i < |s| :: !('A' <= s[i] <= 'Z')
    ensures Lower(s) == s
  {
  }

  lemma LowerIdempotent(s: string)
    ensures Lower(Lower(s)) == Lower(s)
  {
  }

  /** Lower-casing and stripping commute: no ASCII capital is whitespace, and no whitespace changes case. */
  lemma {:induction false} StripLeftLower(s: string)
    ensures StripLeft(Lower(s)) == Lower(StripLeft(s))
  {
    if s != [] {
      var l := Lower(s);
      assert l[1..] == Lower(s[1..]);
      assert IsSpace(l[0]) == IsSpace(s[0]);
      if IsSpace(s[0]) {
        StripLeftLower(s[1..]);
      }
    }
  }

  lemma {:induction false} StripRightLower(s: string)
    ensures StripRight(Lower(s)) == Lower(StripRight(s))
  {
    if s != [] {
      var l := Lower(s);
      var last := |s| - 1;
      assert l[..last] == Lower(s[..last]);
      assert IsSpace(l[last]) == IsSpace(s[last]);
      if IsSpace(s[last]) {
        StripRightLower(s[..last]);
      }
    }
  }

  lemma StripLower(s: string)
    ensures Strip(Lower(s)) == Lower(Strip(s))
  {
    StripLeftLower(s);
    StripRightLower(StripLeft(s));
  }

  /** A text with no ASCII capital and no whitespace at either end. */
  predicate Normalised(s: string) {
    && (forall i | 0 <= i < |s| :: !('A' <= s[i] <= 'Z'))
    && (s != "" ==> !IsSpace(s[0]) && !IsSpace(s[|s| - 1]))
  }

  /** Lower-casing a stripped text gives a normalised text. */
  lemma LowerOfStripIsNormalised(stripped: string)
    requires stripped != [] ==> !IsSpace(stripped[0]) && !IsSpace(stripped[|stripped| - 1])
    ensures Normalised(Lower(stripped))
  {
    var lang := Lower(stripped);
    forall i | 0 <= i < |lang|
      ensures !('A' <= lang[i] <= 'Z') && (IsSpace(lang[i]) ==> IsSpace(stripped[i]))
    {
      assert lang[i] == LowerChar(stripped[i]);
    }
  }

  /** Stripping, then lower-casing, always gives a normalised text. */
  lemma StrippedLowerIsNormalised(s: string)
    ensures Normalised(Lower(Strip(s)))
  {
    LowerOfStripIsNormalised(Strip(s));
  }

  /** Stripping and lower-casing a normalised text between blank margins gives that text back. */
  lemma NormalisedPadded(w1: string, c: string, w2: string)
    requires c != "" && Normalised(c) && IsBlank(w1) && IsBlank(w2)
    ensures Lower(Strip(w1 + c + w2)) == c
  {
    StripPadded(w1, c, w2);
    LowerKeepsLowerCase(c);
  }

  /** A character matched by `\w`: ASCII letters, digits and `_`, and the Latin-1 and Latin Extended letters. */
  predicate IsWordChar(c: char) {
    ('a' <= c <= 'z') || ('A' <= c <= 'Z') || ('0' <= c <= '9') || c == '_'
    || ('\U{C0}' <= c <= '\U{24F}' && c != '\U{D7}' && c != '\U{F7}')
  }

  /** Position `i` of `s` is a word boundary (`\b`): a word character on exactly one side. */
  predicate Boundary(s: string, i: int)
    requires 0 <= i <= |s|
  {
    (i > 0 && IsWordChar(s[i - 1])) != (i < |s| && IsWordChar(s[i]))
  }

  /** `re.search(r'\b' + w + r'\b', s)` for a literal `w`: `w` occurs between two word boundaries. */
  predicate ContainsWord(s: string, w: string)
    ensures ContainsWord(s, w) ==> |w| <= |s|
  {
    exists i | 0 <= i <= |s| - |w| :: Boundary(s, i) && Boundary(s, i + |w|) && s[i..i + |w|] == w
  }

  /** A text that is one word, starting and ending with word characters, matches itself. */
  lemma WordMatchesItself(w: string)
    requires w != [] && IsWordChar(w[0]) && IsWordChar(w[|w| - 1])
    ensures ContainsWord(w, w)
  {
    assert Boundary(w, 0) && Boundary(w, |w|) && w[0..|w|] == w;
  }

  /** Lower-casing never turns a word character into a non-word character or back. */
  lemma LowerKeepsWordChars(c: char)
    ensures IsWordChar(LowerChar(c)) == IsWordChar(c)
  {
  }

  /** A word starts at `i`: a non-space character that is first or follows whitespace. */
  predicate WordStart(s: string, i: int)
    requires 0 <= i < |s|
  {
    !IsSpace(s[i]) && (i == 0 || IsSpace(s[i - 1]))
  }

  /** `len(s.split())`: the number of maximal runs of non-whitespace characters. */
  function WordCount(s: string): (n: nat)
    ensures n <= |s|
    ensures n == 0 <==> IsBlank(s)
  {
    if s == [] then 0
    else
      var p := s[..|s| - 1];
      assert forall i | 0 <= i < |p| :: p[i] == s[i];
      WordCount(p) + (if WordStart(s, |s| - 1) then 1 else 0)
  }

  /** The positions at which a word starts. */
  function WordStarts(s: string): set<int> {
    set i | 0 <= i < |s| && WordStart(s, i)
  }

  /** `len(s.split())` is the number of positions at which a word starts. */
  lemma {:induction false} WordCountIsWordStarts(s: string)
    ensures WordCount(s) == |WordStarts(s)|
  {
    if s != [] {
      var p := s[..|s| - 1];
      var last := |s| - 1;
      var extra: set<int> := if WordStart(s, last) then {last} else {};
      forall i | 0 <= i < |p|
        ensures WordStart(s, i) == WordStart(p, i)
      {
        assert s[i] == p[i];
        if i > 0 {
          assert s[i - 1] == p[i - 1];
        }
      }
      assert WordStarts(s) == WordStarts(p) + extra;
      assert WordStarts(p) !! extra;
      WordCountIsWordStarts(p);
    }
  }

  /** `sep.join(xs)`. */
  function Join(xs: seq<string>, sep: string): (r: string)
    ensures xs == [] ==> r == []
    ensures |xs| == 1 ==> r == xs[0]
  {
    if xs == [] then []
    else if |xs| == 1 then xs[0]
    else xs[0] + sep + Join(xs[1..], sep)
  }

  /** Joining one more part adds the separator and that part at the end. */
  lemma {:induction false} JoinSnoc(xs: seq<string>, x: string, sep: string)
    requires xs != []
    ensures Join(xs + [x], sep) == Join(xs, sep) + sep + x
  {
    if |xs| > 1 {
      assert (xs + [x])[1..] == xs[1..] + [x];
      JoinSnoc(xs[1..], x, sep);
    } else {
      assert xs + [x] == [xs[0], x];
      assert [xs[0], x][1..] == [x];
    }
  }

  /** Joining lines that are all non-empty gives the empty text only for no lines. */
  lemma {:induction false} JoinEmptyIff(xs: seq<string>, sep: string)
    requires forall i | 0 <= i < |xs| :: xs[i] != []
    ensures Join(xs, sep) == [] <==> xs == []
  {
    if |xs| > 1 {
      assert |Join(xs, sep)| >= |xs[0]|;
    }
  }
}
