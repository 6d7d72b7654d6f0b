/** String operations the Python and JavaScript code relies on: `str.strip()`,
    `str.lower()` / `String.prototype.toLowerCase()`, `str.title()`, and
    substring search (`in` / `includes`). Case mapping covers ASCII letters
    only; whitespace is the set Python's `str.isspace()` accepts. */
module Text {

  /** Python's `str.isspace()`: the characters `str.strip()` removes. */
  predicate IsSpace(c: char) {
    || c == ' '
    || '\t' <= c <= '\r'
    || '\U{1C}' <= c <= '\U{1F}'
    || c == '\U{85}' || c == '\U{A0}' || c == '\U{1680}'
    || '\U{2000}' <= c <= '\U{200A}'
    || c == '\U{2028}' || c == '\U{2029}' || c == '\U{202F}' || c == '\U{205F}' || c == '\U{3000}'
  }

  predicate AllSpace(s: string) {
    forall i :: 0 <= i < |s| ==> IsSpace(s[i])
  }

  /** Drops leading whitespace; the result is the suffix of `s` that starts at
      its first non-space character. */
  function TrimLeft(s: string): (r: string)
    ensures |r| <= |s| && r == s[|s| - |r|..]
    ensures AllSpace(s[..|s| - |r|])
    ensures r == [] || !IsSpace(r[0])
  {
    if |s| > 0 && IsSpace(s[0]) then TrimLeft(s[1..]) else s
  }

  /** Drops trailing whitespace; the result is the prefix of `s` that ends at
      its last non-space character. */
  function TrimRight(s: string): (r: string)
    ensures |r| <= |s| && r == s[..|r|]
    ensures AllSpace(s[|r|..])
    ensures r == [] || !IsSpace(r[|r| - 1])
  {
    if |s| > 0 && IsSpace(s[|s| - 1]) then
      var t := s[..|s| - 1];
      var r := TrimRight(t);
      assert t[..|r|] == s[..|r|];
      assert s[|r|..] == t[|r|..] + [s[|s| - 1]];
      r
    else s
  }

  /** Python's `str.strip()` with no argument. */
  function Strip(s: string): (r: string)
    ensures r == [] || (!IsSpace(r[0]) && !IsSpace(r[|r| - 1]))
    ensures var k := |s| - |TrimLeft(s)|;
      && k + |r| <= |s|
      && r == s[k..k + |r|]
      && AllSpace(s[..k]) && AllSpace(s[k + |r|..])
  {
    TrimRight(TrimLeft(s))
  }

  lemma {:induction false} TrimLeftSkipsSpace(w: string, s: string)
    requires AllSpace(w)
    ensures TrimLeft(w + s) == TrimLeft(s)
  {
    if w != [] {
      assert (w + s)[0] == w[0] && IsSpace(w[0]);
      assert (w + s)[1..] == w[1..] + s;
      assert AllSpace(w[1..]) by {
        forall i | 0 <= i < |w| - 1 ensures IsSpace(w[1..][i]) { assert w[1..][i] == w[i + 1]; }
      }
      TrimLeftSkipsSpace(w[1..], s);
    } else {
      assert w + s == s;
    }
  }

  lemma {:induction false} TrimRightSkipsSpace(s: string, w: string)
    requires AllSpace(w)
    ensures TrimRight(s + w) == TrimRight(s)
  {
    if w != [] {
      assert (s + w)[|s + w| - 1] == w[|w| - 1] && IsSpace(w[|w| - 1]);
      assert (s + w)[..|s + w| - 1] == s + w[..|w| - 1];
      assert AllSpace(w[..|w| - 1]) by {
        var u := w[..|w| - 1];
        forall i | 0 <= i < |u| ensures IsSpace(u[i]) { assert u[i] == w[i]; }
      }
      TrimRightSkipsSpace(s, w[..|w| - 1]);
    } else {
      assert s + w == s;
    }
  }

  /** Trailing whitespace survives a left trim unless everything was space. */
  lemma {:induction false} TrimLeftAppendSpace(s: string, w: string)
    requires AllSpace(w)
    ensures TrimLeft(s + w) == if AllSpace(s) then [] else TrimLeft(s) + w
  {
    if s == [] {
      assert s + w == w;
      var r := TrimLeft(w);
      assert AllSpace(r);
    } else if IsSpace(s[0]) {
      assert (s + w)[1..] == s[1..] + w;
      TrimLeftAppendSpace(s[1..], w);
    } else {
      assert !AllSpace(s);
    }
  }

  /** Whitespace around a string never changes what `strip()` returns. */
  lemma StripIgnoresSurroundingSpace(w1: string, s: string, w2: string)
    requires AllSpace(w1) && AllSpace(w2)
    ensures Strip(w1 + s + w2) == Strip(s)
  {
    assert w1 + s + w2 == w1 + (s + w2);
    TrimLeftSkipsSpace(w1, s + w2);
    TrimLeftAppendSpace(s, w2);
    if AllSpace(s) {
      var r := TrimLeft(s);
      assert AllSpace(r);
    } else {
      TrimRightSkipsSpace(TrimLeft(s), w2);
    }
  }

  /** `strip()` yields the empty string exactly for all-whitespace input. */
  lemma StripEmptyIffAllSpace(s: string)
    ensures Strip(s) == [] <==> AllSpace(s)
  {
    var l := TrimLeft(s);
    if AllSpace(s) {
      assert AllSpace(l);
    } else {
      assert s[..|s| - 0] == s;
      assert l != [];
      assert l[0..] == l;
    }
  }

  function LowerChar(c: char): char {
    if 'A' <= c <= 'Z' then (c as int + 32) as char else c
  }

  function UpperChar(c: char): char {
    if 'a' <= c <= 'z' then (c as int - 32) as char else c
  }

  /** A cased character in the sense of `str.title()`: here, an ASCII letter. */
  predicate IsCased(c: char) {
    'A' <= c <= 'Z' || 'a' <= c <= 'z'
  }

  predicate IsUpper(c: char) {
    'A' <= c <= 'Z'
  }

  /** Python's `str.lower()` and JavaScript's `toLowerCase()`, on ASCII letters:
      no upper-case letter is left, each letter keeps its identity, and every
      other character is unchanged. */
  function Lower(s: string): (r: string)
    ensures |r| == |s|
    ensures forall i {:trigger r[i]} :: 0 <= i < |s| ==>
      && !IsUpper(r[i])
      && (IsUpper(s[i]) ==> r[i] as int == s[i] as int + 32)
      && (!IsUpper(s[i]) ==> r[i] == s[i])
  {
    seq(|s|, i requires 0 <= i < |s| => LowerChar(s[i]))
  }

  /** A letter in upper or lower case as asked; any other character as it is. */
  function CaseAs(c: char, upper: bool): (r: char)
    ensures IsCased(r) == IsCased(c) && LowerChar(r) == LowerChar(c)
    ensures !IsCased(c) ==> r == c
    ensures IsCased(c) ==> (IsUpper(r) <==> upper)
  {
    if !IsCased(c) then c else if upper then UpperChar(c) else LowerChar(c)
  }

  /** Python's `str.title()`: a cased character is upper-cased when the
      character before it is not cased, and lower-cased otherwise. */
  function TitleAfter(s: string, prevCased: bool): (r: string)
    ensures |r| == |s|
    ensures forall i {:trigger r[i]} :: 0 <= i < |s| ==>
      && IsCased(r[i]) == IsCased(s[i])
      && LowerChar(r[i]) == LowerChar(s[i])
      && (!IsCased(s[i]) ==> r[i] == s[i])
      && (IsCased(s[i]) ==> (IsUpper(r[i]) <==> if i == 0 then !prevCased else !IsCased(s[i - 1])))
  {
    if s == [] then []
    else
      var rest := TitleAfter(s[1..], IsCased(s[0]));
      var r := [CaseAs(s[0], !prevCased)] + rest;
      assert forall i {:trigger r[i]} :: 1 <= i < |s| ==> r[i] == rest[i - 1] && s[i] == s[1..][i - 1];
      r
  }

  /** Python's `str.title()`: every word (a run of cased characters) starts
      with an upper-case letter and continues in lower case; the letters and
      all other characters are kept. */
  function Title(s: string): (r: string)
    ensures |r| == |s|
    ensures forall i {:trigger r[i]} :: 0 <= i < |s| ==>
      && IsCased(r[i]) == IsCased(s[i])
      && LowerChar(r[i]) == LowerChar(s[i])
      && (!IsCased(s[i]) ==> r[i] == s[i])
      && (IsCased(s[i]) ==> (IsUpper(r[i]) <==> i == 0 || !IsCased(s[i - 1])))
  {
    TitleAfter(s, false)
  }

  lemma {:induction false} TitleAfterIgnoresCase(s: string, prevCased: bool)
    ensures TitleAfter(Lower(s), prevCased) == TitleAfter(s, prevCased)
  {
    if s != [] {
      assert Lower(s)[1..] == Lower(s[1..]);
      TitleAfterIgnoresCase(s[1..], IsCased(s[0]));
    }
  }

  /** `title()` looks only at the letters' identity, never at their case. */
  lemma TitleIgnoresCase(s: string, t: string)
    requires Lower(s) == Lower(t)
    ensures Title(s) == Title(t)
  {
    TitleAfterIgnoresCase(s, false);
    TitleAfterIgnoresCase(t, false);
  }

  /** Lower-casing neither creates nor removes whitespace. */
  lemma LowerCharKeepsSpace(c: char)
    ensures IsSpace(LowerChar(c)) == IsSpace(c)
  {
  }

  /** Lower-casing works character by character, so it commutes with
      dropping the first or the last character. */
  lemma LowerDropFirst(s: string)
    requires |s| > 0
    ensures Lower(s)[1..] == Lower(s[1..])
  {
    var a, b := Lower(s)[1..], Lower(s[1..]);
    forall k | 0 <= k < |s| - 1
      ensures a[k] == b[k]
    {
      assert a[k] == LowerChar(s[k + 1]);
      assert b[k] == LowerChar(s[1..][k]);
    }
  }

  lemma LowerDropLast(s: string)
    requires |s| > 0
    ensures Lower(s)[..|s| - 1] == Lower(s[..|s| - 1])
  {
    var a, b := Lower(s)[..|s| - 1], Lower(s[..|s| - 1]);
    forall k | 0 <= k < |s| - 1
      ensures a[k] == b[k]
    {
      assert a[k] == LowerChar(s[k]);
      assert b[k] == LowerChar(s[..|s| - 1][k]);
    }
  }

  lemma {:induction false} TrimLeftLower(s: string)
    ensures TrimLeft(Lower(s)) == Lower(TrimLeft(s))
  {
    if |s| > 0 {
      var ls := Lower(s);
      assert ls[0] == LowerChar(s[0]);
      LowerCharKeepsSpace(s[0]);
      if IsSpace(s[0]) {
        LowerDropFirst(s);
        TrimLeftLower(s[1..]);
      }
    }
  }

  lemma {:induction false} TrimRightLower(s: string)
    ensures TrimRight(Lower(s)) == Lower(TrimRight(s))
  {
    if |s| > 0 {
      var n, ls := |s| - 1, Lower(s);
      assert |ls| - 1 == n && ls[n] == LowerChar(s[n]);
      LowerCharKeepsSpace(s[n]);
      if IsSpace(s[n]) {
        LowerDropLast(s);
        TrimRightLower(s[..n]);
        assert TrimRight(ls) == TrimRight(ls[..n]);
        assert TrimRight(s) == TrimRight(s[..n]);
      } else {
        assert TrimRight(ls) == ls;
        assert TrimRight(s) == s;
      }
    }
  }

  /** Stripping and lower-casing commute. */
  lemma StripLowerCommute(s: string)
    ensures Strip(Lower(s)) == Lower(Strip(s))
  {
    TrimLeftLower(s);
    TrimRightLower(TrimLeft(s));
  }

  /** Strings equal up to case stay equal up to case after `strip()`. */
  lemma StripIgnoresCase(s: string, t: string)
    requires Lower(s) == Lower(t)
    ensures Lower(Strip(s)) == Lower(Strip(t))
  {
    StripLowerCommute(s);
    StripLowerCommute(t);
  }

  /** Python's `needle in hay` and JavaScript's `hay.includes(needle)`. */
  predicate Contains(hay: string, needle: string) {
    exists i :: 0 <= i <= |hay| - |needle| && OccursAt(hay, needle, i)
  }

  predicate OccursAt(hay: string, needle: string, i: int) {
    0 <= i && i + |needle| <= |hay| && hay[i..i + |needle|] == needle
  }
}
