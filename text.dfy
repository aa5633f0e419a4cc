/** The Python string operations the response clean-up uses: `str.strip()`
    without an argument, and `str.replace(pat, "")`, with the
    predicates their properties are stated in. */
module Text {

  /** The characters `str.isspace()` accepts, which `str.strip()` removes:
      the ASCII controls TAB through CR, the separators FS, GS, RS, US, the
      space, NEL, NO-BREAK SPACE and the Unicode space separators. */
  predicate IsSpace(c: char) {
    ('\U{9}' <= c <= '\U{d}') || ('\U{1c}' <= c <= '\U{20}') ||
    c == '\U{85}' || c == '\U{a0}' || c == '\U{1680}' ||
    ('\U{2000}' <= c <= '\U{200a}') || c == '\U{2028}' || c == '\U{2029}' ||
    c == '\U{202f}' || c == '\U{205f}' || c == '\U{3000}'
  }

  predicate AllSpace(s: string) {
    forall i :: 0 <= i < |s| ==> IsSpace(s[i])
  }

  /** Neither starts nor ends with whitespace. */
  predicate IsStripped(s: string) {
    s == [] || (!IsSpace(s[0]) && !IsSpace(s[|s| - 1]))
  }

  /** The length of the longest all-whitespace prefix. */
  function LeadingSpaces(s: string): (k: nat)
    ensures k <= |s| && AllSpace(s[..k])
    ensures k < |s| ==> !IsSpace(s[k])
  {
    if s != [] && IsSpace(s[0]) then
      var k' := LeadingSpaces(s[1..]);
      assert s[..k' + 1] == [s[0]] + s[1..][..k'];
      k' + 1
    else 0
  }

  /** The length of the longest all-whitespace suffix. */
  function TrailingSpaces(s: string): (k: nat)
    ensures k <= |s| && AllSpace(s[|s| - k..])
    ensures k < |s| ==> !IsSpace(s[|s| - 1 - k])
  {
    if s != [] && IsSpace(s[|s| - 1]) then
      var init := s[..|s| - 1];
      var k' := TrailingSpaces(init);
      assert s[|s| - (k' + 1)..] == init[|init| - k'..] + [s[|s| - 1]];
      k' + 1
    else 0
  }

  /** Python's `s.strip()`: `s` less its whitespace prefix and suffix. */
  function Strip(s: string): (r: string)
    ensures IsStripped(r)
    ensures exists p, q :: s == p + r + q && AllSpace(p) && AllSpace(q)
  {
    var k := LeadingSpaces(s);
    var t := s[k..];
    var n := TrailingSpaces(t);
    var r := t[..|t| - n];
    assert r != [] ==> r[0] == s[k] && r[|r| - 1] == t[|t| - 1 - n];
    assert IsStripped(r);
    var p, q := s[..k], t[|t| - n..];
    assert s == p + r + q;
    assert AllSpace(p) && AllSpace(q);
    r
  }

  lemma {:induction false} LeadingSpacesOf(p: string, rest: string)
    requires AllSpace(p) && rest != [] && !IsSpace(rest[0])
    ensures LeadingSpaces(p + rest) == |p|
    decreases |p|
  {
    var s := p + rest;
    if p == [] {
      assert s == rest;
    } else {
      assert s[0] == p[0] && IsSpace(s[0]);
      assert s[1..] == p[1..] + rest;
      LeadingSpacesOf(p[1..], rest);
      assert LeadingSpaces(s) == LeadingSpaces(s[1..]) + 1;
    }
  }

  lemma {:induction false} TrailingSpacesOf(rest: string, q: string)
    requires AllSpace(q) && rest != [] && !IsSpace(rest[|rest| - 1])
    ensures TrailingSpaces(rest + q) == |q|
    decreases |q|
  {
    if q != [] {
      assert (rest + q)[..|rest + q| - 1] == rest + q[..|q| - 1];
      TrailingSpacesOf(rest, q[..|q| - 1]);
    }
  }

  /** The two ensures of Strip determine its result: cutting any whitespace
      prefix and suffix off a stripped string gives that string back. */
  lemma StripUnique(p: string, b: string, q: string)
    requires AllSpace(p) && AllSpace(q) && IsStripped(b)
    ensures Strip(p + b + q) == b
  {
    var s := p + b + q;
    if b == [] {
      assert AllSpace(s);
      assert LeadingSpaces(s) == |s|;
    } else {
      assert s == p + (b + q);
      LeadingSpacesOf(p, b + q);
      var t := s[|p|..];
      assert t == b + q;
      TrailingSpacesOf(b, q);
      assert t[..|t| - |q|] == b;
    }
  }

  /** Stripping a stripped string changes nothing. */
  lemma StripIdempotent(s: string)
    ensures Strip(Strip(s)) == Strip(s)
  {
    StripUnique([], Strip(s), []);
    assert [] + Strip(s) + [] == Strip(s);
  }

  /** `pat` occurs in `s` starting at index `i`. */
  predicate OccursAt(s: string, pat: string, i: int) {
    0 <= i && i + |pat| <= |s| && s[i..i + |pat|] == pat
  }

  /** `pat` occurs somewhere in `s`. */
  predicate Contains(s: string, pat: string) {
    exists i :: 0 <= i <= |s| - |pat| && OccursAt(s, pat, i)
  }

  /** A string with no occurrence of `pat` has none in any part of it. */
  lemma AbsentFromPart(p: string, r: string, q: string, pat: string)
    requires !Contains(p + r + q, pat)
    ensures !Contains(r, pat)
  {
    var s := p + r + q;
    forall i | 0 <= i <= |r| - |pat| ensures !OccursAt(r, pat, i) {
      assert r[i..i + |pat|] == s[|p| + i..|p| + i + |pat|];
      assert !OccursAt(s, pat, |p| + i);
    }
  }

  /** Stripping never creates an occurrence. */
  lemma StripKeepsAbsence(s: string, pat: string)
    requires !Contains(s, pat)
    ensures !Contains(Strip(s), pat)
  {
    var p, q :| s == p + Strip(s) + q && AllSpace(p) && AllSpace(q);
    AbsentFromPart(p, Strip(s), q, pat);
  }

  /** Python's `s.replace(pat, "")`: scans left to right and deletes each
      occurrence of `pat` that does not overlap one already deleted. */
  function RemoveAll(s: string, pat: string): (r: string)
    requires pat != []
    ensures |r| <= |s|
    decreases |s|
  {
    if |s| < |pat| then s
    else if s[..|pat|] == pat then RemoveAll(s[|pat|..], pat)
    else [s[0]] + RemoveAll(s[1..], pat)
  }

  /** A string that does not start with `pat` keeps its first character. */
  lemma RemoveAllKeepsHead(s: string, pat: string)
    requires pat != [] && s != []
    requires !(|pat| <= |s| && s[..|pat|] == pat)
    ensures RemoveAll(s, pat) == [s[0]] + RemoveAll(s[1..], pat)
  {
    if |s| < |pat| {
      assert [s[0]] + s[1..] == s;
    }
  }

  /** An occurrence in `s` after its first position is one in `s[1..]`, and back. */
  lemma ContainsInTail(s: string, pat: string)
    requires s != [] && !OccursAt(s, pat, 0)
    ensures Contains(s, pat) <==> Contains(s[1..], pat)
  {
    if Contains(s, pat) {
      var i :| 0 <= i <= |s| - |pat| && OccursAt(s, pat, i);
      assert s[1..][i - 1..i - 1 + |pat|] == s[i..i + |pat|];
      assert OccursAt(s[1..], pat, i - 1);
    }
    if Contains(s[1..], pat) {
      var i :| 0 <= i <= |s| - 1 - |pat| && OccursAt(s[1..], pat, i);
      assert s[1..][i..i + |pat|] == s[i + 1..i + 1 + |pat|];
      assert OccursAt(s, pat, i + 1);
    }
  }

  /** Deleting changes the string exactly when `pat` occurs in it. */
  lemma {:induction false} RemoveAllFixpoint(s: string, pat: string)
    requires pat != []
    ensures RemoveAll(s, pat) == s <==> !Contains(s, pat)
    decreases |s|
  {
    if |s| < |pat| {
    } else if s[..|pat|] == pat {
      assert OccursAt(s, pat, 0);
    } else {
      RemoveAllFixpoint(s[1..], pat);
      ContainsInTail(s, pat);
      assert RemoveAll(s, pat) == [s[0]] + RemoveAll(s[1..], pat);
      assert s == [s[0]] + s[1..];
    }
  }

  /** A prefix free of `pat`'s first character is copied through unchanged. */
  lemma {:induction false} RemoveAllSkipsPrefix(a: string, x: string, pat: string)
    requires pat != []
    requires forall k :: 0 <= k < |a| ==> a[k] != pat[0]
    ensures RemoveAll(a + x, pat) == a + RemoveAll(x, pat)
    decreases |a|
  {
    if a == [] {
      assert a + x == x;
    } else {
      var s := a + x;
      assert s[0] == a[0];
      RemoveAllKeepsHead(s, pat);
      assert s[1..] == a[1..] + x;
      RemoveAllSkipsPrefix(a[1..], x, pat);
      assert a == [a[0]] + a[1..];
    }
  }

  const Backticks: string := "```"

  /** What deleting every run of three backticks leaves behind: no triple
      backtick, and a leading backtick (or pair) that was already there. */
  lemma {:induction false} RemoveBackticksShape(s: string)
    ensures var r := RemoveAll(s, Backticks);
      !Contains(r, Backticks) &&
      (|r| >= 1 && r[0] == '`' ==> |s| >= 1 && s[0] == '`') &&
      (|r| >= 2 && r[0] == '`' && r[1] == '`' ==> |s| >= 2 && s[0] == '`' && s[1] == '`')
    decreases |s|
  {
    var r := RemoveAll(s, Backticks);
    if |s| < 3 {
      assert r == s;
    } else if s[..3] == Backticks {
      RemoveBackticksShape(s[3..]);
      assert s[0] == '`' && s[1] == '`';
    } else {
      var r' := RemoveAll(s[1..], Backticks);
      RemoveBackticksShape(s[1..]);
      assert r == [s[0]] + r';
      forall i | 0 <= i <= |r| - 3 ensures !OccursAt(r, Backticks, i) {
        if i >= 1 {
          assert r[i..i + 3] == r'[i - 1..i + 2];
          assert !OccursAt(r', Backticks, i - 1);
        } else if s[0] == '`' {
          assert !(s[1] == '`' && s[2] == '`');
          assert !(r'[0] == '`' && r'[1] == '`');
          assert r[..3] == [s[0], r'[0], r'[1]];
        }
      }
      if |r| >= 2 && r[0] == '`' && r[1] == '`' {
        assert r'[0] == '`';
      }
    }
  }

  /** After `s.replace("```", "")` no triple backtick is left. */
  lemma NoBackticksAfterRemoval(s: string)
    ensures !Contains(RemoveAll(s, Backticks), Backticks)
  {
    RemoveBackticksShape(s);
  }
}
