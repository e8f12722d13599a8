/** Python `str` operations the core relies on: `isspace`/`strip`, `in`,
    `split(sep)`, `sep.join(parts)` and `splitlines()`, over `seq<char>`. */
module Text {

  import opened Host

  /** `c.isspace()` for one character: the ASCII controls \t \n \v \f \r,
      the separators \x1c-\x1f, space, and the Unicode space characters. */
  predicate IsSpace(c: char) {
    c == ' ' || ('\t' <= c <= '\r') || ('\U{1c}' <= c <= '\U{1f}') ||
    c == '\U{85}' || c == '\U{a0}' || c == '\U{1680}' ||
    ('\U{2000}' <= c <= '\U{200a}') || c == '\U{2028}' || c == '\U{2029}' ||
    c == '\U{202f}' || c == '\U{205f}' || c == '\U{3000}'
  }

  /** The characters at which `str.splitlines()` breaks a line (\r\n counts once). */
  predicate IsLineBreak(c: char) {
    ('\n' <= c <= '\r') || ('\U{1c}' <= c <= '\U{1e}') ||
    c == '\U{85}' || c == '\U{2028}' || c == '\U{2029}'
  }

  /** No whitespace at either end: what `strip()` returns. */
  predicate IsTrimmed(s: string) {
    s == [] || (!IsSpace(s[0]) && !IsSpace(s[|s| - 1]))
  }

  /** `lstrip()`: a suffix of `s`, everything cut off is whitespace. */
  function TrimLeft(s: string): (r: string)
    ensures |r| <= |s| && r == s[|s| - |r|..]
    ensures forall i :: 0 <= i < |s| - |r| ==> IsSpace(s[i])
    ensures r == [] || !IsSpace(r[0])
    decreases |s|
  {
    if |s| > 0 && IsSpace(s[0]) then TrimLeft(s[1..]) else s
  }

  /** `rstrip()`: a prefix of `s`, everything cut off is whitespace. */
  function TrimRight(s: string): (r: string)
    ensures |r| <= |s| && r == s[..|r|]
    ensures forall i :: |r| <= i < |s| ==> IsSpace(s[i])
    ensures r == [] || !IsSpace(r[|r| - 1])
    decreases |s|
  {
    if |s| > 0 && IsSpace(s[|s| - 1]) then TrimRight(s[..|s| - 1]) else s
  }

  /** `strip()`: the infix `s[k..k + |r|]` left after removing whitespace from both ends. */
  function Strip(s: string): (r: string)
    ensures IsTrimmed(r)
    ensures exists k :: StrippedAt(s, r, k)
  {
    var t := TrimLeft(s);
    var r := TrimRight(t);
    StripParts(s, t, r);
    r
  }

  /** A whitespace-free-ended prefix of a suffix, both cut at whitespace, is
      the stripped infix. */
  lemma StripParts(s: string, t: string, r: string)
    requires |t| <= |s| && t == s[|s| - |t|..]
    requires forall i :: 0 <= i < |s| - |t| ==> IsSpace(s[i])
    requires t == [] || !IsSpace(t[0])
    requires |r| <= |t| && r == t[..|r|]
    requires forall i :: |r| <= i < |t| ==> IsSpace(t[i])
    requires r == [] || !IsSpace(r[|r| - 1])
    ensures IsTrimmed(r) && StrippedAt(s, r, |s| - |t|)
  {
    var k := |s| - |t|;
    if r != [] {
      assert r[0] == t[0];
    }
    forall i | 0 <= i < |r| ensures r[i] == s[k + i] {
      assert r[i] == t[i];
    }
    assert r == s[k..k + |r|];
    forall i | k + |r| <= i < |s| ensures IsSpace(s[i]) {
      assert s[i] == t[i - k];
    }
  }

  /** `r` is `s[k..k + |r|]` and everything around it is whitespace. */
  predicate StrippedAt(s: string, r: string, k: int) {
    0 <= k <= |s| - |r| && r == s[k..k + |r|] && Outside(s, k, k + |r|)
  }

  /** Everything of `s` outside `[a, b)` is whitespace. */
  predicate Outside(s: string, a: int, b: int) {
    (forall i :: 0 <= i < a && i < |s| ==> IsSpace(s[i])) &&
    (forall i :: b <= i < |s| && 0 <= i ==> IsSpace(s[i]))
  }

  /** Stripping a string that has no whitespace at its ends changes nothing. */
  lemma StripTrimmed(s: string)
    requires IsTrimmed(s)
    ensures Strip(s) == s
  {
  }

  // ---------------------------------------------------------------- substrings

  /** `pat` occurs in `s` starting at index `i`. */
  predicate OccursAt(s: string, pat: string, i: int) {
    0 <= i && i + |pat| <= |s| && s[i..i + |pat|] == pat
  }

  /** Python's `pat in s`. */
  predicate Contains(s: string, pat: string) {
    exists i :: 0 <= i <= |s| && OccursAt(s, pat, i)
  }

  /** An occurrence inside an infix is an occurrence in the whole string. */
  lemma OccursInInfix(s: string, a: nat, b: nat, pat: string, i: int)
    requires a <= b <= |s|
    requires OccursAt(s[a..b], pat, i)
    ensures OccursAt(s, pat, a + i)
  {
    var n := |pat|;
    var u := s[a..b];
    assert u[i..i + n] == pat;
    forall t | 0 <= t < n ensures s[a + i + t] == pat[t] {
      assert u[i..i + n][t] == u[i + t];
      assert u[i + t] == s[a + i + t];
    }
    assert s[a + i..a + i + n] == pat;
  }

  /** An infix of a string that does not contain `pat` does not contain it either. */
  lemma InfixAvoids(s: string, a: nat, b: nat, pat: string)
    requires a <= b <= |s|
    requires !Contains(s, pat)
    ensures !Contains(s[a..b], pat)
  {
    if Contains(s[a..b], pat) {
      var i :| 0 <= i <= |s[a..b]| && OccursAt(s[a..b], pat, i);
      OccursInInfix(s, a, b, pat, i);
    }
  }

  /** The first occurrence of `pat` at or after `k` (the scan of `str.find`). */
  function IndexFrom(s: string, pat: string, k: nat): (r: Option<nat>)
    requires k <= |s|
    ensures r.Some? ==> k <= r.value && OccursAt(s, pat, r.value)
    ensures r.Some? ==> forall j :: k <= j < r.value ==> !OccursAt(s, pat, j)
    ensures r.None? ==> forall j :: k <= j ==> !OccursAt(s, pat, j)
    decreases |s| - k
  {
    if k + |pat| > |s| then None
    else if s[k..k + |pat|] == pat then Some(k)
    else IndexFrom(s, pat, k + 1)
  }

  /** `s.find(pat)`, with None for -1. */
  function IndexOf(s: string, pat: string): (r: Option<nat>)
    ensures r.Some? ==> OccursAt(s, pat, r.value) && forall j :: 0 <= j < r.value ==> !OccursAt(s, pat, j)
    ensures r.None? <==> !Contains(s, pat)
  {
    IndexFrom(s, pat, 0)
  }

  // ---------------------------------------------------------------- join and split

  /** `sep.join(parts)`. */
  function Join(sep: string, parts: seq<string>): string
    decreases |parts|
  {
    if |parts| == 0 then ""
    else if |parts| == 1 then parts[0]
    else parts[0] + sep + Join(sep, parts[1..])
  }

  /** `s.split(sep)` for a non-empty separator: cut at each occurrence, left to right. */
  function Split(s: string, sep: string): (parts: seq<string>)
    requires |sep| > 0
    ensures |parts| >= 1
    ensures forall i :: 0 <= i < |parts| ==> !Contains(parts[i], sep)
    ensures Join(sep, parts) == s
    ensures |parts| >= 2 <==> Contains(s, sep)
    decreases |s|
  {
    match IndexOf(s, sep)
    case None => [s]
    case Some(i) =>
      var tail := Split(s[i + |sep|..], sep);
      var parts := [s[..i]] + tail;
      assert parts[1..] == tail;
      assert s == s[..i] + sep + s[i + |sep|..];
      forall j | 0 <= j < |parts| ensures !Contains(parts[j], sep) {
        if j == 0 && Contains(s[..i], sep) {
          var m :| 0 <= m <= |s[..i]| && OccursAt(s[..i], sep, m);
          OccursInInfix(s, 0, i, sep, m);
        }
      }
      parts
  }

  /** A string without `sep` (a single character) splits into itself alone. */
  lemma SplitWithout(s: string, c: char)
    requires c !in s
    ensures Split(s, [c]) == [s]
  {
  }

  /** Round trip: splitting a join at a one-character separator that no part
      contains gives the parts back. */
  lemma {:induction false} SplitJoin(c: char, parts: seq<string>)
    requires |parts| >= 1
    requires forall i :: 0 <= i < |parts| ==> c !in parts[i]
    ensures Split(Join([c], parts), [c]) == parts
    decreases |parts|
  {
    if |parts| == 1 {
      SplitWithout(parts[0], c);
    } else {
      var s := Join([c], parts);
      var p := parts[0];
      var rest := Join([c], parts[1..]);
      assert s == p + [c] + rest;
      assert OccursAt(s, [c], |p|);
      forall j | 0 <= j < |p| ensures !OccursAt(s, [c], j) {
        assert s[j] == p[j];
      }
      assert IndexOf(s, [c]) == Some(|p|);
      assert s[..|p|] == p;
      assert s[|p| + 1..] == rest;
      SplitJoin(c, parts[1..]);
    }
  }

  /** Joining with a separator character that a pattern does not contain
      creates no new occurrence of the pattern. */
  lemma {:induction false} JoinAvoids(c: char, parts: seq<string>, pat: string)
    requires |pat| > 0 && c !in pat
    requires forall i :: 0 <= i < |parts| ==> !Contains(parts[i], pat)
    ensures !Contains(Join([c], parts), pat)
    decreases |parts|
  {
    if |parts| >= 2 {
      var p := parts[0];
      var rest := Join([c], parts[1..]);
      JoinAvoids(c, parts[1..], pat);
      var s := p + ([c] + rest);
      assert Join([c], parts) == s;
      if Contains(s, pat) {
        var i :| 0 <= i <= |s| && OccursAt(s, pat, i);
        if i + |pat| <= |p| {
          OccursInConcat(p, [c] + rest, pat, i);
        } else if i > |p| {
          OccursInConcat(p, [c] + rest, pat, i);
          OccursInConcat([c], rest, pat, i - |p|);
        } else {
          CoveredByOccurrence(s, pat, i, |p|);
        }
      }
    }
  }

  /** An occurrence in `x + y` that lies wholly in `x` or wholly in `y` is one there. */
  lemma OccursInConcat(x: string, y: string, pat: string, i: int)
    requires OccursAt(x + y, pat, i)
    ensures i + |pat| <= |x| ==> OccursAt(x, pat, i)
    ensures i >= |x| ==> OccursAt(y, pat, i - |x|)
  {
    var s := x + y;
    var n := |pat|;
    assert s[i..i + n] == pat;
    if i + n <= |x| {
      forall t | 0 <= t < n ensures x[i + t] == pat[t] {
        assert s[i..i + n][t] == s[i + t];
      }
      assert x[i..i + n] == pat;
    }
    if i >= |x| {
      var h := i - |x|;
      forall t | 0 <= t < n ensures y[h + t] == pat[t] {
        assert s[i..i + n][t] == s[i + t];
      }
      assert y[h..h + n] == pat;
    }
  }

  /** Every character an occurrence covers is a character of the pattern. */
  lemma CoveredByOccurrence(s: string, pat: string, i: int, k: int)
    requires OccursAt(s, pat, i) && i <= k < i + |pat|
    ensures s[k] in pat
  {
    assert s[i..i + |pat|][k - i] == s[k];
  }

  // ---------------------------------------------------------------- splitlines

  /** The index of the first line break at or after `k`, or `|s|`. */
  function LineEnd(s: string, k: nat): (i: nat)
    requires k <= |s|
    ensures k <= i <= |s|
    ensures i < |s| ==> IsLineBreak(s[i])
    ensures forall j :: k <= j < i ==> !IsLineBreak(s[j])
    decreases |s| - k
  {
    if k == |s| || IsLineBreak(s[k]) then k else LineEnd(s, k + 1)
  }

  /** `s.splitlines()`: the lines without their terminators; no trailing empty
      line after a final terminator; "\r\n" is one terminator. */
  function SplitLines(s: string): (lines: seq<string>)
    ensures s == [] <==> lines == []
    decreases |s|
  {
    if s == [] then []
    else
      var i := LineEnd(s, 0);
      if i == |s| then [s]
      else
        var next := if s[i] == '\r' && i + 1 < |s| && s[i + 1] == '\n' then i + 2 else i + 1;
        [s[..i]] + SplitLines(s[next..])
  }

  /** Every line of a string that avoids `pat` avoids it too. */
  lemma {:induction false} SplitLinesAvoid(s: string, pat: string)
    requires !Contains(s, pat)
    ensures forall j :: 0 <= j < |SplitLines(s)| ==> !Contains(SplitLines(s)[j], pat)
    decreases |s|
  {
    if s != [] {
      var i := LineEnd(s, 0);
      if i == |s| {
      } else {
        var next := if s[i] == '\r' && i + 1 < |s| && s[i + 1] == '\n' then i + 2 else i + 1;
        InfixAvoids(s, 0, i, pat);
        InfixAvoids(s, next, |s|, pat);
        assert s[next..|s|] == s[next..];
        SplitLinesAvoid(s[next..], pat);
        assert SplitLines(s) == [s[..i]] + SplitLines(s[next..]);
      }
    }
  }

  /** A text whose only line breaks are "\n", followed by one "\n", splits
      into lines that "\n".join puts back together. */
  lemma {:induction false} JoinSplitLines(t: string)
    requires forall j :: 0 <= j < |t| ==> IsLineBreak(t[j]) ==> t[j] == '\n'
    ensures Join("\n", SplitLines(t + "\n")) == t
    decreases |t|
  {
    var s := t + "\n";
    var i := LineEnd(s, 0);
    assert i < |s| by { assert IsLineBreak(s[|s| - 1]); }
    assert s[i] == '\n';
    assert s[..i] == t[..i];
    if i == |t| {
      assert s[i + 1..] == [];
      assert SplitLines(s) == [t];
    } else {
      var rest := t[i + 1..];
      assert s[i + 1..] == rest + "\n";
      JoinSplitLines(rest);
      assert SplitLines(s) == [t[..i]] + SplitLines(rest + "\n");
      assert SplitLines(rest + "\n") != [];
      assert t == t[..i] + "\n" + rest;
    }
  }
}
