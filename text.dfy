/** The handful of Python `str` operations the programs use, on `seq<char>`. */
module Text {

  /** Python's `str.isspace` for a single character: the ASCII separators and
      control whitespace plus the Unicode space characters. */
  predicate IsSpace(c: char)
  {
    c == ' ' || c == '\t' || c == '\n' || c == '\r' || c == '\U{0B}' || c == '\U{0C}'
    || ('\U{1C}' <= c <= '\U{1F}') || c == '\U{85}' || c == '\U{A0}' || c == '\U{1680}'
    || ('\U{2000}' <= c <= '\U{200A}') || c == '\U{2028}' || c == '\U{2029}'
    || c == '\U{202F}' || c == '\U{205F}' || c == '\U{3000}'
  }

  predicate AllSpace(s: string)
  {
    forall k :: 0 <= k < |s| ==> IsSpace(s[k])
  }

  /** `s.strip()`: drops the leading and the trailing whitespace. */
  function Strip(s: string): (r: string)
    ensures r != [] ==> !IsSpace(r[0]) && !IsSpace(r[|r| - 1])
    ensures |r| <= |s|
    decreases |s|
  {
    if s != [] && IsSpace(s[0]) then Strip(s[1..])
    else if s != [] && IsSpace(s[|s| - 1]) then Strip(s[..|s| - 1])
    else s
  }

  /** A string with no outer whitespace is its own strip. */
  lemma StripOfStripped(s: string)
    requires s != [] ==> !IsSpace(s[0]) && !IsSpace(s[|s| - 1])
    ensures Strip(s) == s
  {
  }

  /** Stripping twice is stripping once. */
  lemma StripIdempotent(s: string)
    ensures Strip(Strip(s)) == Strip(s)
  {
    StripOfStripped(Strip(s));
  }

  /** `t` stands at `lo` in `s` with only whitespace around it. */
  ghost predicate Padded(s: string, t: string, lo: nat)
  {
    lo + |t| <= |s| && t == s[lo..lo + |t|] && AllSpace(s[..lo]) && AllSpace(s[lo + |t|..])
  }

  /** Whitespace added in front keeps a padded block padded, one place on. */
  lemma PaddedCons(c: char, s: string, t: string, lo: nat)
    requires IsSpace(c) && Padded(s, t, lo)
    ensures Padded([c] + s, t, lo + 1)
  {
    var cs := [c] + s;
    assert cs[lo + 1..lo + 1 + |t|] == s[lo..lo + |t|];
    assert cs[..lo + 1] == [c] + s[..lo];
    assert cs[lo + 1 + |t|..] == s[lo + |t|..];
  }

  /** Whitespace added behind keeps a padded block padded, in place. */
  lemma PaddedSnoc(s: string, c: char, t: string, lo: nat)
    requires IsSpace(c) && Padded(s, t, lo)
    ensures Padded(s + [c], t, lo)
  {
    var sc := s + [c];
    assert sc[lo..lo + |t|] == s[lo..lo + |t|];
    assert sc[..lo] == s[..lo];
    assert sc[lo + |t|..] == s[lo + |t|..] + [c];
  }

  /** The strip is padded inside the string: peeling one whitespace
      character off either end keeps it so. */
  lemma {:induction false} StripPadded(s: string) returns (lo: nat)
    ensures Padded(s, Strip(s), lo)
    decreases |s|, 1
  {
    if s != [] && IsSpace(s[0]) {
      lo := StripPaddedFront(s);
    } else if s != [] && IsSpace(s[|s| - 1]) {
      lo := StripPaddedBack(s);
    } else {
      lo := 0;
      assert s[..0] == [] && s[|s|..] == [];
    }
  }

  /** StripPadded when the string opens with whitespace. */
  lemma {:induction false} StripPaddedFront(s: string) returns (lo: nat)
    requires s != [] && IsSpace(s[0])
    ensures Padded(s, Strip(s), lo)
    decreases |s|, 0
  {
    var rest := s[1..];
    assert Strip(s) == Strip(rest);
    var l := StripPadded(rest);
    PaddedCons(s[0], rest, Strip(rest), l);
    assert [s[0]] + rest == s;
    lo := l + 1;
  }

  /** StripPadded when only the string's end is whitespace. */
  lemma {:induction false} StripPaddedBack(s: string) returns (lo: nat)
    requires s != [] && !IsSpace(s[0]) && IsSpace(s[|s| - 1])
    ensures Padded(s, Strip(s), lo)
    decreases |s|, 0
  {
    var init := s[..|s| - 1];
    assert Strip(s) == Strip(init);
    lo := StripPadded(init);
    PaddedSnoc(init, s[|s| - 1], Strip(init), lo);
    assert init + [s[|s| - 1]] == s;
  }

  /** The strip is a block of the string, with only whitespace around it. */
  lemma StripInside(s: string) returns (lo: nat)
    ensures lo + |Strip(s)| <= |s| && Strip(s) == s[lo..lo + |Strip(s)|]
    ensures AllSpace(s[..lo]) && AllSpace(s[lo + |Strip(s)|..])
  {
    lo := StripPadded(s);
  }

  /** Strip is blank exactly when the string is all whitespace. */
  lemma {:induction false} StripEmptyIffAllSpace(s: string)
    ensures Strip(s) == [] <==> AllSpace(s)
  {
    var lo := StripInside(s);
    if Strip(s) == [] {
      assert s == s[..lo] + s[lo..];
    } else {
      assert !IsSpace(s[lo]);
    }
  }

  /** `s.startswith(p)`. */
  predicate StartsWith(s: string, p: string)
  {
    |p| <= |s| && s[..|p|] == p
  }

  /** `t in s` for strings: `t` occurs in `s` as a contiguous block. */
  predicate Contains(s: string, t: string)
    decreases |s|
  {
    StartsWith(s, t) || (s != [] && Contains(s[1..], t))
  }

  /** Index of the first occurrence of `c` in `s` (`s.index(c)`). */
  function IndexOf(s: string, c: char): (i: nat)
    requires c in s
    ensures i < |s| && s[i] == c && c !in s[..i]
  {
    if s[0] == c then 0 else 1 + IndexOf(s[1..], c)
  }

  /** `s.split(c)` for a one-character separator: the pieces between the
      separators, always at least one. */
  function Split(s: string, c: char): (r: seq<string>)
    ensures |r| >= 1
    ensures forall k :: 0 <= k < |r| ==> c !in r[k]
    decreases |s|
  {
    if c !in s then [s]
    else
      var i := IndexOf(s, c);
      [s[..i]] + Split(s[i + 1..], c)
  }

  /** `sep.join(xs)`. */
  function Join(sep: string, xs: seq<string>): (r: string)
  {
    if xs == [] then []
    else if |xs| == 1 then xs[0]
    else xs[0] + sep + Join(sep, xs[1..])
  }

  /** Splitting on `c` and joining with `c` gives the string back. */
  lemma {:induction false} JoinSplit(s: string, c: char)
    ensures Join([c], Split(s, c)) == s
    decreases |s|
  {
    if c in s {
      var i := IndexOf(s, c);
      var rest := s[i + 1..];
      var pieces := Split(rest, c);
      JoinSplit(rest, c);
      assert Split(s, c) == [s[..i]] + pieces;
      assert ([s[..i]] + pieces)[1..] == pieces;
      assert Join([c], Split(s, c)) == s[..i] + [c] + Join([c], pieces);
      assert s == s[..i] + [c] + rest;
    }
  }

  /** `s.split(c, 1)`: the text before the first `c` and the rest, or `[s]`. */
  function SplitOnce(s: string, c: char): (r: seq<string>)
    ensures c in s ==> |r| == 2 && r[0] + [c] + r[1] == s && c !in r[0]
    ensures c !in s ==> r == [s]
  {
    if c in s then
      var i := IndexOf(s, c);
      assert s == s[..i] + [c] + s[i + 1..];
      [s[..i], s[i + 1..]]
    else [s]
  }

  /** `s.lower()` on the ASCII letters. */
  function Lower(s: string): (r: string)
    ensures |r| == |s|
  {
    seq(|s|, i requires 0 <= i < |s| => if 'A' <= s[i] <= 'Z' then (s[i] as int + 32) as char else s[i])
  }
}
