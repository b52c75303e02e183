/**
 * The handful of Python `str` primitives the OCR post-processing, the
 * language heuristics and the prompt plumbing rely on: `str.isspace`,
 * `str.strip`, `str.split()` (on whitespace runs), `str.split(sep)` with a
 * one-character separator, `sep.join(parts)` and the count of characters
 * whose code point exceeds 127.
 */
module Text {

  /**
   * `c.isspace()` in Python 3: exactly the characters `str.split()` and
   * `str.strip()` treat as whitespace, as closed ranges of code points.
   */
  predicate IsWhitespace(c: char) {
    InRanges(c as int, WhitespaceRanges)
  }

  const WhitespaceRanges: seq<(int, int)> :=
    [(0x09, 0x0D), (0x1C, 0x20), (0x85, 0x85), (0xA0, 0xA0), (0x1680, 0x1680), (0x2000, 0x200A),
     (0x2028, 0x2029), (0x202F, 0x202F), (0x205F, 0x205F), (0x3000, 0x3000)]

  /** Whether `n` lies in one of the closed ranges. */
  predicate InRanges(n: int, ranges: seq<(int, int)>) {
    ranges != [] && (ranges[0].0 <= n <= ranges[0].1 || InRanges(n, ranges[1..]))
  }

  /** The whitespace ranges written out, for reasoning about particular characters. */
  lemma WhitespaceCodes(c: char)
    ensures IsWhitespace(c) <==>
      var n := c as int;
      || 0x09 <= n <= 0x0D || 0x1C <= n <= 0x20 || n == 0x85 || n == 0xA0 || n == 0x1680
      || 0x2000 <= n <= 0x200A || n == 0x2028 || n == 0x2029 || n == 0x202F || n == 0x205F
      || n == 0x3000
  {
    var n := c as int;
    var r := WhitespaceRanges;
    assert r[0] == (0x9, 0xD) && (InRanges(n, r) <==> 0x9 <= n <= 0xD || InRanges(n, r[1..]));
    r := r[1..];
    assert r[0] == (0x1C, 0x20) && (InRanges(n, r) <==> 0x1C <= n <= 0x20 || InRanges(n, r[1..]));
    r := r[1..];
    assert r[0] == (0x85, 0x85) && (InRanges(n, r) <==> 0x85 <= n <= 0x85 || InRanges(n, r[1..]));
    r := r[1..];
    assert r[0] == (0xA0, 0xA0) && (InRanges(n, r) <==> 0xA0 <= n <= 0xA0 || InRanges(n, r[1..]));
    r := r[1..];
    assert r[0] == (0x1680, 0x1680) && (InRanges(n, r) <==> 0x1680 <= n <= 0x1680 || InRanges(n, r[1..]));
    assert r[1..] == WhitespaceRanges[5..];
    UpperWhitespaceCodes(n);
  }

  /** The whitespace ranges from U+2000 on, written out. */
  lemma UpperWhitespaceCodes(n: int)
    ensures InRanges(n, WhitespaceRanges[5..]) <==>
      0x2000 <= n <= 0x200A || n == 0x2028 || n == 0x2029 || n == 0x202F || n == 0x205F || n == 0x3000
  {
    var r := WhitespaceRanges[5..];
    assert r[0] == (0x2000, 0x200A) && (InRanges(n, r) <==> 0x2000 <= n <= 0x200A || InRanges(n, r[1..]));
    r := r[1..];
    assert r[0] == (0x2028, 0x2029) && (InRanges(n, r) <==> 0x2028 <= n <= 0x2029 || InRanges(n, r[1..]));
    r := r[1..];
    assert r[0] == (0x202F, 0x202F) && (InRanges(n, r) <==> 0x202F <= n <= 0x202F || InRanges(n, r[1..]));
    r := r[1..];
    assert r[0] == (0x205F, 0x205F) && (InRanges(n, r) <==> 0x205F <= n <= 0x205F || InRanges(n, r[1..]));
    r := r[1..];
    assert r[0] == (0x3000, 0x3000) && (InRanges(n, r) <==> 0x3000 <= n <= 0x3000 || InRanges(n, r[1..]));
    r := r[1..];
    assert !InRanges(n, r);
  }

  lemma SpaceAndNewlineAreWhitespace()
    ensures IsWhitespace(' ') && IsWhitespace('\n')
  {
    WhitespaceCodes(' ');
    WhitespaceCodes('\n');
  }

  /** No character below U+1680 outside the first four ranges is whitespace. */
  lemma NotWhitespace(c: char)
    requires var n := c as int; n < 0x1680 && !(0x09 <= n <= 0x0D) && !(0x1C <= n <= 0x20) && n != 0x85 && n != 0xA0
    ensures !IsWhitespace(c)
  {
    WhitespaceCodes(c);
  }

  predicate AllWhitespace(s: string) {
    forall i :: 0 <= i < |s| ==> IsWhitespace(s[i])
  }

  /** A maximal run produced by `str.split()`: non-empty and free of whitespace. */
  predicate IsWord(w: string) {
    w != [] && forall i :: 0 <= i < |w| ==> !IsWhitespace(w[i])
  }

  /** The characters of `s` that are not whitespace, in their original order. */
  function NonWs(s: string): (r: string)
    ensures |r| <= |s|
  {
    if s == [] then [] else (if IsWhitespace(s[0]) then [] else [s[0]]) + NonWs(s[1..])
  }

  /** The non-whitespace characters of every part, concatenated in order. */
  function NonWsAll(parts: seq<string>): string {
    if parts == [] then [] else NonWs(parts[0]) + NonWsAll(parts[1..])
  }

  lemma {:induction false} NonWsAppend(a: string, b: string)
    ensures NonWs(a + b) == NonWs(a) + NonWs(b)
  {
    if a != [] {
      assert (a + b)[1..] == a[1..] + b;
      NonWsAppend(a[1..], b);
    } else {
      assert a + b == b;
    }
  }

  lemma {:induction false} NonWsEmptyIffWhitespace(s: string)
    ensures NonWs(s) == [] <==> AllWhitespace(s)
  {
    if s != [] {
      NonWsEmptyIffWhitespace(s[1..]);
      if !IsWhitespace(s[0]) {
        assert NonWs(s)[0] == s[0];
      }
    }
  }

  lemma {:induction false} NonWsOfWord(w: string)
    requires forall i :: 0 <= i < |w| ==> !IsWhitespace(w[i])
    ensures NonWs(w) == w
  {
    if w != [] {
      NonWsOfWord(w[1..]);
    }
  }

  /** `s.lstrip()`: drops the leading whitespace and nothing else. */
  function TrimStart(s: string): (r: string)
    ensures |r| <= |s| && r == s[|s| - |r|..]
    ensures AllWhitespace(s[..|s| - |r|])
    ensures r == [] || !IsWhitespace(r[0])
    decreases |s|
  {
    if s != [] && IsWhitespace(s[0]) then
      var r := TrimStart(s[1..]);
      assert s[..|s| - |r|] == [s[0]] + s[1..][..|s| - 1 - |r|];
      r
    else s
  }

  /** `s.rstrip()`: drops the trailing whitespace and nothing else. */
  function TrimEnd(s: string): (r: string)
    ensures |r| <= |s| && r == s[..|r|]
    ensures AllWhitespace(s[|r|..])
    ensures r == [] || !IsWhitespace(r[|r| - 1])
    decreases |s|
  {
    if s != [] && IsWhitespace(s[|s| - 1]) then
      var r := TrimEnd(s[..|s| - 1]);
      assert s[|r|..] == s[..|s| - 1][|r|..] + [s[|s| - 1]];
      r
    else s
  }

  lemma NonWsOfTrimmed(s: string, k: nat)
    requires k <= |s|
    requires AllWhitespace(s[..k])
    ensures NonWs(s[k..]) == NonWs(s)
  {
    assert s == s[..k] + s[k..];
    NonWsAppend(s[..k], s[k..]);
    NonWsEmptyIffWhitespace(s[..k]);
  }

  lemma NonWsOfTrimmedEnd(s: string, k: nat)
    requires k <= |s|
    requires AllWhitespace(s[k..])
    ensures NonWs(s[..k]) == NonWs(s)
  {
    assert s == s[..k] + s[k..];
    NonWsAppend(s[..k], s[k..]);
    NonWsEmptyIffWhitespace(s[k..]);
  }

  /**
   * `s.strip()`: an unbroken slice of `s` with only whitespace before and
   * after it, which neither starts nor ends with whitespace and is empty
   * exactly when `s` is all whitespace. Characters inside the slice, inner
   * whitespace included, stay as they are.
   */
  function Strip(s: string): (r: string)
    ensures |r| <= |s|
    ensures exists i :: Framed(s, r, i)
    ensures r == [] || (!IsWhitespace(r[0]) && !IsWhitespace(r[|r| - 1]))
    ensures r == [] <==> AllWhitespace(s)
  {
    var t := TrimStart(s);
    var r := TrimEnd(t);
    TrimBothFramed(s);
    assert r != [] ==> r[0] == t[0];
    FramedEmptyIff(s, r, |s| - |t|);
    r
  }

  /** `r` is the slice of `s` at `i`, with only whitespace before and after it. */
  predicate Framed(s: string, r: string, i: int) {
    0 <= i && i + |r| <= |s| && r == s[i..i + |r|] && AllWhitespace(s[..i]) && AllWhitespace(s[i + |r|..])
  }

  /** Trimming both ends leaves the slice that starts after the leading whitespace. */
  lemma TrimBothFramed(s: string)
    ensures Framed(s, TrimEnd(TrimStart(s)), |s| - |TrimStart(s)|)
  {
    var t := TrimStart(s);
    var r := TrimEnd(t);
    var i := |s| - |t|;
    assert r == s[i..i + |r|];
    assert s[i + |r|..] == t[|r|..];
  }

  /** A framed slice that does not start with whitespace is empty exactly when the whole string is whitespace. */
  lemma FramedEmptyIff(s: string, r: string, i: int)
    requires Framed(s, r, i)
    requires r == [] || !IsWhitespace(r[0])
    ensures r == [] <==> AllWhitespace(s)
  {
    if r == [] {
      assert s == s[..i] + s[i..];
    } else {
      assert s[i] == r[0];
    }
  }

  /** A string that neither starts nor ends with whitespace is its own `strip()`. */
  lemma StripUnpadded(s: string)
    requires s == [] || (!IsWhitespace(s[0]) && !IsWhitespace(s[|s| - 1]))
    ensures Strip(s) == s
  {
    assert TrimStart(s) == s;
    assert TrimEnd(s) == s;
  }

  /** Stripping removes whitespace only. */
  lemma StripKeepsNonWs(s: string)
    ensures NonWs(Strip(s)) == NonWs(s)
  {
    var t := TrimStart(s);
    NonWsOfTrimmed(s, |s| - |t|);
    NonWsOfTrimmedEnd(t, |TrimEnd(t)|);
  }

  /**
   * Python's `not s.strip()`: the string is empty or whitespace only (by the
   * last postcondition of Strip, the same as `Strip(s) == []`).
   */
  predicate IsBlank(s: string) {
    AllWhitespace(s)
  }

  /** The longest prefix of `s` that holds no whitespace. */
  function LeadingRun(s: string): (w: string)
    ensures |w| <= |s| && w == s[..|w|]
    ensures forall i :: 0 <= i < |w| ==> !IsWhitespace(w[i])
    ensures |w| == |s| || IsWhitespace(s[|w|])
    ensures s != [] && !IsWhitespace(s[0]) ==> |w| > 0
  {
    if s == [] || IsWhitespace(s[0]) then [] else [s[0]] + LeadingRun(s[1..])
  }

  /** `s.split()` with no argument: the maximal runs of non-whitespace characters, in order. */
  function Words(s: string): (ws: seq<string>)
    ensures forall k :: 0 <= k < |ws| ==> IsWord(ws[k])
    decreases |s|
  {
    if s == [] then []
    else if IsWhitespace(s[0]) then Words(s[1..])
    else
      var w := LeadingRun(s);
      [w] + Words(s[|w|..])
  }

  /** `sep.join(parts)`. */
  function Join(sep: string, parts: seq<string>): (r: string)
    ensures parts != [] ==> |parts[0]| <= |r| && r[..|parts[0]|] == parts[0]
  {
    if parts == [] then []
    else if |parts| == 1 then parts[0]
    else parts[0] + sep + Join(sep, parts[1..])
  }

  /** `s.split(sep)` for a one-character separator: always at least one part, none holding `sep`. */
  function SplitOn(s: string, sep: char): (parts: seq<string>)
    ensures |parts| >= 1
    ensures forall k :: 0 <= k < |parts| ==> sep !in parts[k]
  {
    if s == [] then [[]]
    else
      var rest := SplitOn(s[1..], sep);
      if s[0] == sep then [[]] + rest else [[s[0]] + rest[0]] + rest[1..]
  }

  /** Splitting and re-joining on the same separator gives back the string. */
  lemma {:induction false} JoinSplit(s: string, sep: char)
    ensures Join([sep], SplitOn(s, sep)) == s
  {
    if s != [] {
      var rest := SplitOn(s[1..], sep);
      JoinSplit(s[1..], sep);
      if s[0] == sep {
        assert Join([sep], [[]] + rest) == [] + [sep] + Join([sep], rest);
      } else if |rest| == 1 {
        assert SplitOn(s, sep) == [[s[0]] + rest[0]];
      } else {
        var parts := SplitOn(s, sep);
        assert parts[1..] == rest[1..];
        assert Join([sep], rest) == rest[0] + [sep] + Join([sep], rest[1..]);
        assert Join([sep], parts) == ([s[0]] + rest[0]) + [sep] + Join([sep], rest[1..]);
      }
    }
  }

  /** A prefix free of the separator is glued onto the first part. */
  lemma {:induction false} SplitPrefix(p: string, rest: string, sep: char)
    requires sep !in p
    ensures SplitOn(p + rest, sep) == [p + SplitOn(rest, sep)[0]] + SplitOn(rest, sep)[1..]
  {
    if p == [] {
      var parts := SplitOn(rest, sep);
      assert p + rest == rest;
      assert p + parts[0] == parts[0];
      assert [parts[0]] + parts[1..] == parts;
    } else {
      assert (p + rest)[1..] == p[1..] + rest;
      SplitPrefix(p[1..], rest, sep);
      assert [p[0]] + (p[1..] + SplitOn(rest, sep)[0]) == p + SplitOn(rest, sep)[0];
    }
  }

  /** Joining separator-free parts and splitting again gives back the parts. */
  lemma {:induction false} SplitJoin(parts: seq<string>, sep: char)
    requires parts != []
    requires forall k :: 0 <= k < |parts| ==> sep !in parts[k]
    ensures SplitOn(Join([sep], parts), sep) == parts
  {
    if |parts| == 1 {
      SplitPrefix(parts[0], [], sep);
      assert parts[0] + [] == parts[0];
    } else {
      var tail := Join([sep], parts[1..]);
      SplitJoin(parts[1..], sep);
      assert Join([sep], parts) == parts[0] + ([sep] + tail);
      SplitPrefix(parts[0], [sep] + tail, sep);
      assert ([sep] + tail)[1..] == tail;
      assert SplitOn([sep] + tail, sep) == [[]] + parts[1..];
      assert parts[0] + [] == parts[0];
    }
  }

  /** Joining with a whitespace separator adds no non-whitespace character. */
  lemma {:induction false} NonWsJoin(sep: string, parts: seq<string>)
    requires AllWhitespace(sep)
    ensures NonWs(Join(sep, parts)) == NonWsAll(parts)
  {
    if parts == [] {
    } else if |parts| == 1 {
      assert NonWsAll(parts) == NonWs(parts[0]) + [];
    } else {
      NonWsJoin(sep, parts[1..]);
      NonWsAppend(parts[0] + sep, Join(sep, parts[1..]));
      NonWsAppend(parts[0], sep);
      NonWsEmptyIffWhitespace(sep);
    }
  }

  /** `s.split()` loses only whitespace. */
  lemma {:induction false} NonWsWords(s: string)
    ensures NonWsAll(Words(s)) == NonWs(s)
    decreases |s|
  {
    if s == [] {
    } else if IsWhitespace(s[0]) {
      NonWsWords(s[1..]);
    } else {
      var w := LeadingRun(s);
      NonWsWords(s[|w|..]);
      assert s == w + s[|w|..];
      NonWsAppend(w, s[|w|..]);
      NonWsOfWord(w);
    }
  }

  /** Leading whitespace produces no part: `split()` skips it. */
  lemma {:induction false} WordsSkipGap(gap: string, s: string)
    requires AllWhitespace(gap)
    ensures Words(gap + s) == Words(s)
  {
    if gap != [] {
      assert (gap + s)[0] == gap[0];
      assert (gap + s)[1..] == gap[1..] + s;
      WordsSkipGap(gap[1..], s);
    } else {
      assert gap + s == s;
    }
  }

  /**
   * `split()` cuts at every whitespace run: a word, a non-empty run of
   * whitespace and the rest yield the word followed by the parts of the rest.
   */
  lemma WordsCutAtGap(w: string, gap: string, s: string)
    requires IsWord(w)
    requires gap != [] && AllWhitespace(gap)
    ensures Words(w + gap + s) == [w] + Words(s)
  {
    assert w + gap + s == w + (gap + s);
    assert (gap + s)[0] == gap[0];
    WordsOfWordThenRest(w, gap + s);
    WordsSkipGap(gap, s);
  }

  /** A string that starts with a word followed by whitespace (or nothing) yields that word first. */
  lemma WordsOfWordThenRest(w: string, rest: string)
    requires IsWord(w)
    requires rest == [] || IsWhitespace(rest[0])
    ensures Words(w + rest) == [w] + Words(rest)
  {
    LeadingRunOfWord(w, rest);
    assert (w + rest)[|w|..] == rest;
  }

  lemma {:induction false} LeadingRunOfWord(w: string, rest: string)
    requires forall i :: 0 <= i < |w| ==> !IsWhitespace(w[i])
    requires rest == [] || IsWhitespace(rest[0])
    ensures LeadingRun(w + rest) == w
  {
    if w == [] {
      assert w + rest == rest;
    } else {
      assert (w + rest)[1..] == w[1..] + rest;
      LeadingRunOfWord(w[1..], rest);
    }
  }

  /** Splitting words joined by single spaces gives back the words. */
  lemma {:induction false} WordsJoin(ws: seq<string>)
    requires forall k :: 0 <= k < |ws| ==> IsWord(ws[k])
    ensures Words(Join(" ", ws)) == ws
  {
    if ws == [] {
    } else if |ws| == 1 {
      WordsOfWordThenRest(ws[0], []);
      assert ws[0] + [] == ws[0];
    } else {
      WordsJoin(ws[1..]);
      WordsJoinStep(ws[0], ws[1..]);
    }
  }

  lemma WordsJoinStep(w: string, rest: seq<string>)
    requires IsWord(w) && rest != []
    ensures Words(Join(" ", [w] + rest)) == [w] + Words(Join(" ", rest))
  {
    var tail := Join(" ", rest);
    assert ([w] + rest)[1..] == rest;
    assert Join(" ", [w] + rest) == w + (" " + tail);
    WordsOfWordThenRest(w, " " + tail);
    assert (" " + tail)[1..] == tail;
  }

  /** The number of characters whose code point exceeds 127. */
  function NonAsciiCount(s: string): (n: nat)
    ensures |s| == 1 ==> n == (if s[0] as int > 127 then 1 else 0)
    ensures n <= |s|
    ensures n == 0 <==> forall i :: 0 <= i < |s| ==> s[i] as int <= 127
    ensures n == |s| <==> forall i :: 0 <= i < |s| ==> s[i] as int > 127
  {
    if s == [] then 0
    else
      var rest := NonAsciiCount(s[1..]);
      assert forall i :: 1 <= i < |s| ==> s[i] == s[1..][i - 1];
      (if s[0] as int > 127 then 1 else 0) + rest
  }

  /** The count is additive, so with the one-character case above it is fixed for every string. */
  lemma {:induction false} NonAsciiCountAppend(a: string, b: string)
    ensures NonAsciiCount(a + b) == NonAsciiCount(a) + NonAsciiCount(b)
  {
    if a == [] {
      assert a + b == b;
    } else {
      assert (a + b)[0] == a[0];
      assert (a + b)[1..] == a[1..] + b;
      NonAsciiCountAppend(a[1..], b);
    }
  }

  /**
   * The shared language heuristic: the share of characters above code point
   * 127 exceeds 0.3, written as `10 * count > 3 * length` so that no division
   * is needed (false for the empty string).
   */
  predicate MostlyNonAscii(s: string) {
    10 * NonAsciiCount(s) > 3 * |s|
  }
}
