/** The few Python string operations the server's parsing relies on, with
    Python's own edge cases: `str.isspace`, `str.strip`, `str.split()` (no
    argument), `str.split(sep)`, `str.find`, slicing with negative or
    out-of-range indices, and `str.splitlines`. */
module PyText {
  import Seqs

  /** Python's `str.isspace()` for one character; `strip()` and `split()`
      without arguments use exactly these: `\t` to `\r`, U+001C to the space,
      U+0085, U+00A0, U+1680, U+2000 to U+200A, U+2028, U+2029, U+202F, U+205F
      and U+3000. */
  predicate IsSpace(c: char) {
    || ('\t' <= c <= '\r') || ('\U{001C}' <= c <= ' ')
    || c == '\U{0085}' || c == '\U{00A0}' || c == '\U{1680}'
    || ('\U{2000}' <= c <= '\U{200A}')
    || c == '\U{2028}' || c == '\U{2029}' || c == '\U{202F}' || c == '\U{205F}' || c == '\U{3000}'
  }

  /** The characters at which Python's `str.splitlines()` ends a line: `\n`
      to `\r`, U+001C to U+001E, U+0085, U+2028 and U+2029 (`\r\n` counts as
      one boundary). */
  predicate IsLineBreak(c: char) {
    || ('\n' <= c <= '\r') || ('\U{001C}' <= c <= '\U{001E}')
    || c == '\U{0085}' || c == '\U{2028}' || c == '\U{2029}'
  }

  predicate AllSpace(s: string) {
    forall j :: 0 <= j < |s| ==> IsSpace(s[j])
  }

  predicate NoSpace(s: string) {
    forall j :: 0 <= j < |s| ==> !IsSpace(s[j])
  }

  predicate NoLineBreak(s: string) {
    forall j :: 0 <= j < |s| ==> !IsLineBreak(s[j])
  }

  /** Index of the first character satisfying `p`, or `|s|` when there is none. */
  function IndexWhere(s: string, p: char -> bool): (k: nat)
    ensures k <= |s|
    ensures k < |s| ==> p(s[k])
    ensures forall j :: 0 <= j < k ==> !p(s[j])
  {
    if |s| == 0 then 0
    else if p(s[0]) then 0
    else 1 + IndexWhere(s[1..], p)
  }

  /** Python's `s.find(c)` for a one-character needle: the first index of `c`, or -1. */
  function Find(s: string, c: char): (i: int)
    ensures -1 <= i < |s|
    ensures i == -1 <==> c !in s
    ensures 0 <= i ==> s[i] == c && forall j :: 0 <= j < i ==> s[j] != c
  {
    var k := IndexWhere(s, x => x == c);
    if k == |s| then -1 else k
  }

  /** Python's `s.lstrip()`: drops leading whitespace. */
  function LStrip(s: string): (r: string)
    ensures |r| <= |s| && r == s[|s| - |r|..]
    ensures |r| > 0 ==> !IsSpace(r[0])
  {
    if |s| > 0 && IsSpace(s[0]) then LStrip(s[1..]) else s
  }

  /** What `lstrip` drops is whitespace. */
  lemma {:induction false} LStripDropsSpace(s: string)
    ensures AllSpace(s[..|s| - |LStrip(s)|])
    decreases |s|
  {
    if |s| > 0 && IsSpace(s[0]) {
      LStripDropsSpace(s[1..]);
      var d := |s| - |LStrip(s)|;
      assert forall j :: 1 <= j < d ==> s[..d][j] == s[1..][..d - 1][j - 1];
    }
  }

  /** Python's `s.rstrip()`: drops trailing whitespace. */
  function RStrip(s: string): (r: string)
    ensures |r| <= |s| && r == s[..|r|]
    ensures |r| > 0 ==> !IsSpace(r[|r| - 1])
  {
    if |s| > 0 && IsSpace(s[|s| - 1]) then RStrip(s[..|s| - 1]) else s
  }

  /** What `rstrip` drops is whitespace. */
  lemma {:induction false} RStripDropsSpace(s: string)
    ensures AllSpace(s[|RStrip(s)|..])
    decreases |s|
  {
    if |s| > 0 && IsSpace(s[|s| - 1]) {
      RStripDropsSpace(s[..|s| - 1]);
      var r := |RStrip(s)|;
      assert forall j :: 0 <= j < |s| - 1 - r ==> s[r..][j] == s[..|s| - 1][r..][j];
    }
  }

  /** Python's `s.strip()`: the infix of `s` left once whitespace is removed
      from both ends. */
  function Strip(s: string): (r: string)
    ensures |r| > 0 ==> !IsSpace(r[0]) && !IsSpace(r[|r| - 1])
    ensures |r| <= |s|
  {
    RStrip(LStrip(s))
  }

  /** `r` is a contiguous infix of `s` with nothing but whitespace before
      and after it. */
  predicate TrimmedFrom(r: string, s: string) {
    exists i :: 0 <= i && i + |r| <= |s| && r == s[i..i + |r|]
                && AllSpace(s[..i]) && AllSpace(s[i + |r|..])
  }

  /** `strip` only trims: its result is a contiguous infix of `s` with nothing
      but whitespace before and after it. Together with `Strip`'s own contract
      (no whitespace at either end of the result) this fixes the result. */
  lemma StripIsTrim(s: string)
    ensures TrimmedFrom(Strip(s), s)
  {
    var l := LStrip(s);
    var r := RStrip(l);
    assert Strip(s) == r;
    LStripDropsSpace(s);
    RStripDropsSpace(l);
    TrimIsInfix(s, l, r);
  }

  /** Dropping whitespace from the front and then from the back leaves a
      contiguous infix with only whitespace on either side. */
  lemma TrimIsInfix(s: string, l: string, r: string)
    requires |l| <= |s| && l == s[|s| - |l|..] && AllSpace(s[..|s| - |l|])
    requires |r| <= |l| && r == l[..|r|] && AllSpace(l[|r|..])
    ensures TrimmedFrom(r, s)
  {
    var i := |s| - |l|;
    assert r == s[i..i + |r|];
    assert s[i + |r|..] == l[|r|..];
  }

  /** `strip` removes whitespace only: the non-whitespace text is unchanged,
      and nothing is left exactly when `s` is all whitespace. */
  lemma StripKeepsText(s: string)
    ensures |Strip(s)| == 0 <==> AllSpace(s)
    ensures Squeeze(Strip(s)) == Squeeze(s)
  {
    var l := LStrip(s);
    LStripKeepsText(s);
    RStripKeepsText(l);
    LStripDropsSpace(s);
    if |RStrip(l)| == 0 {
      AllSpaceAppend(s[..|s| - |l|], l);
      assert s == s[..|s| - |l|] + l;
    } else {
      assert s[|s| - |l|] == l[0] == RStrip(l)[0];
    }
  }

  lemma LStripKeepsText(s: string)
    ensures Squeeze(LStrip(s)) == Squeeze(s)
  {
    var l := LStrip(s);
    LStripDropsSpace(s);
    assert s == s[..|s| - |l|] + l;
    SqueezeAppend(s[..|s| - |l|], l);
    SqueezeAllSpace(s[..|s| - |l|]);
  }

  lemma RStripKeepsText(l: string)
    ensures Squeeze(RStrip(l)) == Squeeze(l)
    ensures |RStrip(l)| == 0 ==> AllSpace(l)
  {
    var r := RStrip(l);
    RStripDropsSpace(l);
    assert l == r + l[|r|..];
    SqueezeAppend(r, l[|r|..]);
    SqueezeAllSpace(l[|r|..]);
  }

  lemma AllSpaceAppend(a: string, b: string)
    requires AllSpace(a) && AllSpace(b)
    ensures AllSpace(a + b)
  {
  }

  /** The non-whitespace characters of `s`, in order. */
  function Squeeze(s: string): (r: string)
    ensures NoSpace(r)
  {
    if |s| == 0 then []
    else if IsSpace(s[0]) then Squeeze(s[1..])
    else [s[0]] + Squeeze(s[1..])
  }

  lemma {:induction false} SqueezeAppend(a: string, b: string)
    ensures Squeeze(a + b) == Squeeze(a) + Squeeze(b)
    decreases |a|
  {
    if |a| > 0 {
      assert (a + b)[1..] == a[1..] + b;
      SqueezeAppend(a[1..], b);
    } else {
      assert a + b == b;
    }
  }

  lemma {:induction false} SqueezeAllSpace(a: string)
    requires AllSpace(a)
    ensures Squeeze(a) == []
    decreases |a|
  {
    if |a| > 0 {
      SqueezeAllSpace(a[1..]);
    }
  }

  lemma {:induction false} SqueezeNoSpace(a: string)
    requires NoSpace(a)
    ensures Squeeze(a) == a
    decreases |a|
  {
    if |a| > 0 {
      SqueezeNoSpace(a[1..]);
      assert a == [a[0]] + a[1..];
    }
  }

  /** Concatenation of a sequence of strings. */
  function Concat(ts: seq<string>): string {
    if |ts| == 0 then [] else ts[0] + Concat(ts[1..])
  }

  /** A word as `split()` returns it: non-empty, free of whitespace. */
  predicate IsToken(w: string) {
    |w| > 0 && NoSpace(w)
  }

  /** Python's `s.split()` without arguments: the maximal runs of
      non-whitespace characters, each non-empty and free of whitespace. */
  function SplitWs(s: string): (tokens: seq<string>)
    ensures forall w <- tokens :: IsToken(w)
    decreases |s|
  {
    var t := LStrip(s);
    if |t| == 0 then []
    else
      var n := IndexWhere(t, IsSpace);
      assert n != 0;
      assert NoSpace(t[..n]);
      var rest := SplitWs(t[n..]);
      var ts := [t[..n]] + rest;
      assert ts[1..] == rest;
      assert s[|s| - |t|] == t[0];
      ts
  }

  /** `split()` finds no token exactly when `s` is all whitespace. */
  lemma SplitWsEmpty(s: string)
    ensures |SplitWs(s)| == 0 <==> AllSpace(s)
  {
    var t := LStrip(s);
    LStripDropsSpace(s);
    if |t| == 0 {
      assert s == s[..|s| - |t|];
    } else {
      assert s[|s| - |t|] == t[0];
    }
  }

  /** The tokens of `split()` spell exactly the non-whitespace characters of
      the input, in order. */
  lemma {:induction false} SplitWsSpellsText(s: string)
    ensures Concat(SplitWs(s)) == Squeeze(s)
    decreases |s|
  {
    var t := LStrip(s);
    LStripKeepsText(s);
    if |t| > 0 {
      var n := IndexWhere(t, IsSpace);
      FirstTokenSplit(t, n);
      SplitWsSpellsText(t[n..]);
      var ts := SplitWs(s);
      assert ts == [t[..n]] + SplitWs(t[n..]);
      assert ts[1..] == SplitWs(t[n..]);
    }
  }

  /** Leading whitespace does not change `lstrip`. */
  lemma {:induction false} LStripSpacePrefix(g: string, s: string)
    requires AllSpace(g)
    ensures LStrip(g + s) == LStrip(s)
    decreases |g|
  {
    if |g| > 0 {
      assert (g + s)[0] == g[0];
      assert (g + s)[1..] == g[1..] + s;
      LStripSpacePrefix(g[1..], s);
    } else {
      assert g + s == s;
    }
  }

  /** Trailing whitespace does not change `rstrip`. */
  lemma {:induction false} RStripSpaceSuffix(s: string, g: string)
    requires AllSpace(g)
    ensures RStrip(s + g) == RStrip(s)
    decreases |g|
  {
    if |g| > 0 {
      var sg, shorter := s + g, g[..|g| - 1];
      assert IsSpace(sg[|sg| - 1]);
      assert sg[..|sg| - 1] == s + shorter;
      assert RStrip(sg) == RStrip(s + shorter);
      RStripSpaceSuffix(s, shorter);
    } else {
      assert s + g == s;
    }
  }

  /** `strip` of text that starts and ends with a non-space, surrounded by
      whitespace, gives back that text. */
  lemma StripSurrounded(a: string, m: string, c: string)
    requires AllSpace(a) && AllSpace(c)
    requires |m| > 0 && !IsSpace(m[0]) && !IsSpace(m[|m| - 1])
    ensures Strip(a + m + c) == m
  {
    assert a + m + c == a + (m + c);
    LStripSpacePrefix(a, m + c);
    assert (m + c)[0] == m[0];
    assert LStrip(m + c) == m + c;
    RStripSpaceSuffix(m, c);
  }

  /** Leading whitespace does not change the words of `split()`. */
  lemma SplitWsSpacePrefix(g: string, s: string)
    requires AllSpace(g)
    ensures SplitWs(g + s) == SplitWs(s)
  {
    LStripSpacePrefix(g, s);
    LStripIdem(s);
    LStripIdem(g + s);
  }

  /** `split()` of text is `split()` of its `lstrip`. */
  lemma LStripIdem(s: string)
    ensures SplitWs(LStrip(s)) == SplitWs(s)
  {
    var t := LStrip(s);
    assert LStrip(t) == t;
  }

  /** The first whitespace character of a word followed by whitespace (or by
      nothing) is the one just after the word. */
  lemma WordEnd(w: string, rest: string)
    requires NoSpace(w)
    requires |rest| == 0 || IsSpace(rest[0])
    ensures IndexWhere(w + rest, IsSpace) == |w|
  {
    var s := w + rest;
    var n := IndexWhere(s, IsSpace);
    assert forall j :: 0 <= j < |w| ==> s[j] == w[j];
    if |rest| > 0 {
      assert s[|w|] == rest[0];
    }
  }

  /** A word followed by whitespace (or by nothing) is the first word of
      `split()`, and the words after it are those of the rest. */
  lemma SplitWsWord(w: string, rest: string)
    requires IsToken(w)
    requires |rest| == 0 || IsSpace(rest[0])
    ensures SplitWs(w + rest) == [w] + SplitWs(rest)
  {
    var s := w + rest;
    assert s[0] == w[0];
    assert LStrip(s) == s;
    WordEnd(w, rest);
    assert s[..|w|] == w;
    assert s[|w|..] == rest;
  }

  /** Two words with whitespace between them split into exactly those words. */
  lemma SplitWsTwoWords(a: string, gap: string, b: string)
    requires IsToken(a) && IsToken(b)
    requires |gap| > 0 && AllSpace(gap)
    ensures SplitWs(a + gap + b) == [a, b]
  {
    var rest := gap + b;
    assert a + gap + b == a + rest;
    assert rest[0] == gap[0];
    SplitWsWord(a, rest);
    SplitWsSpacePrefix(gap, b);
    SplitWsOneWord(b);
  }

  /** A single word splits into itself. */
  lemma SplitWsOneWord(w: string)
    requires IsToken(w)
    ensures SplitWs(w) == [w]
  {
    assert LStrip(w) == w;
    WordEnd(w, []);
    assert w + [] == w;
    assert w[..|w|] == w;
  }

  /** Words separated by whitespace: `gaps[0] + words[0] + gaps[1] + ... +
      words[n - 1] + gaps[n]`. */
  function Interleave(gaps: seq<string>, words: seq<string>): string
    requires |gaps| == |words| + 1
    decreases |words|
  {
    if |words| == 0 then gaps[0] else gaps[0] + words[0] + Interleave(gaps[1..], words[1..])
  }

  /** `split()` recovers the words of any text built from words and
      whitespace gaps, as long as neighbouring words are separated by at least
      one whitespace character; the outer gaps may be empty. */
  lemma {:induction false} SplitWsInterleave(gaps: seq<string>, words: seq<string>)
    requires |gaps| == |words| + 1
    requires forall k :: 0 <= k < |gaps| ==> AllSpace(gaps[k])
    requires forall k :: 0 < k < |words| ==> |gaps[k]| > 0
    requires forall k :: 0 <= k < |words| ==> IsToken(words[k])
    ensures SplitWs(Interleave(gaps, words)) == words
    decreases |words|
  {
    if |words| == 0 {
      SplitWsEmpty(gaps[0]);
    } else {
      var gs, ws := gaps[1..], words[1..];
      assert forall k :: 0 <= k < |gs| ==> gs[k] == gaps[k + 1];
      assert forall k :: 0 <= k < |ws| ==> ws[k] == words[k + 1];
      var rest := Interleave(gs, ws);
      SplitWsInterleave(gs, ws);
      InterleaveStart(gs, ws);
      var w := words[0];
      SplitWsWord(w, rest);
      SplitWsSpacePrefix(gaps[0], w + rest);
      InterleaveCons(gaps, words);
      Seqs.HeadTail(words);
    }
  }

  lemma InterleaveCons(gaps: seq<string>, words: seq<string>)
    requires |gaps| == |words| + 1 && |words| > 0
    ensures Interleave(gaps, words) == gaps[0] + (words[0] + Interleave(gaps[1..], words[1..]))
  {
  }

  /** Text built from words and gaps starts with whitespace when its first
      gap is not empty, and is empty when there is nothing in it. */
  lemma InterleaveStart(gaps: seq<string>, words: seq<string>)
    requires |gaps| == |words| + 1
    requires forall k :: 0 <= k < |gaps| ==> AllSpace(gaps[k])
    requires |words| > 0 ==> |gaps[0]| > 0
    ensures var s := Interleave(gaps, words); |s| == 0 || IsSpace(s[0])
  {
    if |words| > 0 {
      assert Interleave(gaps, words)[0] == gaps[0][0];
    }
  }

  /** Cutting a string that starts with a non-space at its first whitespace
      character splits off a non-empty token. */
  lemma FirstTokenSplit(t: string, n: nat)
    requires |t| > 0 && !IsSpace(t[0])
    requires n == IndexWhere(t, IsSpace)
    ensures 1 <= n <= |t| && NoSpace(t[..n])
    ensures Squeeze(t) == t[..n] + Squeeze(t[n..])
  {
    FirstTokenIsWord(t, n);
    SqueezeCut(t, n);
  }

  lemma FirstTokenIsWord(t: string, n: nat)
    requires |t| > 0 && !IsSpace(t[0])
    requires n == IndexWhere(t, IsSpace)
    ensures 1 <= n <= |t| && NoSpace(t[..n])
  {
    assert forall j :: 0 <= j < n ==> t[..n][j] == t[j];
  }

  /** Squeezing a string whose first `n` characters hold no whitespace keeps
      those characters and squeezes the rest. */
  lemma SqueezeCut(t: string, n: nat)
    requires n <= |t| && NoSpace(t[..n])
    ensures Squeeze(t) == t[..n] + Squeeze(t[n..])
  {
    assert t == t[..n] + t[n..];
    SqueezeAppend(t[..n], t[n..]);
    SqueezeNoSpace(t[..n]);
  }

  /** Python's slice index normalisation for a sequence of length `n`: a
      negative index counts from the end, and the result is clamped to `0..n`. */
  function ClampIndex(i: int, n: nat): (k: nat)
    ensures k <= n
    ensures 0 <= i <= n ==> k == i
    ensures -(n as int) <= i < 0 ==> k == n + i
    ensures i < -(n as int) ==> k == 0
    ensures n < i ==> k == n
  {
    if i < 0 then (if i + n < 0 then 0 else i + n)
    else if i > n then n
    else i
  }

  /** Python's `s[start:end]` (step 1). */
  function Slice(s: string, start: int, end: int): (r: string)
    ensures 0 <= start <= end <= |s| ==> r == s[start..end]
    ensures ClampIndex(end, |s|) <= ClampIndex(start, |s|) ==> r == []
    ensures ClampIndex(start, |s|) < ClampIndex(end, |s|) ==>
              r == s[ClampIndex(start, |s|)..ClampIndex(end, |s|)]
  {
    var a := ClampIndex(start, |s|);
    var b := ClampIndex(end, |s|);
    if a >= b then [] else s[a..b]
  }

  /** The pieces of a split, put back together with the separator between them. */
  function JoinWith(pieces: seq<string>, sep: char): string
    requires |pieces| >= 1
  {
    if |pieces| == 1 then pieces[0] else pieces[0] + [sep] + JoinWith(pieces[1..], sep)
  }

  /** A string is the part before index `i`, the character at `i`, and the rest. */
  lemma CutAt(s: string, i: nat)
    requires i < |s|
    ensures s == s[..i] + [s[i]] + s[i + 1..]
  {
  }

  /** Python's `s.split(sep)` for a one-character separator: always at least one
      piece, no piece holds the separator, and joining the pieces with it gives
      back `s`. The first piece is the text before the first separator. */
  function SplitOn(s: string, sep: char): (pieces: seq<string>)
    ensures |pieces| >= 1
    ensures forall k :: 0 <= k < |pieces| ==> sep !in pieces[k]
    ensures JoinWith(pieces, sep) == s
    ensures Find(s, sep) == -1 ==> pieces == [s]
    ensures 0 <= Find(s, sep) ==> pieces[0] == s[..Find(s, sep)]
    decreases |s|
  {
    var i := Find(s, sep);
    if i < 0 then [s]
    else
      var rest := SplitOn(s[i + 1..], sep);
      var pieces := [s[..i]] + rest;
      assert pieces[1..] == rest;
      assert forall k :: 1 <= k < |pieces| ==> pieces[k] == rest[k - 1];
      CutAt(s, i);
      assert JoinWith(pieces, sep) == s[..i] + [sep] + s[i + 1..];
      pieces
  }

  /** Python's `s.splitlines()`: lines without their terminators; a final
      terminator does not start an extra empty line. */
  function SplitLines(s: string): (lines: seq<string>)
    ensures forall k :: 0 <= k < |lines| ==> NoLineBreak(lines[k])
    ensures |lines| == 0 <==> |s| == 0
    ensures |s| > 0 && NoLineBreak(s) ==> lines == [s]
    decreases |s|
  {
    if |s| == 0 then []
    else
      var k := IndexWhere(s, IsLineBreak);
      if k == |s| then [s]
      else
        var width := if s[k] == '\r' && k + 1 < |s| && s[k + 1] == '\n' then 2 else 1;
        [s[..k]] + SplitLines(s[k + width..])
  }

  /** Lines each terminated by `\n`, the way git writes its porcelain output. */
  function JoinLines(lines: seq<string>): string {
    if |lines| == 0 then [] else lines[0] + "\n" + JoinLines(lines[1..])
  }

  /** One newline-terminated, break-free line comes off the front as one line. */
  lemma SplitLinesCons(l: string, rest: string)
    requires NoLineBreak(l)
    ensures SplitLines(l + "\n" + rest) == [l] + SplitLines(rest)
  {
    assert l + "\n" + rest == l + ['\n'] + rest;
    SplitLinesBreak(l, '\n', rest);
  }

  /** Any single boundary character ends a break-free line: a lone `\r`,
      `\n`, `\v`, `\f`, U+001C to U+001E, U+0085, U+2028 or U+2029. Only a
      `\r` directly followed by `\n` is the two-character boundary. */
  lemma SplitLinesBreak(l: string, c: char, rest: string)
    requires NoLineBreak(l) && IsLineBreak(c)
    requires !(c == '\r' && |rest| > 0 && rest[0] == '\n')
    ensures SplitLines(l + [c] + rest) == [l] + SplitLines(rest)
  {
    var s := l + [c] + rest;
    assert s[|l|] == c;
    assert forall j :: 0 <= j < |l| ==> s[j] == l[j];
    var k := IndexWhere(s, IsLineBreak);
    assert k == |l|;
    assert s[..k] == l;
    assert s[k + 1..] == rest;
  }

  /** A break-free line ended by `\r\n` also comes off the front as one line:
      the two characters are a single boundary. */
  lemma SplitLinesCrLf(l: string, rest: string)
    requires NoLineBreak(l)
    ensures SplitLines(l + "\r\n" + rest) == [l] + SplitLines(rest)
  {
    var s := l + "\r\n" + rest;
    assert s[|l|] == '\r' && s[|l| + 1] == '\n';
    assert forall j :: 0 <= j < |l| ==> s[j] == l[j];
    var k := IndexWhere(s, IsLineBreak);
    assert k == |l|;
    assert s[..k] == l;
    assert s[k + 2..] == rest;
  }

  /** `splitlines` undoes newline-terminated joining of break-free lines. */
  lemma {:induction false} SplitLinesJoinLines(lines: seq<string>)
    requires forall k :: 0 <= k < |lines| ==> NoLineBreak(lines[k])
    ensures SplitLines(JoinLines(lines)) == lines
    decreases |lines|
  {
    if |lines| > 0 {
      SplitLinesCons(lines[0], JoinLines(lines[1..]));
      SplitLinesJoinLines(lines[1..]);
    }
  }

  /** Text after joined lines attaches to the joining of the later lines. */
  lemma JoinLinesThen(lines: seq<string>, last: string)
    requires |lines| > 0
    ensures JoinLines(lines) + last == lines[0] + "\n" + (JoinLines(lines[1..]) + last)
  {
  }

  /** A last line without a terminator is kept: splitting newline-terminated
      lines followed by a non-empty break-free text gives back all of them. */
  lemma {:induction false} SplitLinesUnterminated(lines: seq<string>, last: string)
    requires forall k :: 0 <= k < |lines| ==> NoLineBreak(lines[k])
    requires |last| > 0 && NoLineBreak(last)
    ensures SplitLines(JoinLines(lines) + last) == lines + [last]
    decreases |lines|
  {
    if |lines| > 0 {
      var tail := JoinLines(lines[1..]) + last;
      JoinLinesThen(lines, last);
      SplitLinesCons(lines[0], tail);
      SplitLinesUnterminated(lines[1..], last);
      Seqs.HeadTail(lines);
    } else {
      assert JoinLines(lines) + last == last;
    }
  }
}
