/** The Python `str` operations the outreach code relies on: `isspace`,
    `strip`, `lower`, `startswith`, `splitlines`, `split()` with no
    argument, `join`, and `str` of a non-negative integer. */
module PyStr {

  /** Python's `str.isspace` for one character. */
  predicate IsSpace(c: char) {
    || c == ' '
    || ('\t' <= c <= '\r')
    || ('\U{1c}' <= c <= '\U{1f}')
    || c == '\U{85}' || c == '\U{a0}' || c == '\U{1680}'
    || ('\U{2000}' <= c <= '\U{200a}')
    || c == '\U{2028}' || c == '\U{2029}' || c == '\U{202f}' || c == '\U{205f}' || c == '\U{3000}'
  }

  /** The line boundaries of Python's `str.splitlines`. */
  predicate IsLineBreak(c: char) {
    || ('\n' <= c <= '\r')
    || ('\U{1c}' <= c <= '\U{1e}')
    || c == '\U{85}' || c == '\U{2028}' || c == '\U{2029}'
  }

  predicate AllSpace(s: string) {
    forall k :: 0 <= k < |s| ==> IsSpace(s[k])
  }

  predicate NoBreaks(s: string) {
    forall k :: 0 <= k < |s| ==> !IsLineBreak(s[k])
  }

  /** `s` has no line boundary other than `\n`. */
  predicate OnlyNewlines(s: string) {
    forall k :: 0 <= k < |s| ==> s[k] == '\n' || !IsLineBreak(s[k])
  }

  /** A value `str.strip()` leaves unchanged. */
  predicate IsStripped(s: string) {
    s == [] || (!IsSpace(s[0]) && !IsSpace(s[|s| - 1]))
  }

  // ---------------------------------------------------------------------
  // strip

  function LStrip(s: string): (r: string)
    ensures |r| <= |s| && r == s[|s| - |r|..]
    ensures AllSpace(s[..|s| - |r|])
    ensures r == [] || !IsSpace(r[0])
    decreases |s|
  {
    if s != [] && IsSpace(s[0]) then
      var t := s[1..];
      var r := LStrip(t);
      var pre, tpre := s[..|s| - |r|], t[..|t| - |r|];
      assert pre == [s[0]] + tpre;
      assert AllSpace(pre) by {
        forall k | 0 <= k < |pre| ensures IsSpace(pre[k]) {
          if k > 0 { assert pre[k] == tpre[k - 1]; }
        }
      }
      r
    else s
  }

  function RStrip(s: string): (r: string)
    ensures |r| <= |s| && r == s[..|r|]
    ensures AllSpace(s[|r|..])
    ensures r == [] || !IsSpace(r[|r| - 1])
    decreases |s|
  {
    if s != [] && IsSpace(s[|s| - 1]) then
      var t := s[..|s| - 1];
      var r := RStrip(t);
      var suf, tsuf := s[|r|..], t[|r|..];
      assert suf == tsuf + [s[|s| - 1]];
      assert AllSpace(suf) by {
        forall k | 0 <= k < |suf| ensures IsSpace(suf[k]) {
          if k < |tsuf| { assert suf[k] == tsuf[k]; }
        }
      }
      r
    else s
  }

  /** `str.strip()`: the result is a stripped slice of `s`, and it is empty
      exactly when `s` is all whitespace. */
  function Strip(s: string): (r: string)
    ensures IsStripped(r)
    ensures |r| <= |s|
    ensures r == [] <==> AllSpace(s)
  {
    var l := LStrip(s);
    LStripEmpty(s);
    RStripEmpty(l);
    var r := RStrip(l);
    assert r != [] ==> r[0] == l[0];
    r
  }

  /** Left-stripping empties exactly the all-whitespace strings. */
  lemma LStripEmpty(s: string)
    ensures LStrip(s) == [] <==> AllSpace(s)
  {
    var l := LStrip(s);
    var i := |s| - |l|;
    if l == [] {
      assert s[..i] == s;
    } else {
      assert l[0] == s[i] && !IsSpace(s[i]);
    }
  }

  /** Right-stripping empties exactly the all-whitespace strings. */
  lemma RStripEmpty(s: string)
    ensures RStrip(s) == [] <==> AllSpace(s)
  {
    var r := RStrip(s);
    assert s[0..] == s;
    if r != [] {
      assert r[|r| - 1] == s[|r| - 1];
    }
  }

  lemma {:induction false} LStripSkipsSpace(a: string, m: string)
    requires AllSpace(a)
    requires m == [] || !IsSpace(m[0])
    ensures LStrip(a + m) == m
    decreases |a|
  {
    if a != [] {
      assert (a + m)[1..] == a[1..] + m;
      LStripSkipsSpace(a[1..], m);
    } else {
      assert a + m == m;
    }
  }

  lemma {:induction false} RStripSkipsSpace(m: string, b: string)
    requires AllSpace(b)
    requires m == [] || !IsSpace(m[|m| - 1])
    ensures RStrip(m + b) == m
    decreases |b|
  {
    if b != [] {
      assert (m + b)[..|m + b| - 1] == m + b[..|b| - 1];
      RStripSkipsSpace(m, b[..|b| - 1]);
    } else {
      assert m + b == m;
    }
  }

  /** `str.strip()` removes exactly the surrounding whitespace: whatever
      stripped text `m` is padded with, stripping gives back `m`. */
  lemma StripUnique(a: string, m: string, b: string)
    requires AllSpace(a) && AllSpace(b) && IsStripped(m)
    ensures Strip(a + m + b) == m
  {
    if m == [] {
      assert a + m + b == a + b;
      assert AllSpace(a + b) by {
        forall k | 0 <= k < |a + b| ensures IsSpace((a + b)[k]) {
          if k < |a| { assert (a + b)[k] == a[k]; } else { assert (a + b)[k] == b[k - |a|]; }
        }
      }
    } else {
      assert a + m + b == a + (m + b);
      LStripSkipsSpace(a, m + b);
      RStripSkipsSpace(m, b);
    }
  }

  /** Stripping a stripped string changes nothing, so `strip` is idempotent. */
  lemma StripStripped(s: string)
    requires IsStripped(s)
    ensures Strip(s) == s
  {
    StripUnique([], s, []);
    assert [] + s + [] == s;
  }

  lemma StripIdempotent(s: string)
    ensures Strip(Strip(s)) == Strip(s)
  {
    StripStripped(Strip(s));
  }

  /** A stripped slice of a line is still free of line boundaries. */
  lemma SliceKeepsNoBreaks(s: string, i: nat, j: nat)
    requires i <= j <= |s| && NoBreaks(s)
    ensures NoBreaks(s[i..j])
  {
    forall k | 0 <= k < j - i ensures !IsLineBreak(s[i..j][k]) {
      assert s[i..j][k] == s[i + k];
    }
  }

  /** A stripped slice of a line is still free of line boundaries. */
  lemma StripKeepsNoBreaks(s: string)
    requires NoBreaks(s)
    ensures NoBreaks(Strip(s))
  {
    var l := LStrip(s);
    var r := RStrip(l);
    var i := |s| - |l|;
    assert r == l[..|r|] == s[i..][..|r|];
    assert s[i..][..|r|] == s[i..i + |r|];
    SliceKeepsNoBreaks(s, i, i + |r|);
  }

  // ---------------------------------------------------------------------
  // lower, startswith

  /** Python's `str.lower` restricted to the characters that lower-case
      into a single ASCII letter: `A`-`Z` and the Kelvin sign (which becomes
      `k`). Every lowered string in the model is compared with an all-ASCII
      literal; any other character lowers to something that still holds a
      non-ASCII character (U+0130 becomes `i` plus a combining dot), so it
      cannot match either way. */
  function LowerChar(c: char): char {
    if 'A' <= c <= 'Z' then (c as int + 32) as char
    else if c == '\U{212a}' then 'k'
    else c
  }

  function Lower(s: string): (r: string)
    ensures |r| == |s|
    ensures forall k :: 0 <= k < |s| ==> r[k] == LowerChar(s[k])
  {
    seq(|s|, k requires 0 <= k < |s| => LowerChar(s[k]))
  }

  predicate StartsWith(s: string, prefix: string) {
    |prefix| <= |s| && s[..|prefix|] == prefix
  }

  // ---------------------------------------------------------------------
  // splitlines, join

  /** Index of the first line boundary of `s`, or `|s|` when there is none. */
  function BreakIndex(s: string): (i: nat)
    ensures i <= |s|
    ensures i < |s| ==> IsLineBreak(s[i])
    ensures forall k :: 0 <= k < i ==> !IsLineBreak(s[k])
  {
    if s == [] || IsLineBreak(s[0]) then 0 else 1 + BreakIndex(s[1..])
  }

  /** `str.splitlines()`: `\r\n` is one boundary, a final boundary does not
      open an empty last line, and the empty string has no lines. */
  function SplitLines(s: string): (lines: seq<string>)
    ensures forall k :: 0 <= k < |lines| ==> NoBreaks(lines[k])
    ensures s == [] <==> lines == []
    decreases |s|
  {
    if s == [] then []
    else
      var i := BreakIndex(s);
      if i == |s| then [s]
      else
        var next := if s[i] == '\r' && i + 1 < |s| && s[i + 1] == '\n' then i + 2 else i + 1;
        [s[..i]] + SplitLines(s[next..])
  }

  /** `sep.join(parts)`. */
  function Join(sep: string, parts: seq<string>): string
  {
    if parts == [] then []
    else if |parts| == 1 then parts[0]
    else parts[0] + sep + Join(sep, parts[1..])
  }

  /** A text without line boundaries is one line. */
  lemma BreakIndexNone(s: string)
    requires NoBreaks(s)
    ensures BreakIndex(s) == |s|
  {
  }

  /** A line that has no boundary ends where the boundary after it starts,
      whichever of the line boundaries that is. */
  lemma BreakAfterLine(l: string, c: char, rest: string)
    requires NoBreaks(l) && IsLineBreak(c)
    ensures BreakIndex(l + [c] + rest) == |l|
  {
    var s := l + [c] + rest;
    assert s[|l|] == c;
    assert forall k :: 0 <= k < |l| ==> s[k] == l[k];
  }

  /** A line followed by a single boundary character is the first line of the
      text, and the rest splits on its own. `\r` counts alone only when no
      `\n` follows it. */
  lemma SplitLinesAtBreak(l: string, c: char, rest: string)
    requires NoBreaks(l) && IsLineBreak(c)
    requires !(c == '\r' && rest != [] && rest[0] == '\n')
    ensures SplitLines(l + [c] + rest) == [l] + SplitLines(rest)
  {
    var s := l + [c] + rest;
    BreakAfterLine(l, c, rest);
    assert s[|l|] == c;
    assert s[..|l|] == l;
    assert s[|l| + 1..] == rest;
  }

  /** `\r\n` is one boundary: the line before it is the first line and the
      text after the `\n` splits on its own. */
  lemma SplitLinesAtCrLf(l: string, rest: string)
    requires NoBreaks(l)
    ensures SplitLines(l + "\r\n" + rest) == [l] + SplitLines(rest)
  {
    var s := l + "\r\n" + rest;
    assert s == l + ['\r'] + ("\n" + rest);
    BreakAfterLine(l, '\r', "\n" + rest);
    assert s[|l|] == '\r' && s[|l| + 1] == '\n';
    assert s[..|l|] == l;
    assert s[|l| + 2..] == rest;
  }

  /** A boundary at the very end closes the last line and opens no empty
      line after it, for a single boundary character and for `\r\n`. */
  lemma SplitLinesFinalBreak(l: string, c: char)
    requires NoBreaks(l) && IsLineBreak(c)
    ensures SplitLines(l + [c]) == [l]
    ensures SplitLines(l + "\r\n") == [l]
  {
    SplitLinesAtBreak(l, c, []);
    assert l + [c] + [] == l + [c];
    SplitLinesAtCrLf(l, []);
    assert l + "\r\n" + [] == l + "\r\n";
  }

  /** A line followed by `\n` is the first line of the text. */
  lemma SplitLinesAtNewline(l: string, rest: string)
    requires NoBreaks(l)
    ensures SplitLines(l + "\n" + rest) == [l] + SplitLines(rest)
  {
    SplitLinesAtBreak(l, '\n', rest);
    assert l + "\n" + rest == l + ['\n'] + rest;
  }

  lemma JoinCons(sep: string, x: string, xs: seq<string>)
    requires xs != []
    ensures Join(sep, [x] + xs) == x + sep + Join(sep, xs)
  {
    assert ([x] + xs)[1..] == xs;
  }

  /** Splitting lines joined by `\n` gives the lines back, provided no line
      holds a boundary and the last line is not empty. */
  lemma {:induction false} SplitJoin(ls: seq<string>)
    requires forall k :: 0 <= k < |ls| ==> NoBreaks(ls[k])
    requires ls == [] || ls[|ls| - 1] != []
    ensures SplitLines(Join("\n", ls)) == ls
    decreases |ls|
  {
    if |ls| == 1 {
      BreakIndexNone(ls[0]);
    } else if |ls| > 1 {
      var l := ls[0];
      assert ls == [l] + ls[1..];
      JoinCons("\n", l, ls[1..]);
      SplitLinesAtNewline(l, Join("\n", ls[1..]));
      SplitJoin(ls[1..]);
    }
  }

  /** The text with every line boundary written as `\n`, `\r\n` becoming a
      single `\n`: a reference for what joining the lines with `\n` gives. */
  function Newlines(s: string): (r: string)
    ensures OnlyNewlines(r)
    ensures s == [] <==> r == []
    decreases |s|
  {
    if s == [] then []
    else if s[0] == '\r' && |s| > 1 && s[1] == '\n' then "\n" + Newlines(s[2..])
    else if IsLineBreak(s[0]) then "\n" + Newlines(s[1..])
    else [s[0]] + Newlines(s[1..])
  }

  /** The text without one trailing `\n`, if it has one. */
  function DropFinalNewline(s: string): (r: string)
    ensures s == r || s == r + "\n"
  {
    if s != [] && s[|s| - 1] == '\n' then s[..|s| - 1] else s
  }

  /** A boundary-free start of a text is left as it is. */
  lemma {:induction false} NewlinesOfLine(l: string, rest: string)
    requires NoBreaks(l)
    ensures Newlines(l + rest) == l + Newlines(rest)
    decreases |l|
  {
    if l != [] {
      var s := l + rest;
      assert s[0] == l[0] && !IsLineBreak(s[0]);
      assert s[1..] == l[1..] + rest;
      NewlinesOfLine(l[1..], rest);
      assert l == [l[0]] + l[1..];
      ConsAppend([l[0]], l[1..], Newlines(rest));
    } else {
      assert l + rest == rest;
    }
  }

  /** A single boundary character after a line becomes one `\n`. */
  lemma NewlinesAtBreak(l: string, c: char, rest: string)
    requires NoBreaks(l) && IsLineBreak(c)
    requires !(c == '\r' && rest != [] && rest[0] == '\n')
    ensures Newlines(l + [c] + rest) == l + "\n" + Newlines(rest)
  {
    assert l + [c] + rest == l + ([c] + rest);
    NewlinesOfLine(l, [c] + rest);
    assert ([c] + rest)[1..] == rest;
    ConsAppend(l, "\n", Newlines(rest));
  }

  /** `\r\n` after a line becomes one `\n`. */
  lemma NewlinesAtCrLf(l: string, rest: string)
    requires NoBreaks(l)
    ensures Newlines(l + "\r\n" + rest) == l + "\n" + Newlines(rest)
  {
    assert l + "\r\n" + rest == l + ("\r\n" + rest);
    NewlinesOfLine(l, "\r\n" + rest);
    assert ("\r\n" + rest)[2..] == rest;
    ConsAppend(l, "\n", Newlines(rest));
  }

  /** One more line in front keeps joining and rewriting the boundaries in
      step. */
  lemma JoinSplitStep(l: string, rest: string)
    requires Join("\n", SplitLines(rest)) == DropFinalNewline(Newlines(rest))
    ensures Join("\n", [l] + SplitLines(rest)) == DropFinalNewline(l + "\n" + Newlines(rest))
  {
    if rest != [] {
      JoinCons("\n", l, SplitLines(rest));
      DropFinalNewlineAfter(l + "\n", Newlines(rest));
    }
  }

  /** Only the end of a non-empty tail decides what is dropped. */
  lemma DropFinalNewlineAfter(p: string, n: string)
    requires n != []
    ensures DropFinalNewline(p + n) == p + DropFinalNewline(n)
  {
    assert (p + n)[|p + n| - 1] == n[|n| - 1];
    assert (p + n)[..|p + n| - 1] == p + n[..|n| - 1];
  }

  /** Joining the lines of any text with `\n` writes each of its boundaries
      as `\n` and loses a boundary at the very end. */
  lemma {:induction false} JoinSplitAll(s: string)
    ensures Join("\n", SplitLines(s)) == DropFinalNewline(Newlines(s))
    decreases |s|
  {
    if s != [] {
      var i := BreakIndex(s);
      var l := s[..i];
      if i == |s| {
        assert l == s && s + [] == s;
        NewlinesOfLine(s, []);
      } else {
        var rest;
        if s[i] == '\r' && i + 1 < |s| && s[i + 1] == '\n' {
          rest := s[i + 2..];
          assert s == l + "\r\n" + rest;
          SplitLinesAtCrLf(l, rest);
          NewlinesAtCrLf(l, rest);
        } else {
          rest := s[i + 1..];
          assert s == l + [s[i]] + rest;
          SplitLinesAtBreak(l, s[i], rest);
          NewlinesAtBreak(l, s[i], rest);
        }
        JoinSplitAll(rest);
        JoinSplitStep(l, rest);
      }
    }
  }

  /** Joining the lines of a text that breaks lines only with `\n` and does
      not end with one gives the text back. */
  lemma JoinSplit(s: string)
    requires OnlyNewlines(s)
    requires s == [] || s[|s| - 1] != '\n'
    ensures Join("\n", SplitLines(s)) == s
  {
    JoinSplitAll(s);
    NewlinesOfNewlines(s);
  }

  /** A text broken only by `\n` is its own rewriting. */
  lemma {:induction false} NewlinesOfNewlines(s: string)
    requires OnlyNewlines(s)
    ensures Newlines(s) == s
    decreases |s|
  {
    if s != [] {
      assert OnlyNewlines(s[1..]) by {
        forall k | 0 <= k < |s| - 1 ensures s[1..][k] == '\n' || !IsLineBreak(s[1..][k]) {
          assert s[1..][k] == s[k + 1];
        }
      }
      NewlinesOfNewlines(s[1..]);
      assert s == [s[0]] + s[1..];
    }
  }

  // ---------------------------------------------------------------------
  // split() with no argument

  predicate IsWord(w: string) {
    w != [] && forall k :: 0 <= k < |w| ==> !IsSpace(w[k])
  }

  /** Length of the run of non-whitespace at the start of `t`. */
  function WordEnd(t: string): (n: nat)
    ensures n <= |t|
    ensures n < |t| ==> IsSpace(t[n])
    ensures forall k :: 0 <= k < n ==> !IsSpace(t[k])
  {
    if t == [] || IsSpace(t[0]) then 0 else 1 + WordEnd(t[1..])
  }

  /** `str.split()`: the maximal runs of non-whitespace, in order. */
  function Words(s: string): (ws: seq<string>)
    decreases |s|
  {
    if s == [] then []
    else if IsSpace(s[0]) then Words(s[1..])
    else
      var n := WordEnd(s);
      [s[..n]] + Words(s[n..])
  }

  lemma {:induction false} WordsAreWords(s: string)
    ensures forall k :: 0 <= k < |Words(s)| ==> IsWord(Words(s)[k])
    decreases |s|
  {
    if s != [] {
      if IsSpace(s[0]) {
        WordsAreWords(s[1..]);
      } else {
        var n := WordEnd(s);
        WordsAreWords(s[n..]);
        assert Words(s) == [s[..n]] + Words(s[n..]);
      }
    }
  }

  lemma WordsSkipsSpace(c: char, x: string)
    requires IsSpace(c)
    ensures Words([c] + x) == Words(x)
  {
    assert ([c] + x)[1..] == x;
  }

  /** A string that starts with a non-space character starts with a word. */
  lemma WordsAtWordStart(t: string)
    requires t != [] && !IsSpace(t[0])
    ensures Words(t) == [t[..WordEnd(t)]] + Words(t[WordEnd(t)..])
  {
  }

  lemma WordEndOfWord(a: string, x: string)
    requires WordEnd(a) == |a|
    requires x != [] && IsSpace(x[0])
    ensures WordEnd(a + x) == |a|
  {
    var n := WordEnd(a + x);
    assert forall k :: 0 <= k < |a| ==> (a + x)[k] == a[k];
    assert (a + x)[|a|] == x[0];
  }

  lemma WordsOfWord(w: string)
    requires IsWord(w)
    ensures Words(w) == [w]
  {
    var n := WordEnd(w);
    assert n == |w|;
    WordsAtWordStart(w);
    assert w[..n] == w;
    assert w[n..] == [];
    assert Words([]) == [];
  }

  /** A word followed by whitespace is the first word. */
  lemma WordsAfterWord(w: string, c: char, t: string)
    requires IsWord(w) && IsSpace(c)
    ensures Words(w + [c] + t) == [w] + Words(t)
  {
    var s := w + [c] + t;
    assert s == w + ([c] + t);
    assert WordEnd(w) == |w|;
    WordEndOfWord(w, [c] + t);
    WordsAtWordStart(s);
    assert s[..|w|] == w;
    assert s[|w|..] == [c] + t;
    WordsSkipsSpace(c, t);
  }

  /** Concatenation regrouped, for proofs that peel off a prefix. */
  lemma ConsAppend<T>(a: seq<T>, p: seq<T>, q: seq<T>)
    ensures a + (p + q) == (a + p) + q
  {
  }

  /** Words joined by single spaces, then whitespace and more text, split
      into those words followed by the words of the text. */
  lemma {:induction false} WordsOfJoinThen(ws: seq<string>, c: char, t: string)
    requires ws != [] && forall k :: 0 <= k < |ws| ==> IsWord(ws[k])
    requires IsSpace(c)
    ensures Words(Join(" ", ws) + [c] + t) == ws + Words(t)
    decreases |ws|
  {
    if |ws| == 1 {
      WordsAfterWord(ws[0], c, t);
    } else {
      var w, j := ws[0], Join(" ", ws[1..]);
      var rest := j + [c] + t;
      assert Join(" ", ws) == w + [' '] + j;
      ConsAppend(w + [' '], j, [c]);
      ConsAppend(w + [' '], j + [c], t);
      WordsAfterWord(w, ' ', rest);
      WordsOfJoinThen(ws[1..], c, t);
      assert Words(rest) == ws[1..] + Words(t);
      assert Words(Join(" ", ws) + [c] + t) == [w] + Words(rest);
      assert ws == [w] + ws[1..];
      ConsAppend([w], ws[1..], Words(t));
    }
  }

  /** Words joined by single spaces split back into the same words. */
  lemma {:induction false} WordsOfJoin(ws: seq<string>)
    requires forall k :: 0 <= k < |ws| ==> IsWord(ws[k])
    ensures Words(Join(" ", ws)) == ws
    decreases |ws|
  {
    if ws == [] {
      assert Words([]) == [];
    } else if |ws| == 1 {
      WordsOfWord(ws[0]);
    } else {
      var w := ws[0];
      var j := Join(" ", ws[1..]);
      assert Join(" ", ws) == w + [' '] + j;
      WordsAfterWord(w, ' ', j);
      WordsOfJoin(ws[1..]);
      assert ws == [w] + ws[1..];
    }
  }

  // ---------------------------------------------------------------------
  // str(n)

  predicate IsDigit(c: char) {
    '0' <= c <= '9'
  }

  /** `str(n)` for a non-negative integer. */
  function Decimal(n: nat): (r: string)
    ensures r != []
    ensures forall k :: 0 <= k < |r| ==> IsDigit(r[k])
  {
    if n < 10 then [('0' as int + n) as char]
    else Decimal(n / 10) + [('0' as int + n % 10) as char]
  }

  /** `int(s)` for a string of decimal digits. */
  function DecimalValue(s: string): nat
    requires forall k :: 0 <= k < |s| ==> IsDigit(s[k])
  {
    if s == [] then 0
    else
      assert IsDigit(s[|s| - 1]);
      DecimalValue(s[..|s| - 1]) * 10 + (s[|s| - 1] as int - '0' as int)
  }

  /** Reading back the digits that `str(n)` prints gives `n`. */
  lemma {:induction false} DecimalRoundTrip(n: nat)
    ensures DecimalValue(Decimal(n)) == n
  {
    if n >= 10 {
      var d := Decimal(n);
      assert d[..|d| - 1] == Decimal(n / 10);
      DecimalRoundTrip(n / 10);
    }
  }

  lemma DecimalInjective(m: nat, n: nat)
    requires Decimal(m) == Decimal(n)
    ensures m == n
  {
    DecimalRoundTrip(m);
    DecimalRoundTrip(n);
  }

  /** Length of the run of digits a string starts with. */
  function DigitRun(s: string): (n: nat)
    ensures n <= |s|
  {
    if s == [] || !IsDigit(s[0]) then 0 else 1 + DigitRun(s[1..])
  }

  lemma {:induction false} DigitRunLength(d: string, x: string)
    requires forall k :: 0 <= k < |d| ==> IsDigit(d[k])
    requires x != [] && !IsDigit(x[0])
    ensures DigitRun(d + x) == |d|
  {
    if d != [] {
      assert (d + x)[1..] == d[1..] + x;
      DigitRunLength(d[1..], x);
    } else {
      assert d + x == x;
    }
  }

  /** A run of digits followed by a non-digit is split unambiguously. */
  lemma DigitsSplit(d1: string, x1: string, d2: string, x2: string)
    requires forall k :: 0 <= k < |d1| ==> IsDigit(d1[k])
    requires forall k :: 0 <= k < |d2| ==> IsDigit(d2[k])
    requires x1 != [] && !IsDigit(x1[0]) && x2 != [] && !IsDigit(x2[0])
    requires d1 + x1 == d2 + x2
    ensures d1 == d2 && x1 == x2
  {
    DigitRunLength(d1, x1);
    DigitRunLength(d2, x2);
    assert d1 == (d1 + x1)[..|d1|];
    assert d2 == (d2 + x2)[..|d2|];
    assert x1 == (d1 + x1)[|d1|..];
    assert x2 == (d2 + x2)[|d2|..];
  }

  /** A number printed after a common prefix and before a non-digit is
      read back unambiguously. */
  lemma DecimalAfterPrefix(p: string, m1: nat, x1: string, m2: nat, x2: string)
    requires x1 != [] && !IsDigit(x1[0]) && x2 != [] && !IsDigit(x2[0])
    requires p + Decimal(m1) + x1 == p + Decimal(m2) + x2
    ensures m1 == m2 && x1 == x2
  {
    var d1, d2 := Decimal(m1), Decimal(m2);
    assert d1 + x1 == (p + d1 + x1)[|p|..];
    assert d2 + x2 == (p + d2 + x2)[|p|..];
    DigitsSplit(d1, x1, d2, x2);
    DecimalInjective(m1, m2);
  }

  /** Two numbers printed into a template, each followed by text that does
      not start with a digit, are read back unambiguously. */
  lemma TwoNumbersInjective(a: string, b: string, c: string, m1: nat, n1: nat, m2: nat, n2: nat)
    requires b != [] && !IsDigit(b[0]) && c != [] && !IsDigit(c[0])
    requires a + Decimal(m1) + b + Decimal(n1) + c == a + Decimal(m2) + b + Decimal(n2) + c
    ensures m1 == m2 && n1 == n2
  {
    var x1, x2 := b + Decimal(n1) + c, b + Decimal(n2) + c;
    ConsAppend(a + Decimal(m1), b, Decimal(n1));
    ConsAppend(a + Decimal(m1), b + Decimal(n1), c);
    ConsAppend(a + Decimal(m2), b, Decimal(n2));
    ConsAppend(a + Decimal(m2), b + Decimal(n2), c);
    DecimalAfterPrefix(a, m1, x1, m2, x2);
    DecimalAfterPrefix(b, n1, c, n2, c);
  }
}
