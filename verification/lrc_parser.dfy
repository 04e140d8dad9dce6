/**
 * The LRC lyric parser: turns timestamp-tagged lyric text into a list of
 * timed lines, sorted by time, with exact (time, text) duplicates removed.
 *
 * The text-level primitives the parser relies on (line splitting, stripping,
 * the timestamp token grammar and its left-to-right scan) are written out as
 * functions; `ParseLrc` is the parser itself, a method with the source's loops.
 */
module LrcParser {
  import opened Wrappers

  /** One timed lyric line; `translated` is always `None` straight out of the parser. */
  datatype LyricLine = LyricLine(tMs: int, original: string, translated: Option<string>)

  // ---------------------------------------------------------------------------
  // Characters
  // ---------------------------------------------------------------------------

  predicate IsDigit(c: char) { '0' <= c <= '9' }

  predicate AllDigits(s: string) { forall k :: 0 <= k < |s| ==> IsDigit(s[k]) }

  /** The characters Python's `str.isspace` accepts, which `str.strip()` removes. */
  predicate IsSpace(c: char) {
    || c == ' ' || ('\t' <= c <= '\r')  // tab, line feed, vertical tab, form feed, carriage return
    || ('\U{1C}' <= c <= '\U{1F}') || c == '\U{85}' || c == '\U{A0}' || c == '\U{1680}'
    || ('\U{2000}' <= c <= '\U{200A}') || c == '\U{2028}' || c == '\U{2029}'
    || c == '\U{202F}' || c == '\U{205F}' || c == '\U{3000}'
  }

  /** Every character at which `splitlines` breaks is also in the whitespace set `strip` removes. */
  lemma LineBreakIsSpace(c: char)
    requires IsLineBreak(c)
    ensures IsSpace(c)
  {
  }

  predicate AllSpace(s: string) { forall k :: 0 <= k < |s| ==> IsSpace(s[k]) }

  /** Non-empty, and neither end is whitespace: what `strip` leaves of a line that is not blank. */
  predicate Stripped(s: string) { s != [] && !IsSpace(s[0]) && !IsSpace(s[|s| - 1]) }

  /** The characters at which Python's `str.splitlines` ends a line (`\r\n` counts once). */
  predicate IsLineBreak(c: char) {
    || ('\n' <= c <= '\r') || ('\U{1C}' <= c <= '\U{1E}')
    || c == '\U{85}' || c == '\U{2028}' || c == '\U{2029}'
  }

  function Pow10(n: nat): (p: nat)
    ensures p >= 1
  {
    if n == 0 then 1 else 10 * Pow10(n - 1)
  }

  function DigitValue(c: char): (d: nat)
    requires IsDigit(c)
    ensures d <= 9
  {
    (c as int) - ('0' as int)
  }

  /** The value of a string of decimal digits, as Python's `int(...)` reads it. */
  function DigitsValue(s: string): (v: nat)
    requires AllDigits(s)
    ensures v < Pow10(|s|)
    ensures |s| == 1 ==> v == DigitValue(s[0])
  {
    if s == [] then 0 else DigitsValue(s[..|s| - 1]) * 10 + DigitValue(s[|s| - 1])
  }

  /** Digits written after others shift the value of the first ones up by one place each. */
  lemma {:induction false} DigitsValueAppend(a: string, b: string)
    requires AllDigits(a) && AllDigits(b)
    ensures AllDigits(a + b)
    ensures DigitsValue(a + b) == DigitsValue(a) * Pow10(|b|) + DigitsValue(b)
    decreases |b|
  {
    var ab := a + b;
    forall k | 0 <= k < |ab| ensures IsDigit(ab[k]) {
      if k < |a| {
        assert ab[k] == a[k];
      } else {
        assert ab[k] == b[k - |a|];
      }
    }
    if b == [] {
      assert ab == a;
    } else {
      var init, d := b[..|b| - 1], DigitValue(b[|b| - 1]);
      assert ab[..|ab| - 1] == a + init;
      assert ab[|ab| - 1] == b[|b| - 1];
      DigitsValueAppend(a, init);
      assert DigitsValue(ab) == DigitsValue(a + init) * 10 + d;
      assert DigitsValue(b) == DigitsValue(init) * 10 + d;
      assert Pow10(|b|) == Pow10(|init|) * 10;
      ShiftOnePlace(DigitsValue(a), Pow10(|init|), DigitsValue(init), d);
    }
  }

  lemma ShiftOnePlace(x: int, p: int, y: int, d: int)
    ensures (x * p + y) * 10 + d == x * (p * 10) + (y * 10 + d)
  {
  }

  /** Leading zeros do not change the value: `05` reads as `5`. */
  lemma DigitsValueLeadingZero(b: string)
    requires AllDigits(b)
    ensures AllDigits("0" + b) && DigitsValue("0" + b) == DigitsValue(b)
  {
    DigitsValueAppend("0", b);
    assert DigitsValue("0") == 0 by { assert "0"[..0] == ""; }
  }

  // ---------------------------------------------------------------------------
  // str.strip and str.splitlines
  // ---------------------------------------------------------------------------

  /** `s` without its leading whitespace. */
  function TrimStart(s: string): (r: string)
    ensures |r| <= |s| && r == s[|s| - |r|..]
    ensures forall k :: 0 <= k < |s| - |r| ==> IsSpace(s[k])
    ensures r == [] || !IsSpace(r[0])
  {
    if s != [] && IsSpace(s[0]) then TrimStart(s[1..]) else s
  }

  /** `s` without its trailing whitespace. */
  function TrimEnd(s: string): (r: string)
    ensures |r| <= |s| && r == s[..|r|]
    ensures forall k :: |r| <= k < |s| ==> IsSpace(s[k])
    ensures r == [] || !IsSpace(r[|r| - 1])
  {
    if s != [] && IsSpace(s[|s| - 1]) then TrimEnd(s[..|s| - 1]) else s
  }

  /** Python's `s.strip()`: both ends trimmed; empty exactly when `s` is all whitespace. */
  function Strip(s: string): (r: string)
    ensures |r| <= |s|
    ensures r == [] <==> AllSpace(s)
    ensures r == [] || Stripped(r)
  {
    var t := TrimStart(s);
    var r := TrimEnd(t);
    assert t != [] ==> !IsSpace(t[0]) && t[0] == s[|s| - |t|];
    r
  }

  /**
   * What `strip` leaves is a piece of `s` with nothing but whitespace on
   * either side of it; with `Strip`'s own contract (neither end of a
   * non-empty result is whitespace) this pins the result down.
   */
  lemma StripCutsBlankEnds(s: string)
    ensures exists a: nat :: BlankAround(s, a, Strip(s))
  {
    var t := TrimStart(s);
    var r := Strip(s);
    assert r == TrimEnd(t);
    BlankEnds(s, t, r, |s| - |t|);
  }

  /** `r` sits at `s[a..]` with nothing but whitespace before and after it. */
  predicate BlankAround(s: string, a: nat, r: string) {
    && a + |r| <= |s| && s[a..a + |r|] == r
    && AllSpace(s[..a]) && AllSpace(s[a + |r|..])
  }

  lemma BlankEnds(s: string, t: string, r: string, a: nat)
    requires a + |t| == |s| && t == s[a..] && |r| <= |t| && r == t[..|r|]
    requires forall k :: 0 <= k < a ==> IsSpace(s[k])
    requires forall k :: |r| <= k < |t| ==> IsSpace(t[k])
    ensures BlankAround(s, a, r)
  {
    var b := a + |r|;
    forall k | 0 <= k < a ensures IsSpace(s[..a][k]) {
      assert s[..a][k] == s[k];
    }
    forall k | 0 <= k < |s| - b ensures IsSpace(s[b..][k]) {
      assert s[b..][k] == t[|r| + k];
    }
  }

  /** Text that neither starts nor ends with whitespace is left as it is. */
  lemma StripTrimmed(s: string)
    requires Stripped(s)
    ensures Strip(s) == s
  {
    assert TrimStart(s) == s;
  }

  /** The index of the first line break in `s`, or `|s|` when there is none. */
  function LineEnd(s: string): (e: nat)
    ensures e <= |s|
    ensures forall k :: 0 <= k < e ==> !IsLineBreak(s[k])
    ensures e < |s| ==> IsLineBreak(s[e])
  {
    if s == [] || IsLineBreak(s[0]) then 0 else 1 + LineEnd(s[1..])
  }

  /**
   * Python's `s.splitlines()`: the text between line breaks, a `\r\n` pair
   * ending one line; a final line break opens no further (empty) line.
   */
  function SplitLines(s: string): (lines: seq<string>)
    ensures s == [] <==> lines == []
    ensures forall i, k :: 0 <= i < |lines| && 0 <= k < |lines[i]| ==>
      !IsLineBreak(lines[i][k]) && lines[i][k] in s
    decreases |s|
  {
    if s == [] then []
    else
      var e, next := LineEnd(s), NextLineStart(s);
      var rest := SplitLines(s[next..]);
      assert forall i, k :: 0 <= i < |rest| && 0 <= k < |rest[i]| ==> rest[i][k] in s by {
        forall i, k | 0 <= i < |rest| && 0 <= k < |rest[i]| ensures rest[i][k] in s {
          var j :| 0 <= j < |s[next..]| && s[next..][j] == rest[i][k];
          assert s[next + j] == rest[i][k];
        }
      }
      [s[..e]] + rest
  }

  /** Where the line after the first one starts: past the first break, a `\r\n` pair counting as one. */
  function NextLineStart(s: string): (next: nat)
    requires s != []
    ensures LineEnd(s) < next <= |s| || LineEnd(s) == next == |s|
  {
    var e := LineEnd(s);
    if e == |s| then |s|
    else if s[e] == '\r' && e + 1 < |s| && s[e + 1] == '\n' then e + 2
    else e + 1
  }

  predicate NoBreaks(s: string) { forall k :: 0 <= k < |s| ==> !IsLineBreak(s[k]) }

  /** The lines written out again, with `brk` between consecutive ones. */
  function JoinLines(lines: seq<string>, brk: string): string
    requires lines != []
    decreases |lines|
  {
    if |lines| == 1 then lines[0] else lines[0] + (brk + JoinLines(lines[1..], brk))
  }

  /** A break `splitlines` treats as one: `\r\n`, or a single line-break character. */
  predicate OneBreak(brk: string) {
    brk == "\r\n" || (|brk| == 1 && IsLineBreak(brk[0]))
  }

  /** Line-break free text followed by a break (or by nothing) ends where the break starts. */
  lemma LineEndAt(a: string, rest: string)
    requires NoBreaks(a) && (rest == [] || IsLineBreak(rest[0]))
    ensures LineEnd(a + rest) == |a|
  {
    var s := a + rest;
    forall k | 0 <= k < |a| ensures !IsLineBreak(s[k]) {
      assert s[k] == a[k];
    }
    if rest != [] {
      assert s[|a|] == rest[0];
    }
  }

  /** Joined text does not start with a line feed unless a line feed is the separator. */
  lemma {:induction false} JoinHead(lines: seq<string>, brk: string)
    requires lines != [] && brk != [] && brk[0] != '\n'
    requires forall i :: 0 <= i < |lines| ==> NoBreaks(lines[i])
    ensures JoinLines(lines, brk) == [] || JoinLines(lines, brk)[0] != '\n'
    decreases |lines|
  {
    if |lines| > 1 {
      assert NoBreaks(lines[0]);
      if lines[0] == [] {
        assert JoinLines(lines, brk) == brk + JoinLines(lines[1..], brk);
      } else {
        assert JoinLines(lines, brk)[0] == lines[0][0];
      }
    } else {
      assert NoBreaks(lines[0]);
    }
  }

  /** A line, one break and the text after it: the line comes first, then the lines of that text. */
  lemma SplitFirstLine(line: string, brk: string, tail: string)
    requires NoBreaks(line) && OneBreak(brk)
    requires brk == "\r" ==> tail == [] || tail[0] != '\n'
    ensures SplitLines(line + (brk + tail)) == [line] + SplitLines(tail)
  {
    var s := line + (brk + tail);
    LineEndAt(line, brk + tail);
    var next := NextAfterBreak(line, brk, tail);
    calc {
      SplitLines(s);
      { SplitLinesStep(s); }
      [s[..LineEnd(s)]] + SplitLines(s[NextLineStart(s)..]);
      { assert s[..|line|] == line; }
      [line] + SplitLines(s[next..]);
      { assert s[next..] == tail; }
      [line] + SplitLines(tail);
    }
  }

  /** After a line and one break, the next line starts right past the break. */
  lemma NextAfterBreak(line: string, brk: string, tail: string) returns (next: nat)
    requires NoBreaks(line) && OneBreak(brk)
    requires brk == "\r" ==> tail == [] || tail[0] != '\n'
    requires LineEnd(line + (brk + tail)) == |line|
    ensures next == |line| + |brk| && NextLineStart(line + (brk + tail)) == next
  {
    var s, e := line + (brk + tail), |line|;
    assert s[e] == brk[0];
    next := e + |brk|;
    if brk == "\r\n" {
      assert s[e + 1] == '\n';
    } else if e + 1 < |s| {
      assert s[e + 1] == tail[0];
    }
  }

  /** One step of `splitlines`: the first line, then the lines after the break that ends it. */
  lemma SplitLinesStep(s: string)
    requires s != []
    ensures SplitLines(s) == [s[..LineEnd(s)]] + SplitLines(s[NextLineStart(s)..])
  {
  }

  /**
   * Lines free of line breaks, the last one not empty, joined with any one
   * kind of break, are split back into exactly those lines.
   */
  lemma {:induction false} SplitJoin(lines: seq<string>, brk: string)
    requires lines != [] && lines[|lines| - 1] != [] && OneBreak(brk)
    requires forall i :: 0 <= i < |lines| ==> NoBreaks(lines[i])
    ensures SplitLines(JoinLines(lines, brk)) == lines
    decreases |lines|
  {
    assert NoBreaks(lines[0]);
    if |lines| == 1 {
      SingleLine(lines[0]);
    } else {
      var more := lines[1..];
      assert more[|more| - 1] == lines[|lines| - 1];
      assert forall i :: 0 <= i < |more| ==> NoBreaks(more[i]) by {
        forall i | 0 <= i < |more| ensures NoBreaks(more[i]) {
          assert more[i] == lines[i + 1];
        }
      }
      var tail := JoinLines(more, brk);
      assert JoinLines(lines, brk) == lines[0] + (brk + tail);
      if brk == "\r" {
        JoinHead(more, brk);
      }
      calc {
        SplitLines(JoinLines(lines, brk));
        SplitLines(lines[0] + (brk + tail));
        { SplitFirstLine(lines[0], brk, tail); }
        [lines[0]] + SplitLines(tail);
        { SplitJoin(more, brk); }
        [lines[0]] + more;
        lines;
      }
    }
  }

  // ---------------------------------------------------------------------------
  // Timestamp tokens: `[`, one or two digits, `:`, two digits, optionally `.`
  // and one to three digits, then `]`
  // ---------------------------------------------------------------------------

  /**
   * A timestamp token found in a line: its minute, second and fraction digit
   * groups (`fraction` is empty when the optional group did not match) and
   * the half-open span [start, end) it occupies.
   */
  datatype Token = Token(start: nat, minutes: string, seconds: string, fraction: string, end: nat)

  /** The digit groups have the lengths the pattern allows. */
  predicate WellFormed(t: Token) {
    && 1 <= |t.minutes| <= 2 && AllDigits(t.minutes)
    && |t.seconds| == 2 && AllDigits(t.seconds)
    && |t.fraction| <= 3 && AllDigits(t.fraction)
  }

  /** The text of a token: `[MM:SS]` or `[MM:SS.fff]`. */
  function Render(t: Token): string {
    "[" + t.minutes + ":" + t.seconds + (if t.fraction == [] then "" else "." + t.fraction) + "]"
  }

  /** The number of characters a token spans. */
  function Width(t: Token): nat {
    |t.minutes| + |t.seconds| + (if t.fraction == [] then 3 else |t.fraction| + 4)
  }

  /**
   * `t` is a match of the token pattern in `s` at `t.start`: the brackets and
   * separators sit at their places and each group captures its digits.
   */
  predicate MatchesIn(s: string, t: Token) {
    var i, m, f := t.start, |t.minutes|, |t.fraction|;
    && WellFormed(t) && t.end == i + Width(t) <= |s|
    && s[i] == '[' && s[i + 1..i + 1 + m] == t.minutes && s[i + 1 + m] == ':'
    && s[i + 2 + m..i + 4 + m] == t.seconds
    && s[i + 4 + m] == (if f == 0 then ']' else '.')
    && s[i + 5 + m..i + 5 + m + f] == t.fraction
    && (f != 0 ==> s[i + 5 + m + f] == ']')
  }

  /** A token written on its own matches where it starts. */
  lemma RenderMatches(t: Token)
    requires WellFormed(t) && t.start == 0 && t.end == Width(t)
    ensures MatchesIn(Render(t), t)
  {
    var m, f := |t.minutes|, |t.fraction|;
    var head := "[" + t.minutes + ":" + t.seconds;
    var tail := if t.fraction == [] then "]" else "." + t.fraction + "]";
    var r := Render(t);
    assert r == head + tail;
    assert r[1..1 + m] == t.minutes;
    assert r[2 + m..4 + m] == t.seconds;
    if f != 0 {
      assert r[5 + m..5 + m + f] == tail[1..1 + f] == t.fraction;
    }
  }

  /** A token found in `p` is still found at the same place once text follows `p`. */
  lemma MatchesInPrefix(p: string, rest: string, t: Token)
    requires MatchesIn(p, t)
    ensures MatchesIn(p + rest, t)
  {
    var i, m, f := t.start, |t.minutes|, |t.fraction|;
    SliceOfPrefix(p, rest, i + 1, i + 1 + m);
    SliceOfPrefix(p, rest, i + 2 + m, i + 4 + m);
    SliceOfPrefix(p, rest, i + 5 + m, i + 5 + m + f);
  }

  lemma SliceOfPrefix(p: string, rest: string, a: nat, b: nat)
    requires a <= b <= |p|
    ensures (p + rest)[a..b] == p[a..b]
  {
  }

  /** Moved past `n` characters, a token starts and ends `n` later. */
  function Shifted(t: Token, n: nat): (u: Token)
    ensures u.start == t.start + n && u.end == t.end + n
    ensures u.minutes == t.minutes && u.seconds == t.seconds && u.fraction == t.fraction
  {
    t.(start := t.start + n, end := t.end + n)
  }

  /** A token found in `rest` is found `|p|` characters later once `p` is put in front. */
  lemma MatchesInShift(p: string, rest: string, t: Token)
    requires MatchesIn(rest, t)
    ensures MatchesIn(p + rest, Shifted(t, |p|))
  {
    var i, m, f := t.start, |t.minutes|, |t.fraction|;
    SliceOfSuffix(p, rest, i + 1, i + 1 + m);
    SliceOfSuffix(p, rest, i + 2 + m, i + 4 + m);
    if f == 0 {
      ShiftedNoFraction(p, rest, t);
    } else {
      SliceOfSuffix(p, rest, i + 5 + m, i + 5 + m + f);
      ShiftedFraction(p, rest, t);
    }
  }

  lemma ShiftedNoFraction(p: string, rest: string, t: Token)
    requires MatchesIn(rest, t) && t.fraction == []
    requires (p + rest)[|p| + t.start + 1..|p| + t.start + 1 + |t.minutes|] == t.minutes
    requires (p + rest)[|p| + t.start + 2 + |t.minutes|..|p| + t.start + 4 + |t.minutes|] == t.seconds
    ensures MatchesIn(p + rest, Shifted(t, |p|))
  {
    var q, n, i, m := p + rest, |p|, t.start, |t.minutes|;
    assert q[n + i] == rest[i] && q[n + i + 1 + m] == rest[i + 1 + m] && q[n + i + 4 + m] == rest[i + 4 + m];
    assert q[n + i + 5 + m..n + i + 5 + m] == [];
  }

  lemma ShiftedFraction(p: string, rest: string, t: Token)
    requires MatchesIn(rest, t) && t.fraction != []
    requires (p + rest)[|p| + t.start + 1..|p| + t.start + 1 + |t.minutes|] == t.minutes
    requires (p + rest)[|p| + t.start + 2 + |t.minutes|..|p| + t.start + 4 + |t.minutes|] == t.seconds
    requires (p + rest)[|p| + t.start + 5 + |t.minutes|..|p| + t.start + 5 + |t.minutes| + |t.fraction|] == t.fraction
    ensures MatchesIn(p + rest, Shifted(t, |p|))
  {
    var q, n, i, m, f := p + rest, |p|, t.start, |t.minutes|, |t.fraction|;
    assert q[n + i] == rest[i] && q[n + i + 1 + m] == rest[i + 1 + m] && q[n + i + 4 + m] == rest[i + 4 + m];
    assert q[n + i + 5 + m + f] == rest[i + 5 + m + f];
  }

  lemma SliceOfSuffix(p: string, rest: string, a: nat, b: nat)
    requires a <= b <= |rest|
    ensures (p + rest)[|p| + a..|p| + b] == rest[a..b]
  {
  }

  /** The number of consecutive digits at `s[i..]`, at most `max`. */
  function DigitRun(s: string, i: nat, max: nat): (n: nat)
    requires i <= |s|
    ensures n <= max && i + n <= |s|
    ensures forall k :: i <= k < i + n ==> IsDigit(s[k])
    ensures n < max && i + n < |s| ==> !IsDigit(s[i + n])
    decreases max
  {
    if max == 0 || i == |s| || !IsDigit(s[i]) then 0 else 1 + DigitRun(s, i + 1, max - 1)
  }

  /**
   * The regular expression tried at position `i` alone. The pattern needs no
   * backtracking: a group of one digit fewer would have to be followed by
   * ':' or ']' where the longer group found a digit.
   */
  function MatchAt(s: string, i: nat): (r: Option<Token>)
    requires i <= |s|
    ensures r.Some? ==> r.value.start == i && MatchesIn(s, r.value)
  {
    if i == |s| || s[i] != '[' then None
    else
      var m := DigitRun(s, i + 1, 2);
      if m == 0 || i + 1 + m == |s| || s[i + 1 + m] != ':' then None
      else MatchAfterMinutes(s, i, m)
  }

  /** The rest of the pattern once `[` and the minutes and `:` have matched at `i`. */
  function MatchAfterMinutes(s: string, i: nat, m: nat): (r: Option<Token>)
    requires 1 <= m <= 2 && i + 1 + m < |s|
    requires s[i] == '[' && s[i + 1 + m] == ':'
    requires AllDigits(s[i + 1..i + 1 + m])
    ensures r.Some? ==> r.value.start == i && MatchesIn(s, r.value)
  {
    var p := i + 2 + m;
    if DigitRun(s, p, 2) != 2 then None
    else
      var q := p + 2;
      if q == |s| then None
      else if s[q] == ']' then Some(TokenFrom(s, i, m, 0))
      else if s[q] != '.' then None
      else
        var f := DigitRun(s, q + 1, 3);
        if f == 0 || q + 1 + f == |s| || s[q + 1 + f] != ']' then None
        else Some(TokenFrom(s, i, m, f))
  }

  /** The token whose `m` minute digits and `f` fraction digits are laid out at `s[i..]`. */
  function TokenFrom(s: string, i: nat, m: nat, f: nat): (t: Token)
    requires 1 <= m <= 2 && f <= 3
    requires i + 5 + m + (if f == 0 then 0 else f + 1) <= |s|
    requires s[i] == '[' && s[i + 1 + m] == ':'
    requires AllDigits(s[i + 1..i + 1 + m]) && AllDigits(s[i + 2 + m..i + 4 + m])
    requires AllDigits(s[i + 5 + m..i + 5 + m + f])
    requires f == 0 ==> s[i + 4 + m] == ']'
    requires f != 0 ==> s[i + 4 + m] == '.' && s[i + 5 + m + f] == ']'
    ensures t.start == i && MatchesIn(s, t)
  {
    var fraction := if f == 0 then "" else s[i + 5 + m..i + 5 + m + f];
    Token(i, s[i + 1..i + 1 + m], s[i + 2 + m..i + 4 + m], fraction,
          if f == 0 then i + 5 + m else i + 6 + m + f)
  }

  /** `t` is what the pattern yields when tried at `t.start`. */
  predicate FoundAt(s: string, t: Token) {
    t.start < |s| && MatchAt(s, t.start) == Some(t)
  }

  /** Python's `_TS.search(s, i)`: the leftmost match at or after `i`. */
  function Search(s: string, i: nat): (r: Option<Token>)
    requires i <= |s|
    ensures r.Some? ==> i <= r.value.start && FoundAt(s, r.value)
    ensures r.Some? ==> forall k :: i <= k < r.value.start ==> MatchAt(s, k).None?
    ensures r.None? ==> forall k :: i <= k <= |s| ==> MatchAt(s, k).None?
    decreases |s| - i
  {
    if i == |s| then None
    else
      match MatchAt(s, i)
      case Some(t) => Some(t)
      case None => Search(s, i + 1)
  }

  /** Python's `_TS.finditer(s)` from position `i`: each search resumes where the last match ended. */
  function FindTokens(s: string, i: nat): (tokens: seq<Token>)
    requires i <= |s|
    ensures tokens == [] <==> Search(s, i).None?
    ensures forall x :: x in tokens ==> FoundAt(s, x)
    ensures forall k :: 0 <= k < |tokens| ==> i <= tokens[k].start
    ensures forall k :: 0 <= k < |tokens| - 1 ==> tokens[k].end <= tokens[k + 1].start
    decreases |s| - i
  {
    match Search(s, i)
    case None => []
    case Some(t) =>
      assert t.start < t.end <= |s| by { assert MatchesIn(s, t); }
      var rest := FindTokens(s, t.end);
      SpansThenRest(i, t, rest);
      [t] + rest
  }

  /** A span followed by spans after its end are again ordered spans after `i`. */
  lemma SpansThenRest(i: nat, t: Token, rest: seq<Token>)
    requires i <= t.start < t.end
    requires forall k :: 0 <= k < |rest| ==> t.end <= rest[k].start
    requires forall k :: 0 <= k < |rest| - 1 ==> rest[k].end <= rest[k + 1].start
    ensures forall k :: 0 <= k < |[t] + rest| ==> i <= ([t] + rest)[k].start
    ensures forall k :: 0 <= k < |[t] + rest| - 1 ==> ([t] + rest)[k].end <= ([t] + rest)[k + 1].start
  {
    var r := [t] + rest;
    forall k | 0 <= k < |r| ensures i <= r[k].start {
      if k > 0 {
        assert r[k] == rest[k - 1];
      }
    }
    forall k | 0 <= k < |r| - 1 ensures r[k].end <= r[k + 1].start {
      assert r[k + 1] == rest[k];
      if k > 0 {
        assert r[k] == rest[k - 1];
      }
    }
  }

  /** No match starts strictly inside another: only its first character is a `[`. */
  lemma NoBracketInside(s: string, t: Token, q: nat)
    requires MatchesIn(s, t) && q < |s|
    ensures s[q] == '[' ==> q <= t.start || t.end <= q
  {
    var i, m, f := t.start, |t.minutes|, |t.fraction|;
    if i < q <= i + m {
      assert s[q] == s[i + 1..i + 1 + m][q - i - 1];
      assert IsDigit(t.minutes[q - i - 1]);
    } else if i + 2 + m <= q < i + 4 + m {
      assert s[q] == s[i + 2 + m..i + 4 + m][q - i - 2 - m];
      assert IsDigit(t.seconds[q - i - 2 - m]);
    } else if i + 5 + m <= q < i + 5 + m + f {
      assert s[q] == s[i + 5 + m..i + 5 + m + f][q - i - 5 - m];
      assert IsDigit(t.fraction[q - i - 5 - m]);
    }
  }

  /** The scan misses no match: every position from `i` on where the pattern matches yields one of the tokens. */
  lemma {:induction false} FindTokensComplete(s: string, i: nat, p: nat)
    requires i <= p < |s| && MatchAt(s, p).Some?
    ensures exists k :: 0 <= k < |FindTokens(s, i)| && FindTokens(s, i)[k] == MatchAt(s, p).value
    decreases |s| - i
  {
    var tokens := FindTokens(s, i);
    assert Search(s, i).Some?;
    var t := Search(s, i).value;
    assert MatchesIn(s, t);
    var rest := FindTokens(s, t.end);
    assert tokens == [t] + rest;
    if t.start == p {
      assert tokens[0] == MatchAt(s, p).value;
    } else {
      assert s[p] == '[' by { assert MatchesIn(s, MatchAt(s, p).value); }
      NoBracketInside(s, t, p);
      FindTokensComplete(s, t.end, p);
      var k :| 0 <= k < |rest| && rest[k] == MatchAt(s, p).value;
      assert tokens[k + 1] == rest[k];
    }
  }

  /**
   * Every token laid out in a line is found there: the pattern matches at
   * `t.start` and yields exactly `t`.
   */
  lemma MatchAtComplete(s: string, t: Token)
    requires MatchesIn(s, t)
    ensures MatchAt(s, t.start) == Some(t)
  {
    DigitGroupAt(s, t.start + 1, 2, t.minutes);
    AfterMinutesComplete(s, t);
  }

  lemma AfterMinutesComplete(s: string, t: Token)
    requires MatchesIn(s, t)
    ensures MatchAfterMinutes(s, t.start, |t.minutes|) == Some(t)
  {
    var i, m, f := t.start, |t.minutes|, |t.fraction|;
    DigitGroupAt(s, i + 2 + m, 2, t.seconds);
    if f != 0 {
      DigitGroupAt(s, i + 5 + m, 3, t.fraction);
    }
    TokenFromMatch(s, t);
  }

  /** The token built from the digit groups of a match is that match. */
  lemma TokenFromMatch(s: string, t: Token)
    requires MatchesIn(s, t)
    ensures TokenFrom(s, t.start, |t.minutes|, |t.fraction|) == t
  {
  }

  /** A group of digits written at `s[i..]` and followed by a non-digit is what `DigitRun` reads. */
  lemma DigitGroupAt(s: string, i: nat, max: nat, group: string)
    requires 0 < |group| <= max && AllDigits(group) && i + |group| < |s|
    requires s[i..i + |group|] == group
    requires !IsDigit(s[i + |group|])
    ensures DigitRun(s, i, max) == |group|
  {
    forall k | i <= k < i + |group| ensures IsDigit(s[k]) {
      assert s[k] == group[k - i];
    }
    DigitRunExact(s, i, max, |group|);
  }

  lemma {:induction false} DigitRunExact(s: string, i: nat, max: nat, n: nat)
    requires i + n <= |s| && n <= max
    requires forall k :: i <= k < i + n ==> IsDigit(s[k])
    requires n < max ==> i + n < |s| && !IsDigit(s[i + n])
    ensures DigitRun(s, i, max) == n
    decreases n
  {
    if n > 0 {
      DigitRunExact(s, i + 1, max - 1, n - 1);
    }
  }

  // ---------------------------------------------------------------------------
  // Milliseconds
  // ---------------------------------------------------------------------------

  /** The largest time a token can denote: [99:99.999]. */
  const MaxTimestampMs: int := (99 * 60 + 99) * 1000 + 999

  /**
   * The fraction digits as milliseconds: one digit counts tenths, two
   * hundredths, three thousandths; no fraction counts zero.
   */
  function FractionMs(fraction: string): (ms: nat)
    requires |fraction| <= 3 && AllDigits(fraction)
    ensures ms < 1000
    ensures fraction == [] ==> ms == 0
    ensures fraction != [] ==> ms * Pow10(|fraction|) == DigitsValue(fraction) * 1000
  {
    if fraction == [] then 0
    else if |fraction| == 1 then DigitsValue(fraction) * 100
    else if |fraction| == 2 then DigitsValue(fraction) * 10
    else
      assert fraction[..3] == fraction && Pow10(3) == 1000;
      DigitsValue(fraction[..3])
  }

  /** The time a token denotes, in milliseconds. */
  function TokenMs(t: Token): (ms: int)
    requires WellFormed(t)
    ensures 0 <= ms <= MaxTimestampMs
  {
    (DigitsValue(t.minutes) * 60 + DigitsValue(t.seconds)) * 1000 + FractionMs(t.fraction)
  }

  /** The whole seconds and the milliseconds of a token's time can be read back apart. */
  lemma TokenMsParts(t: Token)
    requires WellFormed(t)
    ensures TokenMs(t) / 1000 == DigitsValue(t.minutes) * 60 + DigitsValue(t.seconds)
    ensures TokenMs(t) % 1000 == FractionMs(t.fraction)
  {
  }

  /** A trailing zero digit does not change the milliseconds: `.4`, `.40` and `.400` agree. */
  lemma FractionTrailingZero(fraction: string)
    requires |fraction| < 3 && AllDigits(fraction)
    ensures AllDigits(fraction + "0")
    ensures FractionMs(fraction + "0") == FractionMs(fraction)
  {
    var g := fraction + "0";
    assert g[..|g| - 1] == fraction;
  }

  /** A token written on its own is read back as itself. */
  lemma RenderRoundTrip(t: Token)
    requires WellFormed(t) && t.start == 0 && t.end == Width(t)
    ensures MatchAt(Render(t), 0) == Some(t)
  {
    RenderMatches(t);
    MatchAtComplete(Render(t), t);
  }

  // ---------------------------------------------------------------------------
  // What one physical line contributes
  // ---------------------------------------------------------------------------

  /** Every entry the parser emits has a time in range, stripped non-empty text and no translation. */
  predicate WellFormedEntry(e: LyricLine) {
    && 0 <= e.tMs <= MaxTimestampMs
    && Stripped(e.original)
    && e.translated == None
  }

  /** All tokens satisfy the digit-group lengths of the pattern. */
  predicate AllWellFormed(tokens: seq<Token>) {
    forall k :: 0 <= k < |tokens| ==> WellFormed(tokens[k])
  }

  /** Every token the scan finds is well formed and lies inside `s`. */
  lemma FoundTokensInside(s: string, tokens: seq<Token>)
    requires forall x :: x in tokens ==> FoundAt(s, x)
    ensures AllWellFormed(tokens)
    ensures forall k :: 0 <= k < |tokens| ==> tokens[k].start < tokens[k].end <= |s|
  {
    forall k | 0 <= k < |tokens|
      ensures WellFormed(tokens[k]) && tokens[k].start < tokens[k].end <= |s|
    {
      assert tokens[k] in tokens && MatchesIn(s, tokens[k]);
    }
  }

  /** One entry per token, in token order, all carrying `text`. */
  function Stamp(tokens: seq<Token>, text: string): (entries: seq<LyricLine>)
    requires AllWellFormed(tokens)
    ensures |entries| == |tokens|
    ensures forall k :: 0 <= k < |entries| ==>
      entries[k] == LyricLine(TokenMs(tokens[k]), text, None)
  {
    if tokens == [] then []
    else Stamp(tokens[..|tokens| - 1], text) + [LyricLine(TokenMs(tokens[|tokens| - 1]), text, None)]
  }

  lemma StampStep(tokens: seq<Token>, j: nat, text: string)
    requires AllWellFormed(tokens) && j < |tokens|
    ensures Stamp(tokens[..j + 1], text) == Stamp(tokens[..j], text) + [LyricLine(TokenMs(tokens[j]), text, None)]
  {
    assert tokens[..j + 1][..j] == tokens[..j];
  }

  /** The lyric text of a line: what follows its last token, stripped. */
  function TextAfterTokens(raw: string, tokens: seq<Token>): (text: string)
    requires tokens != [] && tokens[|tokens| - 1].end <= |raw|
    ensures text == [] || Stripped(text)
  {
    Strip(raw[tokens[|tokens| - 1].end..])
  }

  /**
   * The entries one physical line contributes: none for a blank line, a line
   * without timestamp tokens (metadata such as `[ar: Someone]`) or a line
   * with nothing after its last token; otherwise one per token, all sharing
   * the stripped text after the last token.
   */
  function LineEntries(line: string): (entries: seq<LyricLine>)
    ensures forall k :: 0 <= k < |entries| ==> WellFormedEntry(entries[k])
  {
    var raw := Strip(line);
    if raw == [] then []
    else
      var tokens := FindTokens(raw, 0);
      if tokens == [] then []
      else
        FoundTokensInside(raw, tokens);
        var text := TextAfterTokens(raw, tokens);
        if text == [] then []
        else
          StampWellFormed(tokens, text);
          Stamp(tokens, text)
  }

  lemma StampWellFormed(tokens: seq<Token>, text: string)
    requires AllWellFormed(tokens)
    requires Stripped(text)
    ensures forall k :: 0 <= k < |tokens| ==> WellFormedEntry(Stamp(tokens, text)[k])
  {
  }

  /** A line without timestamp tokens, metadata tags included, contributes nothing. */
  lemma LineWithoutTokens(line: string)
    requires FindTokens(Strip(line), 0) == []
    ensures LineEntries(line) == []
  {
  }

  /**
   * A line with k tokens and text after the last one contributes exactly k
   * entries, one per token time in token order, all with that text; a line
   * with no text after its last token contributes nothing.
   */
  lemma LineFanOut(line: string, raw: string, tokens: seq<Token>)
    requires raw == Strip(line) && tokens == FindTokens(raw, 0) && tokens != []
    ensures AllWellFormed(tokens) && tokens[|tokens| - 1].end <= |raw|
    ensures TextAfterTokens(raw, tokens) == [] ==> LineEntries(line) == []
    ensures TextAfterTokens(raw, tokens) != [] ==> |LineEntries(line)| == |tokens|
    ensures TextAfterTokens(raw, tokens) != [] ==> forall k :: 0 <= k < |tokens| ==>
      LineEntries(line)[k] == LyricLine(TokenMs(tokens[k]), TextAfterTokens(raw, tokens), None)
  {
    FoundTokensInside(raw, tokens);
  }

  /** The entries of all lines, line after line, before sorting. */
  function Entries(lines: seq<string>): (entries: seq<LyricLine>)
    ensures forall k :: 0 <= k < |entries| ==> WellFormedEntry(entries[k])
  {
    if lines == [] then []
    else
      Entries(lines[..|lines| - 1]) + LineEntries(lines[|lines| - 1])
  }

  lemma EntriesStep(lines: seq<string>, i: int)
    requires 0 <= i < |lines|
    ensures Entries(lines[..i + 1]) == Entries(lines[..i]) + LineEntries(lines[i])
  {
    assert lines[..i + 1][..i] == lines[..i];
  }

  // ---------------------------------------------------------------------------
  // Stable sort by time (the contract of Python's list.sort with a key)
  // ---------------------------------------------------------------------------

  predicate SortedByTime(s: seq<LyricLine>) {
    forall i, j :: 0 <= i < j < |s| ==> s[i].tMs <= s[j].tMs
  }

  /** The entries at time `t`, in their order in `s`. */
  function AtTime(s: seq<LyricLine>, t: int): (r: seq<LyricLine>)
    ensures forall k :: 0 <= k < |r| ==> r[k].tMs == t
  {
    if s == [] then []
    else AtTime(s[..|s| - 1], t) + (if s[|s| - 1].tMs == t then [s[|s| - 1]] else [])
  }

  lemma SwapEmpty<T>(a: seq<T>, b: seq<T>, c: seq<T>)
    requires b == [] || c == []
    ensures a + b + c == a + c + b
  {
    if b == [] { assert a + b == a; } else { assert c == []; }
  }

  lemma AtTimeSingle(x: LyricLine, t: int)
    ensures AtTime([x], t) == if x.tMs == t then [x] else []
  {
    assert [x][..0] == [];
  }

  lemma {:induction false} AtTimeConcat(a: seq<LyricLine>, b: seq<LyricLine>, t: int)
    ensures AtTime(a + b, t) == AtTime(a, t) + AtTime(b, t)
    decreases |b|
  {
    if b != [] {
      assert (a + b)[..|a + b| - 1] == a + b[..|b| - 1];
      AtTimeConcat(a, b[..|b| - 1], t);
    } else {
      assert a + b == a;
    }
  }

  /** `x` placed after every entry of `s` whose time is at most its own. */
  function InsertByTime(s: seq<LyricLine>, x: LyricLine): (r: seq<LyricLine>)
    ensures |r| == |s| + 1
    ensures multiset(r) == multiset(s) + multiset{x}
  {
    if s == [] || s[|s| - 1].tMs <= x.tMs then s + [x]
    else
      assert s == s[..|s| - 1] + [s[|s| - 1]];
      InsertByTime(s[..|s| - 1], x) + [s[|s| - 1]]
  }

  lemma {:induction false} InsertSorted(s: seq<LyricLine>, x: LyricLine)
    requires SortedByTime(s)
    ensures SortedByTime(InsertByTime(s, x))
    decreases |s|
  {
    if s != [] && s[|s| - 1].tMs > x.tMs {
      var init, last := s[..|s| - 1], s[|s| - 1];
      InsertSorted(init, x);
      InsertBounded(init, x, last.tMs);
      SortedAppend(InsertByTime(init, x), last);
    }
  }

  /** Every line of `InsertByTime(s, x)` is at or before `b` when `x` and all of `s` are. */
  lemma InsertBounded(s: seq<LyricLine>, x: LyricLine, b: int)
    requires forall y :: y in s ==> y.tMs <= b
    requires x.tMs <= b
    ensures forall y :: y in InsertByTime(s, x) ==> y.tMs <= b
  {
    forall y | y in InsertByTime(s, x) ensures y.tMs <= b {
      assert y in multiset(InsertByTime(s, x));
      assert y in multiset(s) || y == x;
    }
  }

  /** Appending a line no earlier than every line keeps a sequence sorted. */
  lemma SortedAppend(a: seq<LyricLine>, y: LyricLine)
    requires SortedByTime(a)
    requires forall z :: z in a ==> z.tMs <= y.tMs
    ensures SortedByTime(a + [y])
  {
    var r := a + [y];
    forall i, j | 0 <= i < j < |r| ensures r[i].tMs <= r[j].tMs {
      if j == |r| - 1 { assert r[i] in a; }
    }
  }

  /** Python's stable `lines.sort(key=lambda x: x.t_ms)`, written as an insertion sort. */
  function SortByTime(s: seq<LyricLine>): (r: seq<LyricLine>)
    ensures SortedByTime(r)
    ensures multiset(r) == multiset(s)
  {
    if s == [] then []
    else
      var init, last := s[..|s| - 1], s[|s| - 1];
      var sorted := SortByTime(init);
      InsertSorted(sorted, last);
      assert multiset(s) == multiset(init) + multiset{last} by { assert s == init + [last]; }
      InsertByTime(sorted, last)
  }

  lemma {:induction false} InsertAtTime(s: seq<LyricLine>, x: LyricLine, t: int)
    ensures AtTime(InsertByTime(s, x), t) == AtTime(s + [x], t)
    decreases |s|
  {
    if s != [] && s[|s| - 1].tMs > x.tMs {
      var init, last := s[..|s| - 1], s[|s| - 1];
      assert s == init + [last];
      var a, ax, al := AtTime(init, t), AtTime([x], t), AtTime([last], t);
      calc {
        AtTime(InsertByTime(s, x), t);
        { assert InsertByTime(s, x) == InsertByTime(init, x) + [last]; }
        AtTime(InsertByTime(init, x) + [last], t);
        { AtTimeConcat(InsertByTime(init, x), [last], t); InsertAtTime(init, x, t); }
        AtTime(init + [x], t) + al;
        { AtTimeConcat(init, [x], t); }
        a + ax + al;
        // x and last have different times, so at most one of them is kept
        { AtTimeSingle(x, t); AtTimeSingle(last, t); SwapEmpty(a, ax, al); }
        a + al + ax;
        { AtTimeConcat(init, [last], t); }
        AtTime(s, t) + ax;
        { AtTimeConcat(s, [x], t); }
        AtTime(s + [x], t);
      }
    }
  }

  /**
   * The sort is stable: the entries at any one time keep their relative
   * order, and none is lost or added.
   */
  lemma {:induction false} SortByTimeStable(s: seq<LyricLine>, t: int)
    ensures AtTime(SortByTime(s), t) == AtTime(s, t)
    decreases |s|
  {
    if s != [] {
      var init, last := s[..|s| - 1], s[|s| - 1];
      SortByTimeStable(init, t);
      InsertAtTime(SortByTime(init), last, t);
      AtTimeConcat(SortByTime(init), [last], t);
    }
  }

  // ---------------------------------------------------------------------------
  // Removing exact duplicates
  // ---------------------------------------------------------------------------

  /** The key under which duplicates are recognised. */
  function Pair(e: LyricLine): (int, string) {
    (e.tMs, e.original)
  }

  /** Among entries with the same translation (all `None` out of the parser) the key identifies the entry. */
  lemma PairIdentifies(x: LyricLine, y: LyricLine)
    requires x.translated == y.translated
    ensures Pair(x) == Pair(y) <==> x == y
  {
  }

  /** The keys present in `s`. */
  function Pairs(s: seq<LyricLine>): (keys: set<(int, string)>)
    ensures forall k :: 0 <= k < |s| ==> Pair(s[k]) in keys
  {
    if s == [] then {} else Pairs(s[..|s| - 1]) + {Pair(s[|s| - 1])}
  }

  predicate NoDuplicatePairs(s: seq<LyricLine>) {
    forall i, j :: 0 <= i < j < |s| ==> Pair(s[i]) != Pair(s[j])
  }

  /** Keep each entry whose key has not been seen earlier in `s`. */
  function Dedupe(s: seq<LyricLine>): (r: seq<LyricLine>)
    ensures |r| <= |s|
  {
    if s == [] then []
    else
      var init, last := s[..|s| - 1], s[|s| - 1];
      var kept := Dedupe(init);
      if Pair(last) in Pairs(init) then kept
      else kept + [last]
  }

  /** Deduplication loses no key. */
  lemma {:induction false} DedupeKeys(s: seq<LyricLine>)
    ensures Pairs(Dedupe(s)) == Pairs(s)
    decreases |s|
  {
    if s != [] {
      var init, last := s[..|s| - 1], s[|s| - 1];
      DedupeKeys(init);
      if Pair(last) !in Pairs(init) {
        PairsAppend(Dedupe(init), last);
      }
    }
  }

  lemma PairsAppend(s: seq<LyricLine>, x: LyricLine)
    ensures Pairs(s + [x]) == Pairs(s) + {Pair(x)}
  {
    assert (s + [x])[..|s|] == s;
  }

  /** Deduplication leaves no two entries with the same key. */
  lemma {:induction false} DedupeDistinct(s: seq<LyricLine>)
    ensures NoDuplicatePairs(Dedupe(s))
    decreases |s|
  {
    if s != [] {
      var init, last := s[..|s| - 1], s[|s| - 1];
      DedupeDistinct(init);
      if Pair(last) !in Pairs(init) {
        DedupeKeys(init);
        DistinctAppend(Dedupe(init), last);
      }
    }
  }

  /** Appending an entry with a new key to entries with distinct keys keeps them distinct. */
  lemma DistinctAppend(s: seq<LyricLine>, x: LyricLine)
    requires NoDuplicatePairs(s) && Pair(x) !in Pairs(s)
    ensures NoDuplicatePairs(s + [x])
  {
    var r := s + [x];
    forall i, j | 0 <= i < j < |r| ensures Pair(r[i]) != Pair(r[j]) {
      assert r[i] == s[i];
      if j < |s| {
        assert r[j] == s[j];
      }
    }
  }

  /** Every entry deduplication keeps comes from its input. */
  lemma {:induction false} DedupeFrom(s: seq<LyricLine>)
    ensures forall k :: 0 <= k < |Dedupe(s)| ==> Dedupe(s)[k] in s
    decreases |s|
  {
    if s != [] {
      var init, last := s[..|s| - 1], s[|s| - 1];
      DedupeFrom(init);
      assert forall x :: x in init ==> x in s;
    }
  }

  /** `s[j]` is the first entry of `s` with its key. */
  predicate FirstOccurrence(s: seq<LyricLine>, j: int)
    requires 0 <= j < |s|
  {
    Pair(s[j]) !in Pairs(s[..j])
  }

  /** The entries `Dedupe` keeps are exactly the first occurrences of their keys. */
  lemma DedupeFirstOccurrences(s: seq<LyricLine>, x: LyricLine)
    ensures x in Dedupe(s) <==> exists j :: 0 <= j < |s| && s[j] == x && FirstOccurrence(s, j)
  {
    if x in Dedupe(s) {
      var j := DedupeKeptIsFirst(s, x);
    } else {
      forall j | 0 <= j < |s| && s[j] == x ensures !FirstOccurrence(s, j) {
        if FirstOccurrence(s, j) { DedupeKeepsFirst(s, j); }
      }
    }
  }

  lemma {:induction false} DedupeKeptIsFirst(s: seq<LyricLine>, x: LyricLine) returns (j: int)
    requires x in Dedupe(s)
    ensures 0 <= j < |s| && s[j] == x && FirstOccurrence(s, j)
    decreases |s|
  {
    var init, last := s[..|s| - 1], s[|s| - 1];
    if x in Dedupe(init) {
      j := DedupeKeptIsFirst(init, x);
      assert s[..j] == init[..j];
    } else {
      DedupeLastKept(s, x);
      j := |s| - 1;
      assert s[..j] == init;
    }
  }

  /** An entry kept from `s` but not from all but its last entry is that last entry, with a new key. */
  lemma DedupeLastKept(s: seq<LyricLine>, x: LyricLine)
    requires s != [] && x in Dedupe(s) && x !in Dedupe(s[..|s| - 1])
    ensures x == s[|s| - 1] && Pair(x) !in Pairs(s[..|s| - 1])
  {
    var init, last := s[..|s| - 1], s[|s| - 1];
    assert Dedupe(s) == Dedupe(init) + [last];
  }

  lemma {:induction false} DedupeKeepsFirst(s: seq<LyricLine>, j: int)
    requires 0 <= j < |s| && FirstOccurrence(s, j)
    ensures s[j] in Dedupe(s)
    decreases |s|
  {
    var init, last := s[..|s| - 1], s[|s| - 1];
    if j < |s| - 1 {
      assert s[..j] == init[..j] && s[j] == init[j];
      DedupeKeepsFirst(init, j);
    } else {
      assert s[..j] == init;
    }
  }

  /** Deduplication keeps a sorted list sorted. */
  lemma DedupeSorted(s: seq<LyricLine>)
    requires SortedByTime(s)
    ensures SortedByTime(Dedupe(s))
  {
    var r := Dedupe(s);
    forall i, j | 0 <= i < j < |r| ensures r[i].tMs <= r[j].tMs {
      DedupeOrder(s, i, j);
    }
  }

  /** `x` and `y` are the first entries of `s` with their keys, `x` before `y`, at `a` and `b`. */
  predicate FirstsInOrder(s: seq<LyricLine>, a: int, b: int, x: LyricLine, y: LyricLine) {
    && 0 <= a < b < |s| && s[a] == x && s[b] == y
    && FirstOccurrence(s, a) && FirstOccurrence(s, b)
  }

  /** Deduplication keeps the first occurrences of the keys, in the order they occur in the input. */
  lemma {:induction false} DedupeOrder(s: seq<LyricLine>, i: int, j: int)
    requires 0 <= i < j < |Dedupe(s)|
    ensures exists a, b :: FirstsInOrder(s, a, b, Dedupe(s)[i], Dedupe(s)[j])
    decreases |s|
  {
    var init, last := s[..|s| - 1], s[|s| - 1];
    var kept := Dedupe(init);
    if j < |kept| {
      DedupeOrder(init, i, j);
      var a, b :| FirstsInOrder(init, a, b, kept[i], kept[j]);
      FirstOccurrenceInPrefix(s, a);
      FirstOccurrenceInPrefix(s, b);
      assert FirstsInOrder(s, a, b, Dedupe(s)[i], Dedupe(s)[j]);
    } else {
      assert Dedupe(s) == kept + [last] && Pair(last) !in Pairs(init);
      var a := DedupeKeptIsFirst(init, kept[i]);
      FirstOccurrenceInPrefix(s, a);
      assert s[..|s| - 1] == init;
      assert FirstsInOrder(s, a, |s| - 1, Dedupe(s)[i], Dedupe(s)[j]);
    }
  }

  /** Being a first occurrence depends only on what comes before. */
  lemma FirstOccurrenceInPrefix(s: seq<LyricLine>, a: int)
    requires 0 <= a < |s| - 1
    ensures s[..|s| - 1][a] == s[a]
    ensures FirstOccurrence(s[..|s| - 1], a) <==> FirstOccurrence(s, a)
  {
    assert s[..|s| - 1][..a] == s[..a];
  }

  /** Deduplication acts on each time separately. */
  lemma {:induction false} DedupeAtTime(s: seq<LyricLine>, t: int)
    ensures AtTime(Dedupe(s), t) == Dedupe(AtTime(s, t))
    decreases |s|
  {
    if s != [] {
      var init, last := s[..|s| - 1], s[|s| - 1];
      DedupeAtTime(init, t);
      var kept, a := Dedupe(init), AtTime(init, t);
      assert (kept + [last])[..|kept|] == kept;
      if last.tMs == t {
        PairAtTime(init, t, Pair(last));
        assert AtTime(s, t) == a + [last] && (a + [last])[..|a|] == a;
      } else {
        assert AtTime(s, t) == a;
      }
    }
  }

  /** A key with time `t` is present in `s` exactly when it is present among the entries at `t`. */
  lemma {:induction false} PairAtTime(s: seq<LyricLine>, t: int, p: (int, string))
    requires p.0 == t
    ensures p in Pairs(s) <==> p in Pairs(AtTime(s, t))
    decreases |s|
  {
    if s != [] {
      var init, last := s[..|s| - 1], s[|s| - 1];
      PairAtTime(init, t, p);
      var a := AtTime(init, t);
      assert Pairs(s) == Pairs(init) + {Pair(last)};
      if last.tMs == t {
        assert AtTime(s, t) == a + [last] && (a + [last])[..|a|] == a;
      } else {
        assert AtTime(s, t) == a && Pair(last) != p;
      }
    }
  }

  /** A key that no entry of `s` carries is not among its keys. */
  lemma {:induction false} PairsExclude(s: seq<LyricLine>, p: (int, string))
    requires forall k :: 0 <= k < |s| ==> Pair(s[k]) != p
    ensures p !in Pairs(s)
    decreases |s|
  {
    if s != [] {
      PairsExclude(s[..|s| - 1], p);
    }
  }

  /** A key present in `s` is the key of one of its entries. */
  lemma {:induction false} PairWitness(s: seq<LyricLine>, p: (int, string)) returns (k: int)
    requires p in Pairs(s)
    ensures 0 <= k < |s| && Pair(s[k]) == p
    decreases |s|
  {
    if p == Pair(s[|s| - 1]) {
      k := |s| - 1;
    } else {
      k := PairWitness(s[..|s| - 1], p);
    }
  }

  /** Sorting does not change the set of keys. */
  lemma SortKeepsPairs(s: seq<LyricLine>)
    ensures Pairs(SortByTime(s)) == Pairs(s)
  {
    var r := SortByTime(s);
    forall p | p in Pairs(r) ensures p in Pairs(s) {
      var k := PairWitness(r, p);
      assert r[k] in multiset(s);
      var j :| 0 <= j < |s| && s[j] == r[k];
    }
    forall p | p in Pairs(s) ensures p in Pairs(r) {
      var k := PairWitness(s, p);
      assert s[k] in multiset(r);
      var j :| 0 <= j < |r| && r[j] == s[k];
    }
  }

  /** Sorting entries already in time order leaves them as they are. */
  lemma {:induction false} SortSortedUnchanged(s: seq<LyricLine>)
    requires SortedByTime(s)
    ensures SortByTime(s) == s
    decreases |s|
  {
    if s != [] {
      var init, last := s[..|s| - 1], s[|s| - 1];
      SortSortedUnchanged(init);
      assert init == [] || init[|init| - 1].tMs <= last.tMs;
      assert init + [last] == s;
    }
  }

  /** Removing repeats from entries whose keys are already distinct keeps them all. */
  lemma {:induction false} DedupeDistinctUnchanged(s: seq<LyricLine>)
    requires NoDuplicatePairs(s)
    ensures Dedupe(s) == s
    decreases |s|
  {
    if s != [] {
      var init, last := s[..|s| - 1], s[|s| - 1];
      DistinctSplit(s);
      DedupeDistinctUnchanged(init);
      assert Dedupe(s) == Dedupe(init) + [last];
      assert init + [last] == s;
    }
  }

  /** In entries with distinct keys, the last key is new and the others stay distinct. */
  lemma DistinctSplit(s: seq<LyricLine>)
    requires s != [] && NoDuplicatePairs(s)
    ensures NoDuplicatePairs(s[..|s| - 1])
    ensures Pair(s[|s| - 1]) !in Pairs(s[..|s| - 1])
  {
    var init, last := s[..|s| - 1], s[|s| - 1];
    forall i, j | 0 <= i < j < |init| ensures Pair(init[i]) != Pair(init[j]) {
      assert init[i] == s[i] && init[j] == s[j];
    }
    forall k | 0 <= k < |init| ensures Pair(init[k]) != Pair(last) {
      assert init[k] == s[k];
    }
    PairsExclude(init, Pair(last));
  }

  // ---------------------------------------------------------------------------
  // The parser
  // ---------------------------------------------------------------------------

  /**
   * What `parse_lrc` returns for `text`: every line's entries, stably sorted
   * by time, with later repeats of a (time, text) pair removed.
   */
  function Parsed(text: string): (r: seq<LyricLine>)
    ensures SortedByTime(r)
    ensures NoDuplicatePairs(r)
    ensures forall k :: 0 <= k < |r| ==> WellFormedEntry(r[k])
  {
    var entries := Entries(SplitLines(text));
    var sorted := SortByTime(entries);
    DedupeSorted(sorted);
    DedupeDistinct(sorted);
    SortDedupeWellFormed(entries);
    Dedupe(sorted)
  }

  /** Sorting and deduplication only keep entries, so every kept entry is still well formed. */
  lemma SortDedupeWellFormed(entries: seq<LyricLine>)
    requires forall k :: 0 <= k < |entries| ==> WellFormedEntry(entries[k])
    ensures forall k :: 0 <= k < |Dedupe(SortByTime(entries))| ==>
      WellFormedEntry(Dedupe(SortByTime(entries))[k])
  {
    SortWellFormed(entries);
    DedupeWellFormed(SortByTime(entries));
  }

  lemma SortWellFormed(entries: seq<LyricLine>)
    requires forall k :: 0 <= k < |entries| ==> WellFormedEntry(entries[k])
    ensures forall k :: 0 <= k < |SortByTime(entries)| ==> WellFormedEntry(SortByTime(entries)[k])
  {
    var sorted := SortByTime(entries);
    forall k | 0 <= k < |sorted| ensures WellFormedEntry(sorted[k]) {
      assert sorted[k] in multiset(entries);
      var j :| 0 <= j < |entries| && entries[j] == sorted[k];
    }
  }

  lemma {:induction false} DedupeWellFormed(s: seq<LyricLine>)
    requires forall k :: 0 <= k < |s| ==> WellFormedEntry(s[k])
    ensures forall k :: 0 <= k < |Dedupe(s)| ==> WellFormedEntry(Dedupe(s)[k])
    decreases |s|
  {
    if s != [] {
      var init := s[..|s| - 1];
      assert forall k :: 0 <= k < |init| ==> init[k] == s[k];
      DedupeWellFormed(init);
    }
  }

  /**
   * The output holds exactly the entries the lines produce: each (time, text)
   * pair of a timestamped line is present once, and nothing else is.
   */
  lemma ParsedMembers(text: string, x: LyricLine)
    ensures x in Parsed(text) <==> x in Entries(SplitLines(text))
  {
    var entries := Entries(SplitLines(text));
    var sorted := SortByTime(entries);
    var r := Parsed(text);
    if x in r {
      DedupeFrom(sorted);
      assert x in multiset(sorted);
    }
    if x in entries {
      var j :| 0 <= j < |entries| && entries[j] == x;
      SortKeepsPairs(entries);
      DedupeKeys(sorted);
      assert Pair(x) in Pairs(r);
      var k := PairWitness(r, Pair(x));
      // both carry no translation, so equal keys mean equal entries
      assert r[k] == x;
    }
  }

  /**
   * Equal times keep their encounter order: the entries at any time `t` are
   * the entries the lines produce at `t`, in line and token order, without
   * repeated texts.
   */
  lemma ParsedStable(text: string, t: int)
    ensures AtTime(Parsed(text), t) == Dedupe(AtTime(Entries(SplitLines(text)), t))
  {
    var entries := Entries(SplitLines(text));
    DedupeAtTime(SortByTime(entries), t);
    SortByTimeStable(entries, t);
  }

  /** Empty or whitespace-only text yields no entries (and no error). */
  lemma ParsedBlank(text: string)
    requires AllSpace(text)
    ensures Parsed(text) == []
  {
    var lines := SplitLines(text);
    forall i | 0 <= i < |lines| ensures LineEntries(lines[i]) == [] {
      assert AllSpace(lines[i]) by {
        forall k | 0 <= k < |lines[i]| ensures IsSpace(lines[i][k]) {
          var j :| 0 <= j < |text| && text[j] == lines[i][k];
        }
      }
    }
    BlankEntries(lines);
  }

  lemma {:induction false} BlankEntries(lines: seq<string>)
    requires forall i :: 0 <= i < |lines| ==> LineEntries(lines[i]) == []
    ensures Entries(lines) == []
    decreases |lines|
  {
    if lines != [] {
      BlankEntries(lines[..|lines| - 1]);
    }
  }

  /**
   * `parse_lrc`: one pass over the lines appending an entry per timestamp
   * token, a stable sort by time, then a pass that drops every entry whose
   * (time, text) pair was already seen.
   */
  method ParseLrc(lrcText: string) returns (deduped: seq<LyricLine>)
    ensures deduped == Parsed(lrcText)
  {
    var rawLines := SplitLines(lrcText);
    var lines: seq<LyricLine> := [];
    for i := 0 to |rawLines|
      invariant lines == Entries(rawLines[..i])
    {
      var entries := EmitLine(rawLines[i]);
      EntriesStep(rawLines, i);
      lines := lines + entries;
    }
    assert rawLines[..|rawLines|] == rawLines;
    lines := SortByTime(lines);
    deduped := DropRepeats(lines);
  }

  /**
   * The body of the first loop of `parse_lrc` for one physical line: the
   * entries it appends.
   */
  method EmitLine(rawLine: string) returns (emitted: seq<LyricLine>)
    ensures emitted == LineEntries(rawLine)
  {
    emitted := [];
    var raw := Strip(rawLine);
    if raw == [] {
      return;
    }
    // metadata tags such as [ar: Someone]
    if raw[0] == '[' && ':' in raw && Search(raw, 0).None? {
      return;
    }
    var matches := FindTokens(raw, 0);
    if matches == [] {
      return;
    }
    FoundTokensInside(raw, matches);
    var text := TextAfterTokens(raw, matches);
    if text == [] {
      return;
    }
    emitted := EmitTokens(matches, text);
  }

  /** The inner loop of `parse_lrc`: one entry per token, its time computed from the digit groups. */
  method EmitTokens(matches: seq<Token>, text: string) returns (emitted: seq<LyricLine>)
    requires AllWellFormed(matches)
    ensures emitted == Stamp(matches, text)
  {
    emitted := [];
    for j := 0 to |matches|
      invariant emitted == Stamp(matches[..j], text)
    {
      StampStep(matches, j, text);
      var m := matches[j];
      var ms := FractionMs(m.fraction);
      var tMs := (DigitsValue(m.minutes) * 60 + DigitsValue(m.seconds)) * 1000 + ms;
      assert tMs == TokenMs(m);
      emitted := emitted + [LyricLine(tMs, text, None)];
    }
    assert matches[..|matches|] == matches;
  }

  /** The second loop of `parse_lrc`: keep an entry only if its (time, text) pair is not yet in `seen`. */
  method DropRepeats(lines: seq<LyricLine>) returns (deduped: seq<LyricLine>)
    ensures deduped == Dedupe(lines)
  {
    deduped := [];
    var seen: set<(int, string)> := {};
    for i := 0 to |lines|
      invariant deduped == Dedupe(lines[..i])
      invariant seen == Pairs(lines[..i])
    {
      assert lines[..i + 1][..i] == lines[..i];
      var key := (lines[i].tMs, lines[i].original);
      if key in seen {
        continue;
      }
      seen := seen + {key};
      deduped := deduped + [lines[i]];
    }
    assert lines[..|lines|] == lines;
  }

  // ---------------------------------------------------------------------------
  // Worked examples
  // ---------------------------------------------------------------------------

  lemma ZeroFiveDigits()
    ensures DigitsValue("00") == 0 && DigitsValue("05") == 5
  {
    assert "00"[..1] == "0" && "05"[..1] == "0";
  }

  /** `[00:05]`, without a fraction, is found as a token and denotes 5000 ms. */
  lemma WholeSecondsExample()
    ensures MatchAt("[00:05]", 0) == Some(Token(0, "00", "05", "", 7))
    ensures TokenMs(Token(0, "00", "05", "", 7)) == 5000
  {
    var t := Token(0, "00", "05", "", 7);
    assert Render(t) == "[00:05]";
    RenderRoundTrip(t);
    ZeroFiveDigits();
  }

  /** `[00:05.4]` is found as a token and denotes 5400 ms. */
  lemma TenthsExample()
    ensures MatchAt("[00:05.4]", 0) == Some(Token(0, "00", "05", "4", 9))
    ensures TokenMs(Token(0, "00", "05", "4", 9)) == 5400
  {
    var t := Token(0, "00", "05", "4", 9);
    assert Render(t) == "[00:05.4]";
    RenderRoundTrip(t);
    ZeroFiveDigits();
  }

  /** `[00:05.40]` is found as a token and denotes 5400 ms. */
  lemma HundredthsExample()
    ensures MatchAt("[00:05.40]", 0) == Some(Token(0, "00", "05", "40", 10))
    ensures TokenMs(Token(0, "00", "05", "40", 10)) == 5400
  {
    var t := Token(0, "00", "05", "40", 10);
    assert Render(t) == "[00:05.40]";
    RenderRoundTrip(t);
    HundredthsMs();
  }

  lemma HundredthsMs()
    ensures TokenMs(Token(0, "00", "05", "40", 10)) == 5400
  {
    ZeroFiveDigits();
    assert DigitsValue("40") == 40 by { assert "40"[..1] == "4"; }
  }

  /** `[00:05.400]` is found as a token and denotes 5400 ms. */
  lemma ThousandthsExample()
    ensures MatchAt("[00:05.400]", 0) == Some(Token(0, "00", "05", "400", 11))
    ensures TokenMs(Token(0, "00", "05", "400", 11)) == 5400
  {
    var t := Token(0, "00", "05", "400", 11);
    assert Render(t) == "[00:05.400]";
    RenderRoundTrip(t);
    ThousandthsMs();
  }

  lemma ThousandthsMs()
    ensures TokenMs(Token(0, "00", "05", "400", 11)) == 5400
  {
    ZeroFiveDigits();
    assert DigitsValue("400") == 400 by {
      assert "400"[..2] == "40" && "40"[..1] == "4";
    }
    assert FractionMs("400") == 400 by { assert "400"[..3] == "400"; }
  }

  /** With no '[' at or after `i` there is no token to find. */
  lemma {:induction false} NoBracketNoToken(s: string, i: nat)
    requires i <= |s|
    requires forall k :: i <= k < |s| ==> s[k] != '['
    ensures Search(s, i) == None
    decreases |s| - i
  {
    if i < |s| {
      NoBracketNoToken(s, i + 1);
    }
  }

  /** A metadata tag carries no timestamp token and contributes nothing. */
  lemma MetadataExample()
    ensures Search(MetadataLine, 0) == None
    ensures LineEntries(MetadataLine) == []
  {
    MetadataNoToken();
    StripTrimmed(MetadataLine);
    LineWithoutTokens(MetadataLine);
  }

  const MetadataLine: string := "[ar: Someone]"

  lemma MetadataNoToken()
    ensures Search(MetadataLine, 0) == None
  {
    assert DigitRun(MetadataLine, 1, 2) == 0;
    assert MatchAt(MetadataLine, 0) == None;
    NoBracketNoToken(MetadataLine, 1);
  }

  /** Text without line breaks is one line. */
  lemma SingleLine(s: string)
    requires s != [] && NoBreaks(s)
    ensures SplitLines(s) == [s]
  {
    assert LineEnd(s) == |s|;
    assert s[..|s|] == s;
  }

  const FanOutLine: string := "[00:01.00]" + ("[00:02.00]" + " Hello")
  const FanOutFirst: Token := Token(0, "00", "01", "00", 10)
  const FanOutSecond: Token := Token(10, "00", "02", "00", 20)

  lemma FanOutFirstMatch()
    ensures MatchAt(FanOutLine, 0) == Some(FanOutFirst)
  {
    FanOutFirstMatches();
    MatchAtComplete(FanOutLine, FanOutFirst);
  }

  lemma FanOutFirstMatches()
    ensures MatchesIn(FanOutLine, FanOutFirst)
  {
    assert Render(FanOutFirst) == "[00:01.00]";
    RenderMatches(FanOutFirst);
    MatchesInPrefix("[00:01.00]", "[00:02.00]" + " Hello", FanOutFirst);
  }

  lemma FanOutSecondMatch()
    ensures MatchAt(FanOutLine, 10) == Some(FanOutSecond)
  {
    FanOutSecondMatches();
    MatchAtComplete(FanOutLine, FanOutSecond);
  }

  lemma FanOutSecondMatches()
    ensures MatchesIn(FanOutLine, FanOutSecond)
  {
    var t := Token(0, "00", "02", "00", 10);
    assert Render(t) == "[00:02.00]";
    RenderMatches(t);
    MatchesInPrefix("[00:02.00]", " Hello", t);
    MatchesInShift("[00:01.00]", "[00:02.00]" + " Hello", t);
    assert Shifted(t, |"[00:01.00]"|) == FanOutSecond;
  }

  lemma FanOutNoMore()
    ensures FindTokens(FanOutLine, 20) == []
  {
    NoBracketNoToken(FanOutLine, 20);
  }

  lemma FanOutSecondOnward()
    ensures FindTokens(FanOutLine, 10) == [FanOutSecond]
  {
    FanOutSecondMatch();
    FanOutNoMore();
  }

  lemma FanOutTokens()
    ensures FindTokens(FanOutLine, 0) == [FanOutFirst, FanOutSecond]
  {
    FanOutFirstMatch();
    FanOutSecondOnward();
  }

  lemma FanOutTimes()
    ensures TokenMs(FanOutFirst) == 1000 && TokenMs(FanOutSecond) == 2000
  {
    assert "00"[..1] == "0" && "01"[..1] == "0" && "02"[..1] == "0";
  }

  lemma FanOutTail()
    ensures FanOutLine[20..] == " Hello"
  {
  }

  lemma HelloStripped()
    ensures Strip(" Hello") == "Hello"
  {
    StripLeadingSpace(" Hello");
    assert " Hello"[1..] == "Hello";
    StripTrimmed("Hello");
  }

  lemma FanOutText()
    ensures TextAfterTokens(FanOutLine, [FanOutFirst, FanOutSecond]) == "Hello"
  {
    FanOutTail();
    HelloStripped();
  }

  lemma StripLeadingSpace(s: string)
    requires s != [] && IsSpace(s[0])
    ensures Strip(s) == Strip(s[1..])
  {
    assert TrimStart(s) == TrimStart(s[1..]);
  }

  lemma FanOutStamp()
    ensures Stamp([FanOutFirst, FanOutSecond], "Hello")
         == [LyricLine(1000, "Hello", None), LyricLine(2000, "Hello", None)]
  {
    FanOutTimes();
    var r := Stamp([FanOutFirst, FanOutSecond], "Hello");
    PairOfEntries(r);
  }

  lemma FanOutEntries()
    ensures LineEntries(FanOutLine) == [LyricLine(1000, "Hello", None), LyricLine(2000, "Hello", None)]
  {
    StripTrimmed(FanOutLine);
    FanOutTokens();
    FanOutText();
    FanOutStamp();
  }

  lemma PairOfEntries(r: seq<LyricLine>)
    requires |r| == 2
    ensures r == [r[0], r[1]]
  {
  }

  lemma FanOutOneLine()
    ensures SplitLines(FanOutLine) == [FanOutLine]
  {
    SingleLine(FanOutLine);
  }

  lemma FanOutUnsorted()
    ensures Entries(SplitLines(FanOutLine)) == [LyricLine(1000, "Hello", None), LyricLine(2000, "Hello", None)]
  {
    FanOutOneLine();
    FanOutEntries();
    assert [FanOutLine][..0] == [];
  }

  /** Entries that come out of the lines already in order and without repeats are the result. */
  lemma ParsedInOrder(text: string, entries: seq<LyricLine>)
    requires Entries(SplitLines(text)) == entries
    requires SortedByTime(entries) && NoDuplicatePairs(entries)
    ensures Parsed(text) == entries
  {
    SortSortedUnchanged(entries);
    DedupeDistinctUnchanged(entries);
  }

  lemma FanOutInOrder()
    ensures SortedByTime([LyricLine(1000, "Hello", None), LyricLine(2000, "Hello", None)])
    ensures NoDuplicatePairs([LyricLine(1000, "Hello", None), LyricLine(2000, "Hello", None)])
  {
  }

  /** One line with two timestamps yields two entries with the same text. */
  lemma FanOutExample()
    ensures Parsed(FanOutLine) == [LyricLine(1000, "Hello", None), LyricLine(2000, "Hello", None)]
  {
    var e := [LyricLine(1000, "Hello", None), LyricLine(2000, "Hello", None)];
    FanOutUnsorted();
    FanOutInOrder();
    ParsedInOrder(FanOutLine, e);
  }
}
