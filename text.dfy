/**
 * Character classes and the string operations of Python's `str` that the
 * parser uses: `strip`, `strip('"')`, `str.replace` of one character and
 * `splitlines`.
 */
module Text {

  /** `c.isspace()`, which is also what the pattern class `\s` matches. */
  predicate IsSpace(c: char)
  {
    || '\t' <= c <= '\r'
    || '\U{1C}' <= c <= ' '
    || c == '\U{85}' || c == '\U{A0}' || c == '\U{1680}'
    || '\U{2000}' <= c <= '\U{200A}'
    || c == '\U{2028}' || c == '\U{2029}' || c == '\U{202F}' || c == '\U{205F}' || c == '\U{3000}'
  }

  /** The pattern class `\d`, restricted to ASCII. */
  predicate IsDigit(c: char)
  {
    '0' <= c <= '9'
  }

  /** The pattern class `[A-Za-z]`. */
  predicate IsLetter(c: char)
  {
    'A' <= c <= 'Z' || 'a' <= c <= 'z'
  }

  /** A character that `\b` counts as part of a word: letters and digits of Latin-1, and `_`. */
  predicate IsWordChar(c: char)
  {
    || IsLetter(c) || IsDigit(c) || c == '_'
    || c == '\U{AA}' || c == '\U{B2}' || c == '\U{B3}' || c == '\U{B5}' || c == '\U{B9}' || c == '\U{BA}'
    || '\U{BC}' <= c <= '\U{BE}'
    || ('\U{C0}' <= c <= '\U{FF}' && c != '\U{D7}' && c != '\U{F7}')
  }

  /** The separators at which `str.splitlines` breaks a string. */
  predicate IsLineBreak(c: char)
  {
    || '\n' <= c <= '\r'
    || '\U{1C}' <= c <= '\U{1E}'
    || c == '\U{85}' || c == '\U{2028}' || c == '\U{2029}'
  }

  predicate IsQuote(c: char)
  {
    c == '"'
  }

  /** ASCII upper-casing of one character, as `str.upper` does for ASCII. */
  function Upper(c: char): (u: char)
    ensures 'a' <= c <= 'z' ==> u as int == c as int - 32
    ensures !('a' <= c <= 'z') ==> u == c
  {
    if 'a' <= c <= 'z' then (c as int - 32) as char else c
  }

  /** What `strip` removes: whitespace (no argument) or quotes (`strip('"')`). */
  datatype Padding = Spaces | Quotes

  predicate IsPadding(pad: Padding, c: char)
  {
    match pad
    case Spaces => IsSpace(c)
    case Quotes => IsQuote(c)
  }

  /** Drops the longest prefix of padding characters (see `TrimStartSpec`). */
  function TrimStart(s: string, pad: Padding): string
  {
    if s != [] && IsPadding(pad, s[0]) then TrimStart(s[1..], pad) else s
  }

  /** Drops the longest suffix of padding characters (see `TrimEndSpec`). */
  function TrimEnd(s: string, pad: Padding): string
  {
    if s != [] && IsPadding(pad, s[|s| - 1]) then TrimEnd(s[..|s| - 1], pad) else s
  }

  /** `TrimStart` removes a prefix, all padding, and stops at the first character that is not. */
  lemma {:induction false} TrimStartSpec(s: string, pad: Padding)
    ensures var r := TrimStart(s, pad);
      && |r| <= |s| && r == s[|s| - |r|..]
      && (forall k :: 0 <= k < |s| - |r| ==> IsPadding(pad, s[k]))
      && (r == [] || !IsPadding(pad, r[0]))
    decreases |s|
  {
    if s != [] && IsPadding(pad, s[0]) {
      TrimStartSpec(s[1..], pad);
    }
  }

  /** `TrimEnd` removes a suffix, all padding, and stops at the last character that is not. */
  lemma {:induction false} TrimEndSpec(s: string, pad: Padding)
    ensures var r := TrimEnd(s, pad);
      && |r| <= |s| && r == s[..|r|]
      && (forall k :: |r| <= k < |s| ==> IsPadding(pad, s[k]))
      && (r == [] || !IsPadding(pad, r[|r| - 1]))
    decreases |s|
  {
    if s != [] && IsPadding(pad, s[|s| - 1]) {
      TrimEndSpec(s[..|s| - 1], pad);
    }
  }

  /** `s.lstrip()` */
  function LStrip(s: string): string
  {
    TrimStart(s, Spaces)
  }

  /** `s.strip()` */
  function Strip(s: string): string
  {
    TrimEnd(TrimStart(s, Spaces), Spaces)
  }

  /** `s.strip('"')` */
  function StripQuotes(s: string): string
  {
    TrimEnd(TrimStart(s, Quotes), Quotes)
  }

  /**
   * `normalize_line`: strip whitespace, then every enclosing quote, then
   * whitespace again. The result neither starts nor ends with whitespace.
   */
  function NormalizeLine(s: string): (r: string)
    ensures r == [] || (!IsSpace(r[0]) && !IsSpace(r[|r| - 1]))
  {
    var t := StripQuotes(Strip(s));
    var u := TrimStart(t, Spaces);
    TrimStartSpec(t, Spaces);
    TrimEndSpec(u, Spaces);
    var r := TrimEnd(u, Spaces);
    assert r != [] ==> r[0] == u[0];
    r
  }

  /** No leading or trailing whitespace or quote: what `NormalizeLine` leaves alone. */
  predicate IsNormal(s: string)
  {
    s == [] || (!IsSpace(s[0]) && !IsQuote(s[0]) && !IsSpace(s[|s| - 1]) && !IsQuote(s[|s| - 1]))
  }

  predicate IsSpaceOrQuote(c: char)
  {
    IsSpace(c) || IsQuote(c)
  }

  /** Everything of `s` outside `s[a..b]` is whitespace or a quote. */
  ghost predicate OnlyPaddingOutside(s: string, a: nat, b: nat)
    requires a <= b <= |s|
  {
    forall k :: 0 <= k < |s| && (k < a || b <= k) ==> IsSpaceOrQuote(s[k])
  }

  /** Stripping one kind of padding off a slice leaves a smaller slice with padding outside it. */
  lemma {:induction false} StripSlice(s: string, a: nat, b: nat, pad: Padding) returns (a': nat, b': nat)
    requires a <= b <= |s| && OnlyPaddingOutside(s, a, b)
    requires forall c :: IsPadding(pad, c) ==> IsSpaceOrQuote(c)
    ensures a <= a' <= b' <= b
    ensures TrimEnd(TrimStart(s[a..b], pad), pad) == s[a'..b']
    ensures OnlyPaddingOutside(s, a', b')
  {
    var t := TrimStart(s[a..b], pad);
    TrimStartSpec(s[a..b], pad);
    a' := b - |t|;
    assert t == s[a'..b];
    forall k | a <= k < a' ensures IsSpaceOrQuote(s[k]) {
      assert s[k] == s[a..b][k - a];
    }
    var u := TrimEnd(t, pad);
    TrimEndSpec(t, pad);
    b' := a' + |u|;
    forall k | b' <= k < b ensures IsSpaceOrQuote(s[k]) {
      assert s[k] == t[k - a'];
    }
  }

  /**
   * `NormalizeLine(s)` is one contiguous piece of `s`; what it cuts off at
   * either end is whitespace and quotes only.
   */
  lemma NormalizeLineIsSlice(s: string)
    ensures exists a: nat, b: nat :: a <= b <= |s| && NormalizeLine(s) == s[a..b] && OnlyPaddingOutside(s, a, b)
  {
    assert s[0..|s|] == s;
    var a1, b1 := StripSlice(s, 0, |s|, Spaces);
    var a2, b2 := StripSlice(s, a1, b1, Quotes);
    var a3, b3 := StripSlice(s, a2, b2, Spaces);
    assert NormalizeLine(s) == s[a3..b3];
  }

  /** Trimming a run of dropped characters off the front of `q`. */
  lemma TrimStartPast(p: string, q: string, pad: Padding)
    requires forall k :: 0 <= k < |p| ==> IsPadding(pad, p[k])
    requires q == [] || !IsPadding(pad, q[0])
    ensures TrimStart(p + q, pad) == q
  {
    var r := TrimStart(p + q, pad);
    TrimStartSpec(p + q, pad);
    if r != [] { assert r[0] == (p + q)[|p| + |q| - |r|]; }
    if q != [] { assert (p + q)[|p|] == q[0]; }
  }

  /** Trimming a run of dropped characters off the end of `p`. */
  lemma TrimEndPast(p: string, q: string, pad: Padding)
    requires forall k :: 0 <= k < |q| ==> IsPadding(pad, q[k])
    requires p == [] || !IsPadding(pad, p[|p| - 1])
    ensures TrimEnd(p + q, pad) == p
  {
    var r := TrimEnd(p + q, pad);
    TrimEndSpec(p + q, pad);
    if r != [] { assert r[|r| - 1] == (p + q)[|r| - 1]; }
    if p != [] { assert (p + q)[|p| - 1] == p[|p| - 1]; }
  }

  /** A line with nothing to strip is left as it is. */
  lemma NormalizeNormal(s: string)
    requires IsNormal(s)
    ensures NormalizeLine(s) == s
  {
    TrimStartPast([], s, Spaces);
    TrimEndPast(s, [], Spaces);
    TrimStartPast([], s, Quotes);
    TrimEndPast(s, [], Quotes);
    assert [] + s == s + [] == s;
  }

  /**
   * `NormalizeLine` is not idempotent: one pass strips the outer quotes of
   * `" "x` and the space they enclosed, and exposes a quote that a second
   * pass strips.
   */
  lemma NormalizeNotIdempotent()
    ensures NormalizeLine("\" \"x") == "\"x"
    ensures NormalizeLine("\"x") == "x"
  {
    assert Strip("\" \"x") == "\" \"x" by {
      NormalizeNormalEnds("\" \"x", Spaces);
    }
    assert StripQuotes("\" \"x") == " \"x" by {
      TrimStartPast("\"", " \"x", Quotes);
      assert "\"" + " \"x" == "\" \"x";
      NoTrimEnd(" \"x", Quotes);
    }
    assert Strip(" \"x") == "\"x" by {
      TrimStartPast(" ", "\"x", Spaces);
      assert " " + "\"x" == " \"x";
      NoTrimEnd("\"x", Spaces);
    }
    assert Strip("\"x") == "\"x" by {
      NormalizeNormalEnds("\"x", Spaces);
    }
    assert StripQuotes("\"x") == "x" by {
      TrimStartPast("\"", "x", Quotes);
      assert "\"" + "x" == "\"x";
      NoTrimEnd("x", Quotes);
    }
    assert Strip("x") == "x" by {
      NormalizeNormalEnds("x", Spaces);
    }
  }

  /** Nothing to trim at either end. */
  lemma NormalizeNormalEnds(s: string, pad: Padding)
    requires s != [] && !IsPadding(pad, s[0]) && !IsPadding(pad, s[|s| - 1])
    ensures TrimEnd(TrimStart(s, pad), pad) == s
  {
  }

  lemma NoTrimEnd(s: string, pad: Padding)
    requires s != [] && !IsPadding(pad, s[|s| - 1])
    ensures TrimEnd(s, pad) == s
  {
  }

  /** A quoted, space-padded cell normalizes to the bare label. */
  lemma NormalizeQuotedLabel()
    ensures NormalizeLine("\"  Mengeneinheit  \"") == "Mengeneinheit"
  {
    QuotedLabelOuterStrip();
    QuotedLabelQuotes();
    QuotedLabelInnerStrip();
  }

  lemma QuotedLabelOuterStrip()
    ensures Strip("\"  Mengeneinheit  \"") == "\"  Mengeneinheit  \""
  {
  }

  lemma QuotedLabelQuotes()
    ensures StripQuotes("\"  Mengeneinheit  \"") == "  Mengeneinheit  "
  {
    assert TrimStart("\"  Mengeneinheit  \"", Quotes) == "  Mengeneinheit  \"";
    assert "  Mengeneinheit  " + "\"" == "  Mengeneinheit  \"";
    TrimEndPast("  Mengeneinheit  ", "\"", Quotes);
  }

  lemma QuotedLabelInnerStrip()
    ensures Strip("  Mengeneinheit  ") == "Mengeneinheit"
  {
    assert TrimStart("  Mengeneinheit  ", Spaces) == "Mengeneinheit  ";
    assert "Mengeneinheit" + "  " == "Mengeneinheit  ";
    TrimEndPast("Mengeneinheit", "  ", Spaces);
  }

  /** `s.replace('\r', '\n')` */
  function ReplaceCarriageReturns(s: string): (r: string)
    ensures |r| == |s| && '\r' !in r
    ensures forall k :: 0 <= k < |s| ==> r[k] == if s[k] == '\r' then '\n' else s[k]
  {
    seq(|s|, k requires 0 <= k < |s| => if s[k] == '\r' then '\n' else s[k])
  }

  /** Index of the first line break in `s`, or `|s|`. */
  function FirstBreak(s: string): (n: nat)
    ensures n <= |s|
    decreases |s|
  {
    if s == [] || IsLineBreak(s[0]) then 0 else 1 + FirstBreak(s[1..])
  }

  lemma {:induction false} FirstBreakSpec(s: string)
    ensures var n := FirstBreak(s);
      && (forall k :: 0 <= k < n ==> !IsLineBreak(s[k]))
      && (n < |s| ==> IsLineBreak(s[n]))
    decreases |s|
  {
    if s != [] && !IsLineBreak(s[0]) {
      FirstBreakSpec(s[1..]);
    }
  }

  predicate NoLineBreak(s: string)
  {
    forall k :: 0 <= k < |s| ==> !IsLineBreak(s[k])
  }

  /**
   * `s.splitlines()` of a string without carriage returns (the caller has
   * replaced them), so that every separator is a single character: a final
   * separator does not open a further, empty line.
   */
  function SplitLines(s: string): (lines: seq<string>)
    requires '\r' !in s
    ensures lines == [] <==> s == []
    decreases |s|
  {
    if s == [] then []
    else
      var n := FirstBreak(s);
      if n == |s| then [s] else [s[..n]] + SplitLines(s[n + 1..])
  }

  /** The characters of `s` that are not line breaks, in order. */
  function WithoutBreaks(s: string): string
  {
    if s == [] then [] else (if IsLineBreak(s[0]) then [] else [s[0]]) + WithoutBreaks(s[1..])
  }

  function Concat(ss: seq<string>): string
  {
    if ss == [] then [] else ss[0] + Concat(ss[1..])
  }

  /** No line of `s.splitlines()` holds a separator. */
  lemma {:induction false} SplitLinesHaveNoBreak(s: string)
    requires '\r' !in s
    ensures forall n :: 0 <= n < |SplitLines(s)| ==> NoLineBreak(SplitLines(s)[n])
    decreases |s|
  {
    if s != [] {
      var n := FirstBreak(s);
      FirstBreakSpec(s);
      if n < |s| {
        SplitLinesHaveNoBreak(s[n + 1..]);
      }
    }
  }

  lemma {:induction false} WithoutBreaksAppend(a: string, b: string)
    ensures WithoutBreaks(a + b) == WithoutBreaks(a) + WithoutBreaks(b)
    decreases |a|
  {
    if a != [] {
      assert (a + b)[0] == a[0] && (a + b)[1..] == a[1..] + b;
      WithoutBreaksAppend(a[1..], b);
      var x := if IsLineBreak(a[0]) then [] else [a[0]];
      assert x + (WithoutBreaks(a[1..]) + WithoutBreaks(b)) == (x + WithoutBreaks(a[1..])) + WithoutBreaks(b);
    } else {
      assert a + b == b;
    }
  }

  lemma {:induction false} WithoutBreaksOfPlain(s: string)
    requires NoLineBreak(s)
    ensures WithoutBreaks(s) == s
    decreases |s|
  {
    if s != [] {
      WithoutBreaksOfPlain(s[1..]);
    }
  }

  lemma {:induction false} WithoutBreaksAtSeparator(s: string, n: nat)
    requires n < |s| && IsLineBreak(s[n]) && NoLineBreak(s[..n])
    ensures WithoutBreaks(s) == s[..n] + WithoutBreaks(s[n + 1..])
  {
    assert s == s[..n] + ([s[n]] + s[n + 1..]);
    WithoutBreaksAppend(s[..n], [s[n]] + s[n + 1..]);
    WithoutBreaksOfPlain(s[..n]);
    assert ([s[n]] + s[n + 1..])[1..] == s[n + 1..];
  }

  /** Splitting loses exactly the line breaks: the lines, put together, are the text without them. */
  lemma {:induction false} SplitLinesKeepsText(s: string)
    requires '\r' !in s
    ensures Concat(SplitLines(s)) == WithoutBreaks(s)
    decreases |s|
  {
    if s != [] {
      var n := FirstBreak(s);
      FirstBreakSpec(s);
      if n == |s| {
        assert s[..n] == s;
        WithoutBreaksOfPlain(s);
      } else {
        WithoutBreaksAtSeparator(s, n);
        SplitLinesKeepsText(s[n + 1..]);
      }
    }
  }

  /** `"\n".join(lines)` */
  function JoinLines(lines: seq<string>): string
  {
    if lines == [] then [] else if |lines| == 1 then lines[0] else lines[0] + "\n" + JoinLines(lines[1..])
  }

  /** `s` with every line break replaced by `\n`. */
  function BreaksAsNewlines(s: string): string
  {
    if s == [] then [] else [if IsLineBreak(s[0]) then '\n' else s[0]] + BreaksAsNewlines(s[1..])
  }

  predicate EndsWithBreak(s: string)
  {
    s != [] && IsLineBreak(s[|s| - 1])
  }

  lemma {:induction false} BreaksAsNewlinesOfPlain(s: string)
    requires NoLineBreak(s)
    ensures BreaksAsNewlines(s) == s
    decreases |s|
  {
    if s != [] {
      BreaksAsNewlinesOfPlain(s[1..]);
    }
  }

  /** Up to the first break the text is kept; the break becomes `\n`. */
  lemma {:induction false} BreaksAsNewlinesAtBreak(s: string, n: nat)
    requires n < |s| && IsLineBreak(s[n]) && NoLineBreak(s[..n])
    ensures BreaksAsNewlines(s) == s[..n] + "\n" + BreaksAsNewlines(s[n + 1..])
    decreases n
  {
    if n > 0 {
      var u := s[1..];
      assert u[..n - 1] == s[1..n];
      assert !IsLineBreak(s[..n][0]);
      var head, rest := s[..n], u[..n - 1];
      forall k | 0 <= k < |rest| ensures !IsLineBreak(rest[k]) {
        assert rest[k] == head[k + 1];
      }
      BreaksAsNewlinesAtBreak(u, n - 1);
      assert u[n..] == s[n + 1..];
      assert s[..n] == [s[0]] + u[..n - 1];
    }
  }

  lemma JoinLinesCons(x: string, rest: seq<string>)
    requires rest != []
    ensures JoinLines([x] + rest) == x + "\n" + JoinLines(rest)
  {
    assert ([x] + rest)[1..] == rest;
  }

  /**
   * Splitting cuts exactly at the line breaks: the lines joined with `\n`,
   * and one more `\n` when the text ends with a break, give back the text
   * with every break written as `\n`.
   */
  lemma {:induction false} SplitLinesRoundTrip(s: string)
    requires '\r' !in s
    ensures JoinLines(SplitLines(s)) + (if EndsWithBreak(s) then "\n" else "") == BreaksAsNewlines(s)
    decreases |s|
  {
    if s != [] {
      var n := FirstBreak(s);
      FirstBreakSpec(s);
      if n == |s| {
        BreaksAsNewlinesOfPlain(s);
      } else {
        SplitLinesRoundTrip(s[n + 1..]);
        RoundTripAtBreak(s, n);
      }
    }
  }

  /** The round trip for a text whose first break is at `n`, given the round trip for the text after it. */
  lemma RoundTripAtBreak(s: string, n: nat)
    requires '\r' !in s && n == FirstBreak(s) < |s|
    requires IsLineBreak(s[n]) && NoLineBreak(s[..n])
    requires var t := s[n + 1..];
      JoinLines(SplitLines(t)) + (if EndsWithBreak(t) then "\n" else "") == BreaksAsNewlines(t)
    ensures JoinLines(SplitLines(s)) + (if EndsWithBreak(s) then "\n" else "") == BreaksAsNewlines(s)
  {
    var t := s[n + 1..];
    BreaksAsNewlinesAtBreak(s, n);
    assert SplitLines(s) == [s[..n]] + SplitLines(t);
    if t == [] {
      assert EndsWithBreak(s);
    } else {
      assert s[|s| - 1] == t[|t| - 1];
      JoinLinesCons(s[..n], SplitLines(t));
    }
  }
}
