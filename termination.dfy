/**
 * When the loop of `parse_segment` ends. Passes of the loop are iterated a
 * given number of times (`Iterate`); the loop ends exactly when no line it
 * keeps matches SEGMENT_HEADER_RE, since no pass jumps over such a line and
 * a pass on it changes nothing. A whole segment on which the source never
 * returns is exhibited.
 */
module Termination {
  import opened Wrappers
  import opened Text
  import opened Patterns
  import opened Segmenter
  import opened SegmentParser
  import opened SegmentProperties

  /** No pass jumps over a header line: at the latest, the cursor stops on it. */
  lemma StepStopsAtHeader(kinds: seq<LineKind>, st: ParserState, j: nat)
    requires st.i <= j < |kinds| && kinds[j].SegmentHeaderLine?
    ensures Step(kinds, st).i <= j
  {
  }

  /** The state after `n` passes of the loop, or earlier when the loop condition fails. */
  function Iterate(kinds: seq<LineKind>, st: ParserState, n: nat): (r: ParserState)
    requires st.i <= |kinds|
    ensures st.i <= r.i <= |kinds|
    decreases n
  {
    if n == 0 || st.i == |kinds| then st else Iterate(kinds, Step(kinds, st), n - 1)
  }

  /** With a header line at or after the cursor, the cursor never gets past it, however many passes run. */
  lemma {:induction false} NeverPastHeader(kinds: seq<LineKind>, st: ParserState, j: nat, n: nat)
    requires st.i <= j < |kinds| && kinds[j].SegmentHeaderLine?
    ensures Iterate(kinds, st, n).i <= j
    decreases n
  {
    if n > 0 {
      StepStopsAtHeader(kinds, st, j);
      NeverPastHeader(kinds, Step(kinds, st), j, n - 1);
    }
  }

  /** Without a header line ahead, enough passes end the loop in the state `Run` describes. */
  lemma {:induction false} IterateReachesRun(kinds: seq<LineKind>, st: ParserState, n: nat)
    requires st.i <= |kinds| && NoStrayHeader(kinds, st.i)
    requires n >= |kinds| - st.i
    ensures Iterate(kinds, st, n) == Run(kinds, st)
    decreases n
  {
    if st.i < |kinds| {
      IterateReachesRun(kinds, Step(kinds, st), n - 1);
    }
  }

  /**
   * The loop of lines 87-133 ends after some number of passes exactly when
   * `Terminates` holds: the condition under which the model computes a
   * record excludes only the segments on which the source never returns.
   */
  lemma LoopEndsIffTerminates(segment: string)
    ensures Terminates(segment)
      <==> exists n: nat :: Iterate(Kinds(SegmentLines(segment)), Start, n).i == |SegmentLines(segment)|
  {
    var kinds := Kinds(SegmentLines(segment));
    if Terminates(segment) {
      IterateReachesRun(kinds, Start, |kinds|);
    } else {
      var j :| 0 <= j < |kinds| && kinds[j].SegmentHeaderLine?;
      forall n: nat ensures Iterate(kinds, Start, n).i <= j {
        NeverPastHeader(kinds, Start, j, n);
      }
    }
  }

  // ---------------------------------------------------------------------
  // A segment on which the source never returns

  const HeaderWords := "17 POSITIONSDATEN"

  /** An article header followed by a line with two quotes in front of the header words. */
  const StraySegment := HeaderWords + "\n" + StrayLine

  /**
   * The text is one segment: SEGMENT_HEADER_RE matches at its start and
   * nowhere else. Yet `parse_segment` never returns on it: the first line is
   * dropped as the header, and the second normalizes to a header line.
   */
  lemma StraySegmentHangs()
    ensures Segments(StraySegment) == [StraySegment]
    ensures !Terminates(StraySegment)
    ensures forall n: nat :: Iterate(Kinds(SegmentLines(StraySegment)), Start, n).i == 0
  {
    OneSegment();
    StrayLinesOfSegment();
    HeaderWordsAreHeader();
    HangsOnHeaderLine(StraySegment, HeaderWords);
  }

  /** A segment whose only kept line is the header words: the loop stalls on it from the first pass. */
  lemma HangsOnHeaderLine(segment: string, h: string)
    requires SegmentLines(segment) == [h] && Classify(h) == SegmentHeaderLine
    ensures !Terminates(segment)
    ensures forall n: nat :: Iterate(Kinds(SegmentLines(segment)), Start, n).i == 0
  {
    var kinds := Kinds(SegmentLines(segment));
    assert kinds[0] == SegmentHeaderLine;
    forall n: nat ensures Iterate(kinds, Start, n).i == 0 {
      NeverPastHeader(kinds, Start, 0, n);
    }
  }

  /** SEGMENT_HEADER_RE matches at offset 0 only. */
  lemma OneSegment()
    ensures Segments(StraySegment) == [StraySegment]
  {
    var t := StraySegment;
    HeaderAtStart();
    assert HeaderStarts(t, 0) == [0] + HeaderStarts(t, 17);
    forall q | 17 <= q <= |t| ensures HeaderMatchEnd(t, q).None? {
      NoHeaderAt(q);
    }
    NoStartsIffNoMatch(t, 17);
    assert HeaderStarts(t, 0) == [0];
    assert t[0..|t|] == t;
  }

  lemma HeaderAtStart()
    ensures HeaderMatchEnd(StraySegment, 0) == Some(17)
  {
    var t := StraySegment;
    assert SkipSpaces(t, 0) == 0;
    assert MatchesIgnoringCase(t, 0, HeaderWords) by {
      forall k | 0 <= k < 17 ensures Upper(t[0 + k]) == HeaderWords[k] {
        assert t[k] == HeaderWords[k];
      }
    }
    assert t[17] == '\n';
  }

  /** Past the first line, the only line start is in front of the two quotes, where the pattern fails. */
  lemma NoHeaderAt(q: nat)
    requires 17 <= q <= |StraySegment|
    ensures HeaderMatchEnd(StraySegment, q).None?
  {
    var t := StraySegment;
    assert '\n' !in StrayLine;
    if q == 18 {
      assert t[18] == '"' && t[19] == '"';
      assert SkipSpaces(t, 18) == 18;
      assert SkipSpaces(t, 19) == 19;
      assert Upper(t[19 + 0]) != HeaderWords[0];
    } else if q > 18 {
      assert t[q - 1] == StrayLine[q - 19];
    } else {
      assert t[16] == 'N';
    }
  }

  /** The segment's lines, once normalized and without the first, are just the header words. */
  lemma StrayLinesOfSegment()
    ensures SegmentLines(StraySegment) == [HeaderWords]
  {
    SplitStraySegment();
    NormalizeBothLines();
    HeaderWordsStart();
    LinesOfHeaderAndStray(StraySegment, HeaderWords, StrayLine);
  }

  /** The first-line test accepts the header words. */
  lemma HeaderWordsStart()
    ensures StartsWithHeaderWords(HeaderWords)
  {
    assert MatchesIgnoringCase(HeaderWords, 0, HeaderWords);
  }

  /** Two lines that both normalize to a header line `h`: the first is dropped, `h` remains. */
  lemma LinesOfHeaderAndStray(t: string, h: string, x: string)
    requires '\r' !in t && SplitLines(t) == [h, x]
    requires NonEmptyNormalized([h, x]) == [h, h] && StartsWithHeaderWords(h)
    ensures SegmentLines(t) == [h]
  {
    NoCarriageReturn(t);
    assert NormalizedLines(t) == [h, h];
  }

  /** Both lines normalize to the header words. */
  lemma NormalizeBothLines()
    ensures NonEmptyNormalized([HeaderWords, StrayLine]) == [HeaderWords, HeaderWords]
  {
    assert NormalizeLine(HeaderWords) == HeaderWords by {
      NormalizeNormal(HeaderWords);
    }
    StrayLineNormalized();
    assert [HeaderWords, StrayLine][1..] == [StrayLine];
    assert [StrayLine][1..] == [];
  }

  /** Without carriage returns, `replace('\r', '\n')` changes nothing. */
  lemma NoCarriageReturn(s: string)
    requires '\r' !in s
    ensures ReplaceCarriageReturns(s) == s
  {
  }

  /** `splitlines` cuts the segment at its one line feed. */
  lemma SplitStraySegment()
    ensures '\r' !in StraySegment
    ensures SplitLines(StraySegment) == [HeaderWords, StrayLine]
  {
    PlainLine(HeaderWords);
    PlainLine(StrayLine);
    SplitAtOneBreak(HeaderWords, StrayLine);
  }

  /** A text of two lines with no break inside them splits into those two lines. */
  lemma SplitAtOneBreak(a: string, b: string)
    requires NoLineBreak(a) && NoLineBreak(b) && b != []
    ensures '\r' !in a + "\n" + b
    ensures SplitLines(a + "\n" + b) == [a, b]
  {
    var t := a + "\n" + b;
    assert forall k :: 0 <= k < |t| ==> t[k] == '\n' || (k < |a| && t[k] == a[k]) || (k > |a| && t[k] == b[k - |a| - 1]);
    FirstBreakSpec(t);
    assert t[|a|] == '\n';
    assert FirstBreak(t) == |a|;
    assert t[..|a|] == a && t[|a| + 1..] == b;
    FirstBreakSpec(b);
    assert FirstBreak(b) == |b|;
  }

  /** None of the characters of the header words or of the stray line is a line break. */
  lemma PlainLine(s: string)
    requires s == HeaderWords || s == StrayLine
    ensures NoLineBreak(s)
  {
    assert forall c :: c in s ==> !IsLineBreak(c);
    forall k | 0 <= k < |s| ensures !IsLineBreak(s[k]) {
      assert s[k] in s;
    }
  }
}
