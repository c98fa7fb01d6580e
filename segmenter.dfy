/**
 * `split_into_segments`: the raw text is cut at the start of every match of
 * SEGMENT_HEADER_RE, one segment per article (`17 POSITIONSDATEN`). Text
 * before the first header belongs to no segment.
 */
module Segmenter {
  import opened Wrappers
  import opened Text
  import opened Patterns

  /**
   * `[m.start() for m in SEGMENT_HEADER_RE.finditer(text)]`, searching from
   * `p`: after a match the search resumes where that match ended, so a
   * header position inside an earlier match is not reported.
   */
  function HeaderStarts(text: string, p: nat): (starts: seq<nat>)
    requires p <= |text|
    ensures forall n :: 0 <= n < |starts| ==> p <= starts[n] < |text|
    ensures forall n, m :: 0 <= n < m < |starts| ==> starts[n] < starts[m]
    decreases |text| - p
  {
    match HeaderMatchEnd(text, p)
    case Some(e) => [p] + HeaderStarts(text, e)
    case None => if p == |text| then [] else HeaderStarts(text, p + 1)
  }

  /** Match offsets as `finditer` yields them: strictly increasing, each inside the text. */
  predicate Increasing(starts: seq<nat>, len: nat)
  {
    && (forall n :: 0 <= n < |starts| ==> starts[n] < len)
    && (forall n, m :: 0 <= n < m < |starts| ==> starts[n] < starts[m])
  }

  /** Every offset found is where a match starts, and each match ends at or before the next offset. */
  lemma {:induction false} StartsAreMatches(text: string, p: nat)
    requires p <= |text|
    ensures forall n :: 0 <= n < |HeaderStarts(text, p)| ==> HeaderMatchEnd(text, HeaderStarts(text, p)[n]).Some?
    ensures forall n :: 0 <= n < |HeaderStarts(text, p)| - 1 ==>
      HeaderMatchEnd(text, HeaderStarts(text, p)[n]).value <= HeaderStarts(text, p)[n + 1]
    decreases |text| - p
  {
    var starts := HeaderStarts(text, p);
    match HeaderMatchEnd(text, p)
    case Some(e) =>
      var rest := HeaderStarts(text, e);
      assert starts == [p] + rest;
      StartsAreMatches(text, e);
      forall n | 0 <= n < |starts|
        ensures HeaderMatchEnd(text, starts[n]).Some?
        ensures n < |starts| - 1 ==> HeaderMatchEnd(text, starts[n]).value <= starts[n + 1]
      {
        if n > 0 {
          assert starts[n] == rest[n - 1];
        }
        if n < |starts| - 1 {
          assert starts[n + 1] == rest[n];
        }
      }
    case None =>
      if p < |text| {
        assert starts == HeaderStarts(text, p + 1);
        StartsAreMatches(text, p + 1);
      }
  }

  /** No offset is found from `p` exactly when no match starts at or after `p`. */
  lemma {:induction false} NoStartsIffNoMatch(text: string, p: nat)
    requires p <= |text|
    ensures HeaderStarts(text, p) == [] <==> forall q :: p <= q <= |text| ==> HeaderMatchEnd(text, q).None?
    decreases |text| - p
  {
    match HeaderMatchEnd(text, p)
    case Some(e) =>
    case None =>
      if p < |text| {
        NoStartsIffNoMatch(text, p + 1);
        if HeaderStarts(text, p) != [] {
          var q :| p + 1 <= q <= |text| && HeaderMatchEnd(text, q).Some?;
        }
      }
  }

  /** Where segment `n` ends: at the next match, or at the end of the text. */
  function SegmentEnd(text: string, starts: seq<nat>, n: nat): nat
    requires n < |starts|
  {
    if n + 1 < |starts| then starts[n + 1] else |text|
  }

  /** The text cut at the given offsets, the piece before the first one dropped. */
  function Slices(text: string, starts: seq<nat>): seq<string>
    requires Increasing(starts, |text|)
  {
    seq(|starts|, n requires 0 <= n < |starts| => text[starts[n]..SegmentEnd(text, starts, n)])
  }

  /** The segments the source returns, as a value (see `SplitIntoSegments` for the loop). */
  function Segments(text: string): (segs: seq<string>)
    ensures |segs| == |HeaderStarts(text, 0)|
    ensures forall n :: 0 <= n < |segs| ==> segs[n] != ""
  {
    Slices(text, HeaderStarts(text, 0))
  }

  /** Lines 57-66: no match gives no segment; otherwise one slice per match, in order. */
  method SplitIntoSegments(text: string) returns (segments: seq<string>)
    ensures segments == Segments(text)
  {
    var starts := HeaderStarts(text, 0);
    if |starts| == 0 {
      return [];
    }
    segments := [];
    var idx := 0;
    while idx < |starts|
      invariant idx <= |starts|
      invariant segments == Segments(text)[..idx]
    {
      var start := starts[idx];
      var end := if idx + 1 < |starts| then starts[idx + 1] else |text|;
      segments := segments + [text[start..end]];
      idx := idx + 1;
    }
  }

  // ---------------------------------------------------------------------
  // Properties of the segments

  /**
   * One slice per offset, in order: slice `n` runs from offset `n` up to
   * offset `n + 1`, the last one to the end of the text.
   */
  lemma SlicesBetweenOffsets(text: string, starts: seq<nat>)
    requires Increasing(starts, |text|)
    ensures var segs := Slices(text, starts);
      && |segs| == |starts|
      && (forall n :: 0 <= n < |segs| - 1 ==> segs[n] == text[starts[n]..starts[n + 1]])
      && (segs != [] ==> segs[|segs| - 1] == text[starts[|segs| - 1]..])
  {
  }

  /** Slices `n..` laid end to end give the text from offset `n` onwards. */
  lemma {:induction false} SlicesTileFrom(text: string, starts: seq<nat>, n: nat)
    requires Increasing(starts, |text|)
    requires n < |starts|
    ensures Concat(Slices(text, starts)[n..]) == text[starts[n]..]
    decreases |starts| - n
  {
    var segs := Slices(text, starts);
    if n + 1 < |starts| {
      SlicesTileFrom(text, starts, n + 1);
      assert segs[n..] == [segs[n]] + segs[n + 1..];
      assert text[starts[n]..] == text[starts[n]..starts[n + 1]] + text[starts[n + 1]..];
    } else {
      assert segs[n..] == [segs[n]];
      assert Concat([segs[n]]) == segs[n] + Concat([]);
    }
  }

  /** One segment per header match, in order, each running up to the next match or to the end. */
  lemma SegmentsAreSlices(text: string)
    ensures var starts := HeaderStarts(text, 0); var segs := Segments(text);
      && |segs| == |starts|
      && (forall n :: 0 <= n < |segs| - 1 ==> segs[n] == text[starts[n]..starts[n + 1]])
      && (segs != [] ==> segs[|segs| - 1] == text[starts[|segs| - 1]..])
  {
    SlicesBetweenOffsets(text, HeaderStarts(text, 0));
  }

  /** No segment at all exactly when the header occurs nowhere in the text. */
  lemma NoSegmentsIffNoHeader(text: string)
    ensures Segments(text) == [] <==> forall q :: 0 <= q <= |text| ==> HeaderMatchEnd(text, q).None?
  {
    NoStartsIffNoMatch(text, 0);
  }

  /** The segments are contiguous: together they are the text from the first header on. */
  lemma SegmentsTile(text: string)
    requires Segments(text) != []
    ensures Concat(Segments(text)) == text[HeaderStarts(text, 0)[0]..]
  {
    SlicesTileFrom(text, HeaderStarts(text, 0), 0);
    assert Segments(text)[0..] == Segments(text);
  }

  /** Skipping whitespace inside a slice stops where it stops in the whole text. */
  lemma {:induction false} SkipSpacesInSlice(s: string, a: nat, b: nat, i: nat)
    requires a <= i <= b <= |s|
    requires SkipSpaces(s, i) < b
    ensures SkipSpaces(s[a..b], i - a) == SkipSpaces(s, i) - a
    decreases b - i
  {
    if i < b && IsSpace(s[i]) {
      SkipSpacesInSlice(s, a, b, i + 1);
    }
  }

  /**
   * A header match that lies within `text[a..b]` and starts at `a` is also a
   * match of `re.match` on the slice: the pattern sees the same characters,
   * and where the slice ends `\b` holds.
   */
  lemma HeaderMatchInSlice(text: string, a: nat, b: nat)
    requires a <= b <= |text|
    requires HeaderMatchEnd(text, a).Some? && HeaderMatchEnd(text, a).value <= b
    ensures IsSegmentHeader(text[a..b])
  {
    var s := text[a..b];
    var x := SkipSpaces(text, a);
    var y := if x < |text| && text[x] == '"' then x + 1 else x;
    var c := SkipSpaces(text, y);
    assert c + 17 <= b;
    SkipSpacesInSlice(text, a, b, a);
    assert s[x - a] == text[x];
    var y' := if x - a < |s| && s[x - a] == '"' then x - a + 1 else x - a;
    assert y' == y - a;
    SkipSpacesInSlice(text, a, b, y);
    LiteralInSlice(text, a, b, c);
    assert HeaderMatchEnd(s, 0).Some?;
  }

  /** The header words and the boundary after them, seen from the slice. */
  lemma LiteralInSlice(text: string, a: nat, b: nat, c: nat)
    requires a <= c && c + 17 <= b <= |text|
    requires MatchesIgnoringCase(text, c, "17 POSITIONSDATEN") && IsBoundary(text, c + 17)
    ensures MatchesIgnoringCase(text[a..b], c - a, "17 POSITIONSDATEN") && IsBoundary(text[a..b], c - a + 17)
  {
    var s := text[a..b];
    forall k | 0 <= k < 17 ensures Upper(s[c - a + k]) == "17 POSITIONSDATEN"[k] {
      assert s[c - a + k] == text[c + k];
    }
    if c - a + 17 < |s| {
      assert s[c - a + 17] == text[c + 17];
    }
  }

  /** Every segment starts with a header line: SEGMENT_HEADER_RE matches at its start. */
  lemma SegmentStartsWithHeader(text: string, n: nat)
    requires n < |Segments(text)|
    ensures IsSegmentHeader(Segments(text)[n])
  {
    var starts := HeaderStarts(text, 0);
    StartsAreMatches(text, 0);
    assert |Segments(text)| == |starts|;
    HeaderMatchInSlice(text, starts[n], SegmentEnd(text, starts, n));
  }
}
