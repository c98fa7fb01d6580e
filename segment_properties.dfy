/**
 * What `parse_segment` guarantees, proved about `Run`, the loop of the
 * source one pass at a time, over the classified lines of a segment:
 *   - the loop makes progress except on a line matching SEGMENT_HEADER_RE;
 *   - every value line ends up either with a key or in the unmapped list, in order;
 *   - every key ends up in the dictionary its code routes it to, and nothing else does;
 *   - within a run of keys, key `idx` takes value `idx`, or "" past the last;
 *   - a packages header is never stored as a value.
 */
module SegmentProperties {
  import opened Wrappers
  import opened Text
  import opened Patterns
  import opened OrderedDict
  import opened SegmentParser

  // ---------------------------------------------------------------------
  // Termination

  /**
   * The loop stalls on a line matching SEGMENT_HEADER_RE: no branch of the
   * loop consumes it, so a pass changes nothing and the next pass is the same.
   */
  lemma StallOnHeader(kinds: seq<LineKind>, st: ParserState)
    requires st.i < |kinds| && kinds[st.i].SegmentHeaderLine?
    ensures Step(kinds, st) == st && Step(kinds, Step(kinds, st)) == st
  {
  }

  /** A line that is a header only once normalized. */
  const StrayLine := "\"\"17 POSITIONSDATEN"

  /**
   * Such a line exists: with two quotes in front, SEGMENT_HEADER_RE (which
   * allows one) does not match the raw line, so the text is not cut there,
   * and the line does not start with `17 POSITIONSDATEN`, so it is not
   * dropped as the first line either; but `normalize_line` strips both
   * quotes and leaves a line the loop stalls on.
   */
  lemma StrayHeaderExample()
    ensures !IsSegmentHeader(StrayLine) && !StartsWithHeaderWords(StrayLine)
    ensures NormalizeLine(StrayLine) == "17 POSITIONSDATEN"
    ensures Classify(NormalizeLine(StrayLine)) == SegmentHeaderLine
  {
    StrayLineRaw();
    StrayLineNormalized();
    HeaderWordsAreHeader();
  }

  /** The header words alone make a line of the loop's header kind. */
  lemma HeaderWordsAreHeader()
    ensures Classify("17 POSITIONSDATEN") == SegmentHeaderLine
  {
    var h := "17 POSITIONSDATEN";
    assert SkipSpaces(h, 0) == 0;
    assert MatchesIgnoringCase(h, 0, h);
    SegmentHeaderIsNeither(h);
  }

  /** Two quotes in front: neither the pattern nor the first-line test accepts the raw line. */
  lemma StrayLineRaw()
    ensures !IsSegmentHeader(StrayLine) && !StartsWithHeaderWords(StrayLine)
  {
    assert SkipSpaces(StrayLine, 0) == 0;
    assert SkipSpaces(StrayLine, 1) == 1;
    var h := "17 POSITIONSDATEN";
    assert Upper(StrayLine[0 + 0]) != h[0];
    assert Upper(StrayLine[1 + 0]) != h[0];
  }

  /** `normalize_line` strips both quotes. */
  lemma StrayLineNormalized()
    ensures NormalizeLine(StrayLine) == "17 POSITIONSDATEN"
  {
    var h := "17 POSITIONSDATEN";
    assert StrayLine == "\"\"" + h;
    assert Strip(StrayLine) == StrayLine by {
      NormalizeNormalEnds(StrayLine, Spaces);
    }
    assert StripQuotes(StrayLine) == h by {
      TrimStartPast("\"\"", h, Quotes);
      NoTrimEnd(h, Quotes);
    }
    assert Strip(h) == h by {
      NormalizeNormalEnds(h, Spaces);
    }
  }

  // ---------------------------------------------------------------------
  // Key lines

  /** Normalizing keeps a line free of line breaks, since it only cuts at both ends. */
  lemma {:induction false} NormalizedHaveNoBreak(raw: seq<string>)
    requires forall n :: 0 <= n < |raw| ==> NoLineBreak(raw[n])
    ensures forall j :: 0 <= j < |NonEmptyNormalized(raw)| ==> NoLineBreak(NonEmptyNormalized(raw)[j])
    decreases |raw|
  {
    if raw != [] {
      NormalizedHaveNoBreak(raw[1..]);
      NormalizeLineIsSlice(raw[0]);
      var a: nat, b: nat :| a <= b <= |raw[0]| && NormalizeLine(raw[0]) == raw[0][a..b] && OnlyPaddingOutside(raw[0], a, b);
      assert NoLineBreak(NormalizeLine(raw[0])) by {
        forall k | 0 <= k < b - a ensures !IsLineBreak(NormalizeLine(raw[0])[k]) {
          assert NormalizeLine(raw[0])[k] == raw[0][a + k];
        }
      }
    }
  }

  /** No line the loop sees holds a line break. */
  lemma SegmentLinesHaveNoBreak(segment: string)
    ensures forall j :: 0 <= j < |SegmentLines(segment)| ==> NoLineBreak(SegmentLines(segment)[j])
  {
    var split := SplitLines(ReplaceCarriageReturns(segment));
    SplitLinesHaveNoBreak(ReplaceCarriageReturns(segment));
    NormalizedHaveNoBreak(split);
    var lines := NormalizedLines(segment);
    if |lines| > 0 && StartsWithHeaderWords(lines[0]) {
      assert forall j :: 0 <= j < |lines| - 1 ==> lines[1..][j] == lines[j + 1];
    }
  }

  /**
   * Lines 97-102, for a key line of a segment: its code is `17` or
   * `17.<digits>` and one letter, at the start of the line; its label is the
   * rest of the line stripped, or the code when that is empty.
   */
  lemma SegmentKey(segment: string, j: nat)
    requires j < |SegmentLines(segment)| && Kinds(SegmentLines(segment))[j].KeyLine?
    ensures var line := SegmentLines(segment)[j]; var key := Kinds(SegmentLines(segment))[j].key;
      && IsCode(key.code) && key.code <= line
      && key.name == (if Strip(line[|key.code|..]) == "" then key.code else Strip(line[|key.code|..]))
  {
    var line := SegmentLines(segment)[j];
    SegmentLinesHaveNoBreak(segment);
    assert IsLineBreak('\n');
    assert '\n' !in line;
    KeyReSound(line);
    KeyLabel(line);
  }

  // ---------------------------------------------------------------------
  // Conservation of the value lines

  /** The texts of the value lines, in order. */
  function ValueLines(kinds: seq<LineKind>): seq<string>
  {
    if kinds == [] then [] else (if kinds[0].ValueLine? then [kinds[0].text] else []) + ValueLines(kinds[1..])
  }

  lemma {:induction false} ValueLinesAppend(a: seq<LineKind>, b: seq<LineKind>)
    ensures ValueLines(a + b) == ValueLines(a) + ValueLines(b)
    decreases |a|
  {
    if a == [] {
      assert a + b == b;
    } else {
      assert (a + b)[1..] == a[1..] + b;
      ValueLinesAppend(a[1..], b);
    }
  }

  lemma {:induction false} ValueLinesOfRun(kinds: seq<LineKind>, k: nat, v: nat)
    requires k <= v <= |kinds|
    requires forall j :: k <= j < v ==> kinds[j].ValueLine?
    ensures ValueLines(kinds[k..v]) == GroupValues(kinds, k, v)
    decreases v - k
  {
    if k < v {
      ValueLinesOfRun(kinds, k + 1, v);
      assert kinds[k..v][1..] == kinds[k + 1..v];
    }
  }

  lemma {:induction false} ValueLinesOfKeys(kinds: seq<LineKind>)
    requires forall j :: 0 <= j < |kinds| ==> kinds[j].KeyLine?
    ensures ValueLines(kinds) == []
    decreases |kinds|
  {
    if kinds != [] {
      ValueLinesOfKeys(kinds[1..]);
    }
  }

  /** The values the keys of this pass take: as many of the available values as there are keys. */
  function StepConsumed(kinds: seq<LineKind>, st: ParserState): seq<string>
    requires st.i < |kinds|
  {
    if kinds[st.i].PackHeaderLine? then []
    else
      var k := KeyRunEnd(kinds, st.i);
      if k == st.i then []
      else
        var available := st.pending + GroupValues(kinds, k, ValueRunEnd(kinds, k));
        if k - st.i <= |available| then available[..k - st.i] else available
  }

  /** The values taken by keys over the rest of the loop. */
  function Consumed(kinds: seq<LineKind>, st: ParserState): seq<string>
    requires st.i <= |kinds| && NoStrayHeader(kinds, st.i)
    decreases |kinds| - st.i
  {
    if st.i == |kinds| then [] else StepConsumed(kinds, st) + Consumed(kinds, Step(kinds, st))
  }

  /** The values available to a run of keys are those it takes followed by those left pending. */
  lemma TakenAndLeft(available: seq<string>, n: nat)
    ensures available == (if n <= |available| then available[..n] else available) + DropFirst(available, n)
  {
    if n <= |available| {
      assert available == available[..n] + available[n..];
    }
  }

  /**
   * One pass: the values pending before it and the value lines it reads are
   * the values its keys take followed by the values pending after it.
   */
  lemma StepConserves(kinds: seq<LineKind>, st: ParserState)
    requires st.i < |kinds|
    ensures st.pending + ValueLines(kinds[st.i..Step(kinds, st).i]) == StepConsumed(kinds, st) + Step(kinds, st).pending
  {
    var i := st.i;
    if kinds[i].SegmentHeaderLine? {
      assert kinds[i..i] == [];
    } else if kinds[i].PackHeaderLine? {
      assert kinds[i..i + 1] == [kinds[i]];
      assert ValueLines([kinds[i]]) == [] + ValueLines([]);
    } else if KeyRunEnd(kinds, i) == i {
      ValueLinesOfRun(kinds, i, ValueRunEnd(kinds, i));
    } else {
      var k := KeyRunEnd(kinds, i);
      KeyGroupValueLines(kinds, i);
      TakenAndLeft(st.pending + GroupValues(kinds, k, ValueRunEnd(kinds, k)), k - i);
    }
  }

  /** The value lines read by a pass over a run of keys are the values after the keys. */
  lemma KeyGroupValueLines(kinds: seq<LineKind>, i: nat)
    requires i <= |kinds|
    ensures var k := KeyRunEnd(kinds, i); var v := ValueRunEnd(kinds, k);
      ValueLines(kinds[i..v]) == GroupValues(kinds, k, v)
  {
    var k := KeyRunEnd(kinds, i);
    var v := ValueRunEnd(kinds, k);
    assert kinds[i..v] == kinds[i..k] + kinds[k..v];
    ValueLinesAppend(kinds[i..k], kinds[k..v]);
    ValueLinesOfKeys(kinds[i..k]);
    ValueLinesOfRun(kinds, k, v);
  }

  /** From any state on, the pending values and the value lines still to come are consumed or left pending, in order. */
  lemma {:induction false} ConservationFrom(kinds: seq<LineKind>, st: ParserState)
    requires st.i <= |kinds| && NoStrayHeader(kinds, st.i)
    ensures st.pending + ValueLines(kinds[st.i..]) == Consumed(kinds, st) + Run(kinds, st).pending
    decreases |kinds| - st.i
  {
    if st.i == |kinds| {
      assert kinds[st.i..] == [];
    } else {
      var r := Step(kinds, st);
      var a, b := kinds[st.i..r.i], kinds[r.i..];
      assert kinds[st.i..] == a + b;
      ValueLinesAppend(a, b);
      StepConserves(kinds, st);
      ConservationFrom(kinds, r);
      Regroup(st.pending, ValueLines(a), ValueLines(b), StepConsumed(kinds, st), r.pending, Consumed(kinds, r), Run(kinds, r).pending);
    }
  }

  /** Sequence bookkeeping for one pass of the conservation argument. */
  lemma Regroup(p: seq<string>, a: seq<string>, b: seq<string>, taken: seq<string>, left: seq<string>, later: seq<string>, rest: seq<string>)
    requires p + a == taken + left
    requires left + b == later + rest
    ensures p + (a + b) == (taken + later) + rest
  {
    calc {
      p + (a + b);
      (p + a) + b;
      (taken + left) + b;
      taken + (left + b);
    }
  }

  /**
   * The value lines of a segment, in order, are the values the key groups
   * took followed by the values left unmapped at the end.
   */
  lemma Conservation(kinds: seq<LineKind>)
    requires NoStrayHeader(kinds, 0)
    ensures ValueLines(kinds) == Consumed(kinds, Start) + Run(kinds, Start).pending
  {
    ConservationFrom(kinds, Start);
    assert kinds[0..] == kinds;
  }

  /**
   * Within one pass over a run of keys, the values taken are a prefix of the
   * values available, one per key, and the rest is what stays pending.
   */
  lemma StepCarryOver(kinds: seq<LineKind>, st: ParserState)
    requires st.i < |kinds| && !kinds[st.i].PackHeaderLine? && KeyRunEnd(kinds, st.i) > st.i
    ensures var k := KeyRunEnd(kinds, st.i);
      var available := st.pending + GroupValues(kinds, k, ValueRunEnd(kinds, k));
      var taken := StepConsumed(kinds, st);
      && |taken| == (if k - st.i <= |available| then k - st.i else |available|)
      && available == taken + Step(kinds, st).pending
      && (Step(kinds, st).pending == [] <==> |available| <= k - st.i)
  {
    var k := KeyRunEnd(kinds, st.i);
    TakenAndLeft(st.pending + GroupValues(kinds, k, ValueRunEnd(kinds, k)), k - st.i);
  }

  // ---------------------------------------------------------------------
  // Which labels end up where

  /** The labels of the key lines `from..to` whose code routes them to the packages (or not). */
  function LabelsIn(kinds: seq<LineKind>, from: nat, to: nat, toPack: bool): set<string>
    requires from <= to <= |kinds|
  {
    set j | from <= j < to && kinds[j].KeyLine? && IsPackCode(kinds[j].key.code) == toPack :: kinds[j].key.name
  }

  lemma LabelsInSplit(kinds: seq<LineKind>, a: nat, b: nat, c: nat, toPack: bool)
    requires a <= b <= c <= |kinds|
    ensures LabelsIn(kinds, a, c, toPack) == LabelsIn(kinds, a, b, toPack) + LabelsIn(kinds, b, c, toPack)
  {
  }

  /** The labels of the pairs routed to the packages (or not). */
  function PairNames(pairs: seq<(KeyToken, string)>, toPack: bool): set<string>
  {
    set n | 0 <= n < |pairs| && IsPackCode(pairs[n].0.code) == toPack :: pairs[n].0.name
  }

  lemma PairNamesLast(pairs: seq<(KeyToken, string)>, toPack: bool)
    requires pairs != []
    ensures var n := |pairs| - 1;
      PairNames(pairs, toPack) == PairNames(pairs[..n], toPack) + (if IsPackCode(pairs[n].0.code) == toPack then {pairs[n].0.name} else {})
  {
  }

  /**
   * Routing writes each pair to one dictionary: keys already present keep
   * their place, and the new keys are exactly the labels routed there.
   */
  lemma {:induction false} RouteKeys(m: Dict<string>, p: Dict<string>, pairs: seq<(KeyToken, string)>)
    ensures var r := Route(m, p, pairs);
      && Keys(m) <= Keys(r.0) && KeySet(r.0) == KeySet(m) + PairNames(pairs, false)
      && Keys(p) <= Keys(r.1) && KeySet(r.1) == KeySet(p) + PairNames(pairs, true)
      && (DistinctKeys(m) ==> DistinctKeys(r.0)) && (DistinctKeys(p) ==> DistinctKeys(r.1))
    decreases |pairs|
  {
    if pairs != [] {
      var n := |pairs| - 1;
      var r0 := Route(m, p, pairs[..n]);
      RouteKeys(m, p, pairs[..n]);
      PairNamesLast(pairs, false);
      PairNamesLast(pairs, true);
      if IsPackCode(pairs[n].0.code) {
        PutKeySet(r0.1, pairs[n].0.name, pairs[n].1);
      } else {
        PutKeySet(r0.0, pairs[n].0.name, pairs[n].1);
      }
    }
  }

  /** The labels of a key group are the labels of its key lines. */
  lemma AssignNames(kinds: seq<LineKind>, i: nat, k: nat, available: seq<string>, toPack: bool)
    requires i <= k <= |kinds|
    requires forall j :: i <= j < k ==> kinds[j].KeyLine?
    ensures PairNames(Assign(GroupTokens(kinds, i, k), available), toPack) == LabelsIn(kinds, i, k, toPack)
  {
    var pairs := Assign(GroupTokens(kinds, i, k), available);
    forall x | x in LabelsIn(kinds, i, k, toPack) ensures x in PairNames(pairs, toPack) {
      var j :| i <= j < k && kinds[j].KeyLine? && IsPackCode(kinds[j].key.code) == toPack && x == kinds[j].key.name;
      assert pairs[j - i].0 == kinds[j].key;
    }
  }

  /** One pass adds to each dictionary the labels of the key lines it reads that route there. */
  lemma StepKeys(kinds: seq<LineKind>, st: ParserState)
    requires st.i < |kinds|
    ensures var r := Step(kinds, st);
      && Keys(st.mapping) <= Keys(r.mapping) && KeySet(r.mapping) == KeySet(st.mapping) + LabelsIn(kinds, st.i, r.i, false)
      && Keys(st.pack) <= Keys(r.pack) && KeySet(r.pack) == KeySet(st.pack) + LabelsIn(kinds, st.i, r.i, true)
      && (DistinctKeys(st.mapping) ==> DistinctKeys(r.mapping)) && (DistinctKeys(st.pack) ==> DistinctKeys(r.pack))
  {
    var i := st.i;
    if !kinds[i].PackHeaderLine? && !kinds[i].SegmentHeaderLine? {
      var k := KeyRunEnd(kinds, i);
      if k != i {
        var v := ValueRunEnd(kinds, k);
        var available := st.pending + GroupValues(kinds, k, v);
        RouteKeys(st.mapping, st.pack, Assign(GroupTokens(kinds, i, k), available));
        LabelsInSplit(kinds, i, k, v, false);
        LabelsInSplit(kinds, i, k, v, true);
        AssignNames(kinds, i, k, available, false);
        AssignNames(kinds, i, k, available, true);
      }
    }
  }

  /** From any state on, each dictionary gains exactly the labels of the key lines still to come that route there. */
  lemma {:induction false} RunKeysFrom(kinds: seq<LineKind>, st: ParserState)
    requires st.i <= |kinds| && NoStrayHeader(kinds, st.i)
    ensures var r := Run(kinds, st);
      && Keys(st.mapping) <= Keys(r.mapping) && KeySet(r.mapping) == KeySet(st.mapping) + LabelsIn(kinds, st.i, |kinds|, false)
      && Keys(st.pack) <= Keys(r.pack) && KeySet(r.pack) == KeySet(st.pack) + LabelsIn(kinds, st.i, |kinds|, true)
      && (DistinctKeys(st.mapping) ==> DistinctKeys(r.mapping)) && (DistinctKeys(st.pack) ==> DistinctKeys(r.pack))
    decreases |kinds| - st.i
  {
    if st.i < |kinds| {
      var r := Step(kinds, st);
      StepKeys(kinds, st);
      RunKeysFrom(kinds, r);
      LabelsInSplit(kinds, st.i, r.i, |kinds|, false);
      LabelsInSplit(kinds, st.i, r.i, |kinds|, true);
    }
  }

  /**
   * Routing by code prefix, over a whole segment: the main dictionary holds
   * exactly the labels of the keys whose code does not start with `17.1`,
   * the packages dictionary exactly those of the keys whose code does, each
   * label once; no key is dropped.
   */
  lemma Routing(kinds: seq<LineKind>)
    requires NoStrayHeader(kinds, 0)
    ensures var r := Run(kinds, Start);
      && KeySet(r.mapping) == LabelsIn(kinds, 0, |kinds|, false) && DistinctKeys(r.mapping)
      && KeySet(r.pack) == LabelsIn(kinds, 0, |kinds|, true) && DistinctKeys(r.pack)
  {
    RunKeysFrom(kinds, Start);
    assert KeySet<string>([]) == {};
  }

  /**
   * The shape of the record: the main section first and always; a packages
   * section exactly when some key has a `17.1` code; an unmapped section
   * exactly when values are left over.
   */
  lemma RecordShape(kinds: seq<LineKind>)
    requires NoStrayHeader(kinds, 0)
    ensures var r := Run(kinds, Start); var rec := BuildRecord(r);
      && rec[0] == (MainSection, Fields(r.mapping))
      && ((exists n :: 0 <= n < |rec| && rec[n].0 == PackSection) <==> LabelsIn(kinds, 0, |kinds|, true) != {})
      && ((exists n :: 0 <= n < |rec| && rec[n].0 == UnmappedSection) <==> r.pending != [])
  {
    var r := Run(kinds, Start);
    var rec := BuildRecord(r);
    Routing(kinds);
    if r.pack != [] {
      assert r.pack[0].0 in KeySet(r.pack);
      assert rec[1].0 == PackSection;
    }
    if r.pending != [] {
      assert rec[|rec| - 1].0 == UnmappedSection;
    }
  }

  // ---------------------------------------------------------------------
  // Values

  /** The pair at position `n`, not followed by another pair with its label, leaves its value in the dictionary its code selects. */
  lemma {:induction false} RouteLastWrite(m: Dict<string>, p: Dict<string>, pairs: seq<(KeyToken, string)>, n: nat)
    requires n < |pairs|
    requires forall n' :: n < n' < |pairs| ==> pairs[n'].0.name != pairs[n].0.name
    ensures var (m', p') := Route(m, p, pairs);
      Get(if IsPackCode(pairs[n].0.code) then p' else m', pairs[n].0.name) == Some(pairs[n].1)
    decreases |pairs|
  {
    if n < |pairs| - 1 {
      RouteLastWrite(m, p, pairs[..|pairs| - 1], n);
    }
  }

  /**
   * Zip with padding: in a pass that reads a run of keys, key `idx` takes
   * value `idx` of the pending values followed by the values read after
   * the keys, or "" when there are fewer values than that; only a later key
   * of the run with the same label overwrites it.
   */
  lemma GroupValue(kinds: seq<LineKind>, st: ParserState, idx: nat)
    requires st.i < |kinds| && !kinds[st.i].PackHeaderLine?
    requires idx < KeyRunEnd(kinds, st.i) - st.i
    requires forall j :: st.i + idx < j < KeyRunEnd(kinds, st.i) ==> kinds[j].key.name != kinds[st.i + idx].key.name
    ensures var k := KeyRunEnd(kinds, st.i);
      var available := st.pending + GroupValues(kinds, k, ValueRunEnd(kinds, k));
      var key := kinds[st.i + idx].key;
      var r := Step(kinds, st);
      Get(if IsPackCode(key.code) then r.pack else r.mapping, key.name)
        == Some(if idx < |available| then available[idx] else "")
  {
    var k := KeyRunEnd(kinds, st.i);
    var available := st.pending + GroupValues(kinds, k, ValueRunEnd(kinds, k));
    var pairs := Assign(GroupTokens(kinds, st.i, k), available);
    RouteLastWrite(st.mapping, st.pack, pairs, idx);
  }

  /** Every value line carries a text that the value loops would collect. */
  predicate WellClassified(kinds: seq<LineKind>)
  {
    forall j :: 0 <= j < |kinds| && kinds[j].ValueLine? ==> IsValueLine(kinds[j].text)
  }

  /** Classifying lines gives well-classified kinds. */
  lemma KindsWellClassified(lines: seq<string>)
    ensures WellClassified(Kinds(lines))
  {
  }

  /** A stored value is a line the value loops collect, or "": never a packages header, nor a key. */
  ghost predicate ValuesAreValueLines(st: ParserState)
  {
    && (forall e :: e in st.mapping ==> IsValueLine(e.1))
    && (forall e :: e in st.pack ==> IsValueLine(e.1))
    && (forall x :: x in st.pending ==> IsValueLine(x))
  }

  lemma EmptyIsValueLine()
    ensures IsValueLine("")
  {
    assert !IsSegmentHeader("") by {
      assert SkipSpaces("", 0) == 0;
    }
  }

  lemma {:induction false} RouteKeepsValueLines(m: Dict<string>, p: Dict<string>, pairs: seq<(KeyToken, string)>)
    requires forall e :: e in m ==> IsValueLine(e.1)
    requires forall e :: e in p ==> IsValueLine(e.1)
    requires forall n :: 0 <= n < |pairs| ==> IsValueLine(pairs[n].1)
    ensures forall e :: e in Route(m, p, pairs).0 ==> IsValueLine(e.1)
    ensures forall e :: e in Route(m, p, pairs).1 ==> IsValueLine(e.1)
    decreases |pairs|
  {
    if pairs != [] {
      RouteKeepsValueLines(m, p, pairs[..|pairs| - 1]);
    }
  }

  lemma StepKeepsValueLines(kinds: seq<LineKind>, st: ParserState)
    requires st.i < |kinds| && WellClassified(kinds) && ValuesAreValueLines(st)
    ensures ValuesAreValueLines(Step(kinds, st))
  {
    var i := st.i;
    if !kinds[i].PackHeaderLine? && !kinds[i].SegmentHeaderLine? {
      var k := KeyRunEnd(kinds, i);
      var v := ValueRunEnd(kinds, k);
      var values := GroupValues(kinds, k, v);
      assert forall n :: 0 <= n < |values| ==> IsValueLine(values[n]);
      if k != i {
        var available := st.pending + values;
        EmptyIsValueLine();
        var pairs := Assign(GroupTokens(kinds, i, k), available);
        assert forall n :: 0 <= n < |pairs| ==> IsValueLine(pairs[n].1);
        RouteKeepsValueLines(st.mapping, st.pack, pairs);
      }
    }
  }

  lemma {:induction false} RunKeepsValueLines(kinds: seq<LineKind>, st: ParserState)
    requires st.i <= |kinds| && NoStrayHeader(kinds, st.i) && WellClassified(kinds) && ValuesAreValueLines(st)
    ensures ValuesAreValueLines(Run(kinds, st))
    decreases |kinds| - st.i
  {
    if st.i < |kinds| {
      StepKeepsValueLines(kinds, st);
      RunKeepsValueLines(kinds, Step(kinds, st));
    }
  }

  /** A packages header is never stored, neither as a field value nor as an unmapped value. */
  lemma PackHeaderNeverStored(lines: seq<string>)
    requires NoStrayHeader(Kinds(lines), 0)
    ensures var r := Run(Kinds(lines), Start);
      && (forall e :: e in r.mapping + r.pack ==> !IsPackHeader(e.1))
      && (forall x :: x in r.pending ==> !IsPackHeader(x))
  {
    KindsWellClassified(lines);
    RunKeepsValueLines(Kinds(lines), Start);
  }
}
