/**
 * `parse_segment`: one article's lines become a record of two ordered
 * dictionaries, the main fields and the packages (`PACKSTÜCKE`) fields.
 *
 * Keys arrive in runs and their values in runs after them, not necessarily
 * as many values as keys. A run of keys takes, in order, the values still
 * pending from before followed by the run of values just after it; a key
 * with no value left gets "", and values beyond the keys stay pending for
 * the next run of keys. A key whose code starts with `17.1` goes to the
 * packages dictionary, every other key to the main one.
 *
 * The loop of the source is `ParseSegment`; the same loop, one pass at a
 * time, is the function `Step`, and `Run` iterates it. The properties are
 * proved about `Run`.
 */
module SegmentParser {
  import opened Wrappers
  import opened Text
  import opened Patterns
  import opened OrderedDict

  /** The names of the sections of a record, in the order they are added. */
  const MainSection := "POSITIONSDATEN e-VD/v-e-VD"
  const PackSection := "PACKST\U{DC}CKE"
  const UnmappedSection := "_UNMAPPED_VALUES"

  /** Codes with this prefix are package fields. */
  const PackPrefix := "17.1"

  /** A section of a record: a dictionary of fields, or the list of values no key took. */
  datatype Section = Fields(fields: Dict<string>) | Unmapped(values: seq<string>)

  /** A record is a dictionary from section name to section. */
  type Record = Dict<Section>

  // ---------------------------------------------------------------------
  // The lines of a segment (lines 77-81)

  /** Each line normalized; the lines that are then empty are dropped. */
  function NonEmptyNormalized(raw: seq<string>): (lines: seq<string>)
    ensures |lines| <= |raw|
    ensures forall j :: 0 <= j < |lines| ==> lines[j] != ""
  {
    if raw == [] then []
    else
      var line := NormalizeLine(raw[0]);
      (if line == "" then [] else [line]) + NonEmptyNormalized(raw[1..])
  }

  /** Normalizing lines one by one: the lines of `a + b` are those of `a` followed by those of `b`. */
  lemma {:induction false} NonEmptyNormalizedAppend(a: seq<string>, b: seq<string>)
    ensures NonEmptyNormalized(a + b) == NonEmptyNormalized(a) + NonEmptyNormalized(b)
    decreases |a|
  {
    if a != [] {
      assert (a + b)[0] == a[0] && (a + b)[1..] == a[1..] + b;
      NonEmptyNormalizedAppend(a[1..], b);
    } else {
      assert a + b == b;
    }
  }

  /** The lines kept are exactly the non-empty normalizations of the raw lines. */
  lemma {:induction false} NonEmptyNormalizedKeeps(raw: seq<string>, x: string)
    ensures x in NonEmptyNormalized(raw) <==> x != "" && exists j :: 0 <= j < |raw| && x == NormalizeLine(raw[j])
    decreases |raw|
  {
    if raw != [] {
      NonEmptyNormalizedKeeps(raw[1..], x);
      if exists j :: 0 <= j < |raw| && x == NormalizeLine(raw[j]) {
        var j :| 0 <= j < |raw| && x == NormalizeLine(raw[j]);
        if j > 0 {
          assert raw[1..][j - 1] == raw[j];
        }
      }
      if exists j :: 0 <= j < |raw| - 1 && x == NormalizeLine(raw[1..][j]) {
        var j :| 0 <= j < |raw| - 1 && x == NormalizeLine(raw[1..][j]);
        assert raw[j + 1] == raw[1..][j];
      }
    }
  }

  /** Line 77: carriage returns become line feeds, the text is split into lines, and these normalized. */
  function NormalizedLines(segment: string): seq<string>
  {
    NonEmptyNormalized(SplitLines(ReplaceCarriageReturns(segment)))
  }

  /** Lines 77-81: the normalized lines, less a first line that upper-cases to `17 POSITIONSDATEN...`. */
  function SegmentLines(segment: string): (lines: seq<string>)
    ensures |lines| <= |NormalizedLines(segment)|
    ensures forall j :: 0 <= j < |lines| ==> lines[j] != ""
  {
    var lines := NormalizedLines(segment);
    if |lines| > 0 && StartsWithHeaderWords(lines[0]) then lines[1..] else lines
  }

  // ---------------------------------------------------------------------
  // Classifying a line

  /** Line 127, `code.lower().startswith("17.1")`; lower-casing does not change digits or `.`. */
  predicate IsPackCode(code: string)
  {
    PackPrefix <= code
  }

  /** The code and label of a key line (lines 97-102). */
  function KeyOf(line: string): KeyToken
    requires IsKeyLine(line)
  {
    Token(KeyRe(line).value)
  }

  /** What the loop sees in a line: the patterns it tests, and a key's code and label. */
  datatype LineKind = SegmentHeaderLine | PackHeaderLine | KeyLine(key: KeyToken) | ValueLine(text: string)

  /**
   * The tests of lines 89, 97, 107 and 114 made once. The three patterns
   * never match the same line, so each line is of exactly one kind.
   */
  function Classify(line: string): (kind: LineKind)
    ensures kind.PackHeaderLine? <==> IsPackHeader(line)
    ensures kind.KeyLine? <==> IsKeyLine(line)
    ensures kind.SegmentHeaderLine? <==> IsSegmentHeader(line)
    ensures kind.ValueLine? <==> IsValueLine(line)
    ensures kind.KeyLine? ==> kind.key == KeyOf(line)
    ensures kind.ValueLine? ==> kind.text == line
  {
    KeyAndPackDisjoint(line);
    assert IsSegmentHeader(line) ==> !IsKeyLine(line) && !IsPackHeader(line) by {
      if IsSegmentHeader(line) { SegmentHeaderIsNeither(line); }
    }
    if IsPackHeader(line) then PackHeaderLine
    else if IsKeyLine(line) then KeyLine(KeyOf(line))
    else if IsSegmentHeader(line) then SegmentHeaderLine
    else ValueLine(line)
  }

  /** The kinds of the lines of a segment. */
  function Kinds(lines: seq<string>): (kinds: seq<LineKind>)
    ensures |kinds| == |lines|
    ensures forall j :: 0 <= j < |lines| ==> kinds[j] == Classify(lines[j])
  {
    seq(|lines|, j requires 0 <= j < |lines| => Classify(lines[j]))
  }

  // ---------------------------------------------------------------------
  // One pass of the loop

  /** The end of the run of key lines that starts at `i` (lines 96-103). */
  function KeyRunEnd(kinds: seq<LineKind>, i: nat): (k: nat)
    requires i <= |kinds|
    ensures i <= k <= |kinds|
    ensures forall j :: i <= j < k ==> kinds[j].KeyLine?
    ensures k == |kinds| || !kinds[k].KeyLine?
    decreases |kinds| - i
  {
    if i < |kinds| && kinds[i].KeyLine? then KeyRunEnd(kinds, i + 1) else i
  }

  /** The end of the run of value lines that starts at `i` (lines 107 and 114). */
  function ValueRunEnd(kinds: seq<LineKind>, i: nat): (v: nat)
    requires i <= |kinds|
    ensures i <= v <= |kinds|
    ensures forall j :: i <= j < v ==> kinds[j].ValueLine?
    ensures v == |kinds| || !kinds[v].ValueLine?
    decreases |kinds| - i
  {
    if i < |kinds| && kinds[i].ValueLine? then ValueRunEnd(kinds, i + 1) else i
  }

  /** The keys of the key lines `i..k`, in order: `key_group`. */
  function GroupTokens(kinds: seq<LineKind>, i: nat, k: nat): seq<KeyToken>
    requires i <= k <= |kinds|
    requires forall j :: i <= j < k ==> kinds[j].KeyLine?
  {
    seq(k - i, n requires 0 <= n < k - i => kinds[i + n].key)
  }

  /** The texts of the value lines `k..v`: `val_group`. */
  function GroupValues(kinds: seq<LineKind>, k: nat, v: nat): seq<string>
    requires k <= v <= |kinds|
    requires forall j :: k <= j < v ==> kinds[j].ValueLine?
  {
    seq(v - k, n requires 0 <= n < v - k => kinds[k + n].text)
  }

  /** Lines 123-126: the value at `idx`, or "" past the end. */
  function Padded(values: seq<string>, idx: nat): string
  {
    if idx < |values| then values[idx] else ""
  }

  /** Lines 122-126: each key paired with the value at its position, "" past the last value. */
  function Assign(keys: seq<KeyToken>, values: seq<string>): seq<(KeyToken, string)>
  {
    seq(|keys|, idx requires 0 <= idx < |keys| => (keys[idx], Padded(values, idx)))
  }

  /** Lines 127-130: each pair written, in order, to the packages or the main dictionary. */
  function Route(mapping: Dict<string>, pack: Dict<string>, pairs: seq<(KeyToken, string)>): (r: (Dict<string>, Dict<string>))
    ensures Keys(mapping) <= Keys(r.0) && Keys(pack) <= Keys(r.1)
    decreases |pairs|
  {
    if pairs == [] then (mapping, pack)
    else
      var (m, p) := Route(mapping, pack, pairs[..|pairs| - 1]);
      var (key, value) := pairs[|pairs| - 1];
      if IsPackCode(key.code) then (m, Put(p, key.name, value)) else (Put(m, key.name, value), p)
  }

  /** Python's `values[n:]`, which is empty when `n` is past the end. */
  function DropFirst(values: seq<string>, n: nat): seq<string>
  {
    if n <= |values| then values[n..] else []
  }

  /** The variables of the loop: the cursor, `pending_values`, `mapping` and `pack_mapping`. */
  datatype ParserState = ParserState(i: nat, pending: seq<string>, mapping: Dict<string>, pack: Dict<string>)

  const Start := ParserState(0, [], [], [])

  /**
   * One pass of the loop of lines 87-133. It advances the cursor unless the
   * line under it matches SEGMENT_HEADER_RE, in which case it changes nothing.
   */
  function Step(kinds: seq<LineKind>, st: ParserState): (r: ParserState)
    requires st.i < |kinds|
    ensures st.i <= r.i <= |kinds|
    ensures r.i == st.i <==> kinds[st.i].SegmentHeaderLine?
    ensures kinds[st.i].SegmentHeaderLine? ==> r == st
  {
    var i := st.i;
    if kinds[i].PackHeaderLine? then st.(i := i + 1)
    else
      var k := KeyRunEnd(kinds, i);
      if k == i then
        var v := ValueRunEnd(kinds, i);
        st.(i := v, pending := st.pending + GroupValues(kinds, i, v))
      else
        var v := ValueRunEnd(kinds, k);
        var keys := GroupTokens(kinds, i, k);
        var available := st.pending + GroupValues(kinds, k, v);
        var (m, p) := Route(st.mapping, st.pack, Assign(keys, available));
        ParserState(v, DropFirst(available, |keys|), m, p)
  }

  /** No line from `from` on matches SEGMENT_HEADER_RE: the condition under which the loop ends. */
  predicate NoStrayHeader(kinds: seq<LineKind>, from: nat)
  {
    forall j :: from <= j < |kinds| ==> !kinds[j].SegmentHeaderLine?
  }

  /** The loop of lines 87-133, run to the end of the lines. */
  function Run(kinds: seq<LineKind>, st: ParserState): (r: ParserState)
    requires st.i <= |kinds| && NoStrayHeader(kinds, st.i)
    ensures r.i == |kinds|
    decreases |kinds| - st.i
  {
    if st.i == |kinds| then st else Run(kinds, Step(kinds, st))
  }

  /** Lines 135-141: the main section always, the others only when not empty. */
  function BuildRecord(st: ParserState): (rec: Record)
    ensures |rec| >= 1 && rec[0] == (MainSection, Fields(st.mapping))
  {
    [(MainSection, Fields(st.mapping))]
    + (if st.pack != [] then [(PackSection, Fields(st.pack))] else [])
    + (if st.pending != [] then [(UnmappedSection, Unmapped(st.pending))] else [])
  }

  /** The lines of a segment on which `parse_segment` terminates: none of them is a stray header. */
  predicate Terminates(segment: string)
  {
    NoStrayHeader(Kinds(SegmentLines(segment)), 0)
  }

  /** What `parse_segment` returns for a segment on which it terminates. */
  function ParseSegmentSpec(segment: string): Record
    requires Terminates(segment)
  {
    BuildRecord(Run(Kinds(SegmentLines(segment)), Start))
  }

  /** Leaving the loop at the end of the lines, or making one pass first. */
  lemma RunUnfold(kinds: seq<LineKind>, st: ParserState)
    requires st.i < |kinds| && NoStrayHeader(kinds, st.i)
    ensures Run(kinds, st) == Run(kinds, Step(kinds, st))
  {
  }

  // ---------------------------------------------------------------------
  // The source's loop

  /** Lines 95-103: the run of key lines from `i`, their keys, and where it ends. */
  method CollectKeys(kinds: seq<LineKind>, i: nat) returns (keyGroup: seq<KeyToken>, k: nat)
    requires i <= |kinds|
    ensures k == KeyRunEnd(kinds, i)
    ensures keyGroup == GroupTokens(kinds, i, k)
  {
    keyGroup := [];
    k := i;
    while k < |kinds| && kinds[k].KeyLine?
      invariant i <= k <= |kinds|
      invariant KeyRunEnd(kinds, k) == KeyRunEnd(kinds, i)
      invariant forall j :: i <= j < k ==> kinds[j].KeyLine?
      invariant keyGroup == GroupTokens(kinds, i, k)
    {
      keyGroup := keyGroup + [kinds[k].key];
      k := k + 1;
    }
  }

  /** Lines 107-109 and 113-116: the run of value lines from `i`, and where it ends. */
  method CollectValues(kinds: seq<LineKind>, i: nat) returns (values: seq<string>, v: nat)
    requires i <= |kinds|
    ensures v == ValueRunEnd(kinds, i)
    ensures values == GroupValues(kinds, i, v)
  {
    values := [];
    v := i;
    while v < |kinds| && kinds[v].ValueLine?
      invariant i <= v <= |kinds|
      invariant ValueRunEnd(kinds, v) == ValueRunEnd(kinds, i)
      invariant forall j :: i <= j < v ==> kinds[j].ValueLine?
      invariant values == GroupValues(kinds, i, v)
    {
      values := values + [kinds[v].text];
      v := v + 1;
    }
  }

  /** Lines 122-130: the keys of a group written with their values, "" past the last value. */
  method AssignGroup(mapping0: Dict<string>, pack0: Dict<string>, keyGroup: seq<KeyToken>, available: seq<string>)
    returns (mapping: Dict<string>, pack: Dict<string>)
    ensures (mapping, pack) == Route(mapping0, pack0, Assign(keyGroup, available))
  {
    mapping, pack := mapping0, pack0;
    ghost var pairs := Assign(keyGroup, available);
    for idx := 0 to |keyGroup|
      invariant (mapping, pack) == Route(mapping0, pack0, pairs[..idx])
    {
      var value := if idx < |available| then available[idx] else "";
      var key := keyGroup[idx];
      assert pairs[..idx + 1][..idx] == pairs[..idx];
      if IsPackCode(key.code) {
        pack := Put(pack, key.name, value);
      } else {
        mapping := Put(mapping, key.name, value);
      }
    }
    assert pairs[..|keyGroup|] == pairs;
  }

  /**
   * Lines 88-133, one pass of the loop: skip a packages header; or read a
   * run of keys, or else a run of values that stay pending; after a run of
   * keys, read the run of values after it and assign the values to the keys.
   */
  method ParsePass(kinds: seq<LineKind>, i0: nat, pending0: seq<string>, mapping0: Dict<string>, pack0: Dict<string>)
    returns (i: nat, pending: seq<string>, mapping: Dict<string>, pack: Dict<string>)
    requires i0 < |kinds|
    ensures ParserState(i, pending, mapping, pack) == Step(kinds, ParserState(i0, pending0, mapping0, pack0))
  {
    i, pending, mapping, pack := i0, pending0, mapping0, pack0;
    if kinds[i].PackHeaderLine? {
      i := i + 1;
      return;
    }

    var keyGroup;
    keyGroup, i := CollectKeys(kinds, i);

    if |keyGroup| == 0 {
      var values;
      values, i := CollectValues(kinds, i);
      pending := pending + values;
      return;
    }

    var valGroup;
    valGroup, i := CollectValues(kinds, i);
    var available := pending + valGroup;
    mapping, pack := AssignGroup(mapping, pack, keyGroup, available);
    pending := if |keyGroup| <= |available| then available[|keyGroup|..] else [];
  }

  /**
   * Lines 69-141. The source loops forever when a line it keeps matches
   * SEGMENT_HEADER_RE (see `StallOnHeader`), so that is excluded here.
   */
  method ParseSegment(segment: string) returns (rec: Record)
    requires Terminates(segment)
    ensures rec == ParseSegmentSpec(segment)
  {
    var lines := NormalizedLines(segment);
    if |lines| > 0 && StartsWithHeaderWords(lines[0]) {
      lines := lines[1..];
    }
    var kinds := Kinds(lines);
    ghost var final := Run(kinds, Start);

    var mapping: Dict<string> := [];
    var pack: Dict<string> := [];
    var pending: seq<string> := [];
    var i := 0;
    while i < |kinds|
      invariant i <= |kinds|
      invariant Run(kinds, ParserState(i, pending, mapping, pack)) == final
      decreases |kinds| - i
    {
      RunUnfold(kinds, ParserState(i, pending, mapping, pack));
      i, pending, mapping, pack := ParsePass(kinds, i, pending, mapping, pack);
    }
    assert ParserState(i, pending, mapping, pack) == final;

    rec := [(MainSection, Fields(mapping))];
    if pack != [] {
      rec := rec + [(PackSection, Fields(pack))];
    }
    if pending != [] {
      rec := rec + [(UnmappedSection, Unmapped(pending))];
    }
  }
}
