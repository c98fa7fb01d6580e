/**
 * `load_and_flatten`: every record becomes one row, the entries of its
 * sections written one after the other into one dictionary, so a later
 * entry with the same label overwrites an earlier one where it stands.
 * The rows are what the table is built from; its columns are the labels
 * of all rows.
 */
module Flattener {
  import opened Wrappers
  import opened OrderedDict
  import opened SegmentParser
  import opened Articles
  import opened Segmenter
  import SegmentProperties

  type Row = Dict<string>

  /** The entries of all sections of a record, section after section. */
  function Items(rec: Record): seq<(string, string)>
    requires AllFields(rec)
    decreases |rec|
  {
    if rec == [] then [] else Items(rec[..|rec| - 1]) + rec[|rec| - 1].1.fields
  }

  /** The row of one record: all its entries written, in order, into an empty dictionary. */
  function FlatRow(rec: Record): (row: Row)
    requires AllFields(rec)
    ensures DistinctKeys(row)
  {
    PutAll([], Items(rec))
  }

  /** pdf_parser.py lines 156-165: one row per record, in the order of the records. */
  method LoadAndFlatten(records: seq<Record>) returns (rows: seq<Row>)
    requires forall n :: 0 <= n < |records| ==> AllFields(records[n])
    ensures |rows| == |records|
    ensures forall n :: 0 <= n < |rows| ==> rows[n] == FlatRow(records[n])
  {
    rows := [];
    for r := 0 to |records|
      invariant |rows| == r
      invariant forall n :: 0 <= n < r ==> rows[n] == FlatRow(records[n])
    {
      var row := FlattenRecord(records[r]);
      AppendRow(records, rows, row);
      rows := rows + [row];
    }
  }

  /** Appending the row of the next record keeps the rows in step with the records. */
  lemma AppendRow(records: seq<Record>, rows: seq<Row>, row: Row)
    requires |rows| < |records| && forall n :: 0 <= n < |records| ==> AllFields(records[n])
    requires forall n :: 0 <= n < |rows| ==> rows[n] == FlatRow(records[n])
    requires row == FlatRow(records[|rows|])
    ensures forall n :: 0 <= n <= |rows| ==> (rows + [row])[n] == FlatRow(records[n])
  {
    forall n | 0 <= n <= |rows| ensures (rows + [row])[n] == FlatRow(records[n]) {
      if n < |rows| {
        assert (rows + [row])[n] == rows[n];
      }
    }
  }

  /** Lines 159-164: the sections of one record written one after the other into an empty row. */
  method FlattenRecord(rec: Record) returns (row: Row)
    requires AllFields(rec)
    ensures row == FlatRow(rec)
  {
    row := [];
    for s := 0 to |rec|
      invariant row == PutAll([], Items(rec[..s]))
    {
      var done := rec[..s];
      row := WriteSection(row, rec[s].1.fields);
      assert rec[..s + 1][..s] == done;
      PutAllAppend([], Items(done), rec[s].1.fields);
    }
    assert rec[..|rec|] == rec;
  }

  /** Lines 161-164: `flat_record[key] = value` for every entry of one section, in order. */
  method WriteSection(row0: Row, section: Dict<string>) returns (row: Row)
    ensures row == PutAll(row0, section)
  {
    row := row0;
    for j := 0 to |section|
      invariant row == PutAll(row0, section[..j])
    {
      PutAllSnoc(row0, section, j);
      row := Put(row, section[j].0, section[j].1);
    }
    assert section[..|section|] == section;
  }

  /** Writing one more entry of a section. */
  lemma PutAllSnoc(d: Row, section: Dict<string>, j: nat)
    requires j < |section|
    ensures PutAll(d, section[..j + 1]) == Put(PutAll(d, section[..j]), section[j].0, section[j].1)
  {
    assert section[..j + 1][..j] == section[..j];
  }

  /** The columns of the table: every label of every row. */
  function Columns(rows: seq<Row>): (cols: set<string>)
    ensures forall n :: 0 <= n < |rows| ==> KeySet(rows[n]) <= cols
    ensures forall k :: k in cols ==> exists n :: 0 <= n < |rows| && k in KeySet(rows[n])
    decreases |rows|
  {
    if rows == [] then {} else Columns(rows[..|rows| - 1]) + KeySet(rows[|rows| - 1])
  }

  /** A row holds a label exactly when some section of its record does, with the last value written to it. */
  lemma FlatRowEntries(rec: Record, k: string)
    requires AllFields(rec)
    ensures k in Keys(FlatRow(rec)) <==> exists n :: 0 <= n < |rec| && k in Keys(rec[n].1.fields)
    ensures Get(FlatRow(rec), k) == LastValue(Items(rec), k)
    ensures DistinctKeys(FlatRow(rec))
  {
    ItemKeys(rec, k);
  }

  lemma {:induction false} ItemKeys(rec: Record, k: string)
    requires AllFields(rec)
    ensures k in Keys(Items(rec)) <==> exists n :: 0 <= n < |rec| && k in Keys(rec[n].1.fields)
    decreases |rec|
  {
    if rec != [] {
      var m := |rec| - 1;
      var front := rec[..m];
      ItemKeys(front, k);
      var a, b := Items(front), rec[m].1.fields;
      assert Keys(a + b) == Keys(a) + Keys(b);
      if k in Keys(Items(rec)) && k !in Keys(b) {
        var n :| 0 <= n < m && k in Keys(front[n].1.fields);
        assert rec[n] == front[n];
      }
      if exists n :: 0 <= n < m && k in Keys(rec[n].1.fields) {
        var n :| 0 <= n < m && k in Keys(rec[n].1.fields);
        assert front[n] == rec[n];
      }
    }
  }

  /** The row the pipeline makes of a segment: its packages entries written over its main entries. */
  function MergedRow(segment: string): Row
    requires Terminates(segment)
  {
    var r := Run(Kinds(SegmentLines(segment)), Start);
    PutAll(r.mapping, r.pack)
  }

  /** Once cleaned, a parsed record can be flattened, and its row is the merged row. */
  lemma CleanedRow(segment: string)
    requires Terminates(segment)
    ensures AllFields(DropUnmapped(ParseSegmentSpec(segment)))
    ensures FlatRow(DropUnmapped(ParseSegmentSpec(segment))) == MergedRow(segment)
  {
    var kinds := Kinds(SegmentLines(segment));
    CleanedRecord(segment);
    SegmentProperties.Routing(kinds);
    var r := Run(kinds, Start);
    MainAndPackRow(r.mapping, r.pack);
  }

  /**
   * The row of a parsed and cleaned record: the main entries first, in
   * their order, then the packages labels the main section lacks; where a
   * label is in both, the packages value wins.
   */
  lemma ParsedRow(segment: string)
    requires Terminates(segment)
    ensures var r := Run(Kinds(SegmentLines(segment)), Start);
      var row := FlatRow(DropUnmapped(ParseSegmentSpec(segment)));
      && Keys(r.mapping) <= Keys(row)
      && KeySet(row) == KeySet(r.mapping) + KeySet(r.pack)
      && forall k :: Get(row, k) == if Get(r.pack, k).Some? then Get(r.pack, k) else Get(r.mapping, k)
  {
    var kinds := Kinds(SegmentLines(segment));
    CleanedRow(segment);
    SegmentProperties.Routing(kinds);
    var r := Run(kinds, Start);
    Merged(r.mapping, r.pack);
  }

  /** The row of a record made of a main section and, when not empty, a packages section. */
  lemma MainAndPackRow(main: Dict<string>, pack: Dict<string>)
    requires DistinctKeys(main)
    ensures FlatRow([(MainSection, Fields(main))] + (if pack != [] then [(PackSection, Fields(pack))] else [])) == PutAll(main, pack)
  {
    ItemsOfMainAndPack(main, pack);
    PutAllAppend([], main, pack);
    PutAllIntoEmpty(main);
  }

  /** Writing the packages entries over the main ones. */
  lemma Merged(main: Dict<string>, pack: Dict<string>)
    requires DistinctKeys(pack)
    ensures var row := PutAll(main, pack);
      && Keys(main) <= Keys(row)
      && KeySet(row) == KeySet(main) + KeySet(pack)
      && forall k :: Get(row, k) == if Get(pack, k).Some? then Get(pack, k) else Get(main, k)
  {
    forall k ensures LastValue(pack, k) == Get(pack, k) {
      LastValueOfDistinct(pack, k);
    }
  }

  lemma ItemsOfMainAndPack(main: Dict<string>, pack: Dict<string>)
    ensures Items([(MainSection, Fields(main))] + (if pack != [] then [(PackSection, Fields(pack))] else [])) == main + pack
  {
    var first: Record := [(MainSection, Fields(main))];
    assert first[..0] == [];
    assert Items(first) == main;
    if pack != [] {
      var rec := first + [(PackSection, Fields(pack))];
      assert rec[..1] == first;
    } else {
      assert first + [] == first;
      assert main + pack == main;
    }
  }

  /**
   * The whole pipeline on a text: parse, drop the unmapped values, flatten.
   * It fails exactly when the text has no header; otherwise row `n` comes
   * from segment `n`, as `ParsedRow` describes.
   */
  method ParseAndFlatten(text: string) returns (result: Result<seq<Row>, ParseError>)
    requires AllTerminate(Segments(text))
    ensures result.Err? <==> ParseArticles(text).Err?
    ensures result.Ok? ==> |result.value| == |Segments(text)|
    ensures result.Ok? ==> forall n :: 0 <= n < |result.value| ==> result.value[n] == MergedRow(Segments(text)[n])
  {
    var parsed := ParseArticles(text);
    if parsed.Err? {
      return Err(parsed.error);
    }
    var articles := parsed.value;
    var cleaned := seq(|articles|, n requires 0 <= n < |articles| => DropUnmapped(articles[n]));
    CleanedRows(Segments(text), cleaned);
    var rows := LoadAndFlatten(cleaned);
    return Ok(rows);
  }

  /** Each cleaned record holds dictionaries only, and its row is the merged row. */
  lemma CleanedRows(segments: seq<string>, cleaned: seq<Record>)
    requires AllTerminate(segments) && |cleaned| == |segments|
    requires forall n :: 0 <= n < |cleaned| ==> cleaned[n] == DropUnmapped(ParseSegmentSpec(segments[n]))
    ensures forall n :: 0 <= n < |cleaned| ==> AllFields(cleaned[n])
    ensures forall n :: 0 <= n < |cleaned| ==> FlatRow(cleaned[n]) == MergedRow(segments[n])
  {
    forall n | 0 <= n < |cleaned|
      ensures AllFields(cleaned[n]) && FlatRow(cleaned[n]) == MergedRow(segments[n])
    {
      CleanedRow(segments[n]);
    }
  }
}
