/**
 * `parse_articles`: split the text at the article headers and parse every
 * segment, failing when there is none; and the clean-up step of the
 * application, which drops the unmapped values of each record before the
 * records are flattened.
 */
module Articles {
  import opened Wrappers
  import opened Patterns
  import opened OrderedDict
  import opened Segmenter
  import opened SegmentParser

  /** The `ValueError` raised when no `17 POSITIONSDATEN` block is found. */
  datatype ParseError = NoPositionBlocks

  /** `parse_segment` ends on every segment. */
  predicate AllTerminate(segments: seq<string>)
  {
    forall n :: 0 <= n < |segments| ==> Terminates(segments[n])
  }

  /**
   * pdf_parser.py lines 144-148: an error exactly when the header occurs
   * nowhere in the text; otherwise one record per segment, in order.
   */
  function ParseArticles(text: string): (r: Result<seq<Record>, ParseError>)
    requires AllTerminate(Segments(text))
    ensures r.Err? <==> forall q :: 0 <= q <= |text| ==> HeaderMatchEnd(text, q).None?
    ensures r.Ok? ==> |r.value| == |HeaderStarts(text, 0)|
    ensures r.Ok? ==> forall n :: 0 <= n < |r.value| ==> r.value[n] == ParseSegmentSpec(Segments(text)[n])
  {
    var segments := Segments(text);
    NoSegmentsIffNoHeader(text);
    SegmentsAreSlices(text);
    if segments == [] then Err(NoPositionBlocks)
    else Ok(seq(|segments|, n requires 0 <= n < |segments| => ParseSegmentSpec(segments[n])))
  }

  /** Every record that `parse_articles` returns begins with the main section. */
  lemma ArticlesStartWithMain(text: string, n: nat)
    requires AllTerminate(Segments(text))
    requires ParseArticles(text).Ok? && n < |ParseArticles(text).value|
    ensures var rec := ParseArticles(text).value[n];
      |rec| >= 1 && rec[0].0 == MainSection && rec[0].1.Fields?
  {
  }

  /** main.py line 63: the record without its `_UNMAPPED_VALUES` entry, the order of the rest kept. */
  function DropUnmapped(rec: Record): (r: Record)
    ensures |r| <= |rec|
    ensures forall e :: e in r <==> e in rec && e.0 != UnmappedSection
    decreases |rec|
  {
    if rec == [] then []
    else (if rec[0].0 == UnmappedSection then [] else [rec[0]]) + DropUnmapped(rec[1..])
  }

  /** Every section is a dictionary of fields: what `load_and_flatten` needs. */
  predicate AllFields(rec: Record)
  {
    forall n :: 0 <= n < |rec| ==> rec[n].1.Fields?
  }

  /**
   * Once cleaned, a parsed record is its main section followed by its
   * packages section when that is not empty: only dictionaries remain.
   */
  lemma CleanedRecord(segment: string)
    requires Terminates(segment)
    ensures var r := Run(Kinds(SegmentLines(segment)), Start);
      && DropUnmapped(ParseSegmentSpec(segment))
         == [(MainSection, Fields(r.mapping))] + (if r.pack != [] then [(PackSection, Fields(r.pack))] else [])
      && AllFields(DropUnmapped(ParseSegmentSpec(segment)))
  {
    DropUnmappedOfRecord(Run(Kinds(SegmentLines(segment)), Start));
  }

  /** The clean-up leaves the main section and the packages section, if there is one. */
  lemma DropUnmappedOfRecord(st: ParserState)
    ensures DropUnmapped(BuildRecord(st))
      == [(MainSection, Fields(st.mapping))] + (if st.pack != [] then [(PackSection, Fields(st.pack))] else [])
    ensures AllFields(DropUnmapped(BuildRecord(st)))
  {
    var main: Record := [(MainSection, Fields(st.mapping))];
    var pack: Record := if st.pack != [] then [(PackSection, Fields(st.pack))] else [];
    var rest: Record := if st.pending != [] then [(UnmappedSection, Unmapped(st.pending))] else [];
    assert MainSection != UnmappedSection && PackSection != UnmappedSection;
    DropUnmappedAppend(main, pack + rest);
    DropUnmappedAppend(pack, rest);
    assert DropUnmapped(rest) == [];
    assert DropUnmapped(pack) == pack;
    assert (main + pack) + rest == main + (pack + rest);
  }

  lemma {:induction false} DropUnmappedAppend(a: Record, b: Record)
    ensures DropUnmapped(a + b) == DropUnmapped(a) + DropUnmapped(b)
    decreases |a|
  {
    if a != [] {
      assert (a + b)[1..] == a[1..] + b;
      DropUnmappedAppend(a[1..], b);
    } else {
      assert a + b == b;
    }
  }
}
