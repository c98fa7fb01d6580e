# e-VD PDF parser: the text-to-table core

This project models the core of the e-VD PDF parser. The application reads
an electronic accompanying document (e-VD / v-e-VD) of the German excise
system from a PDF, and the core turns the extracted text into one table row
per article (`17 POSITIONSDATEN` block):

1. `split_into_segments` cuts the raw text at every article header
   (`SEGMENT_HEADER_RE`). The text before the first header belongs to no
   segment.
2. `parse_segment` reads one segment line by line:
   - each line is normalized, and lines that end up empty are dropped;
   - the header line is dropped;
   - runs of key lines (`17a Label`, `17.1b Label`, matched by `KEY_RE`)
     are paired, in order, with the values still pending followed by the
     run of value lines after them;
   - a key with no value left gets "", and surplus values stay pending;
   - keys whose code starts with `17.1` go to the `PACKSTÜCKE` dictionary,
     all others to the main one;
   - packages header lines (`PACK_HEADER_RE`) are skipped;
   - values no key took end up under `_UNMAPPED_VALUES`.
3. `parse_articles` parses every segment, and fails when there is none.
4. The application drops `_UNMAPPED_VALUES` from every record.
5. `load_and_flatten` writes the sections of each record, one after
   another, into one dictionary per row.

The pre-processing rule of `prefix_mengeneinheit` is modelled too. It turns
a line starting with `Mengeneinheit` into the key line `17w Mengeneinheit…`.

## Modules

- `Wrappers`: `Option` and `Result`.
- `Text`: Python's `isspace`, `strip`, `lstrip`, `strip('"')`, `upper` and
  `splitlines`, and `normalize_line`.
- `Patterns`: the three regular expressions as predicates.
  - `KeyRe` returns the two groups of a `KEY_RE` match.
  - `HeaderMatchEnd` gives where a `SEGMENT_HEADER_RE` match starting at an
    offset ends.
- `Prefix`: the per-line rule of `prefix_mengeneinheit`.
- `OrderedDict`: a Python `dict` as an insertion-ordered list of pairs.
  Assigning to a present key keeps its place; a new key goes at the end.
- `Segmenter`: `finditer` and `split_into_segments`.
- `SegmentParser`: `parse_segment`.
  - It is specified as a state machine. `Step` is one pass of the outer
    loop and `Run` iterates it.
  - The method `ParseSegment` is proved equal to that state machine.
  - The method works on the kind of each line (`Classify`): the three
    regular expressions tested once per line.
- `SegmentProperties`: what the parser promises.
- `Termination`: when the loop of `parse_segment` ends, and a segment on
  which it never does.
- `Articles`: `parse_articles` and the removal of `_UNMAPPED_VALUES`.
- `Flattener`: `load_and_flatten` and the whole pipeline.

## Model

| member | source | states |
|---|---|---|
| Text.TrimStartSpec | pdf_parser.py:54 | `strip` from the left removes exactly the longest prefix of padding characters; what is left starts with a non-padding character or is empty |
| Text.TrimEndSpec | pdf_parser.py:54 | the same from the right |
| Text.NormalizeLine | pdf_parser.py:53-54 | a normalized line neither starts nor ends with whitespace |
| Text.NormalizeLineIsSlice | pdf_parser.py:53-54 | a normalized line is a contiguous piece of the original; everything cut away on either side is whitespace or `"` |
| Text.NormalizeNormal | pdf_parser.py:53-54 | a line that neither starts nor ends with whitespace or a quote is left unchanged |
| Text.NormalizeNotIdempotent | pdf_parser.py:53-54 | normalizing is not idempotent: `" "x` normalizes to `"x`, which normalizes to `x` |
| Text.NormalizeQuotedLabel | pdf_parser.py:53-54 | a quoted, space-padded cell such as `"  Mengeneinheit  "` normalizes to the bare label |
| Text.ReplaceCarriageReturns | pdf_parser.py:77 | same length, no `\r` left, every `\r` replaced by `\n` and every other character kept |
| Text.SplitLinesHaveNoBreak | pdf_parser.py:77 | no line produced by `splitlines` holds a line-break character |
| Text.SplitLinesKeepsText | pdf_parser.py:77 | the lines, joined together, are the text without its line breaks: nothing else is lost or added |
| Text.SplitLines | pdf_parser.py:77 | `splitlines` gives no lines exactly when the text is empty |
| Text.SplitLinesRoundTrip | pdf_parser.py:77 | the lines joined with `\n`, plus one `\n` when the text ends with a break, are the text with every line break written as `\n`: the split cuts exactly at the breaks |
| Text.BreaksAsNewlinesAtBreak | pdf_parser.py:77 | up to its first line break a text is kept as it is, and the break becomes `\n` |
| Patterns.KeyRe | pdf_parser.py:47 | a match's code is a prefix of the line of at least three characters ending in a letter; the label group never spans a line feed |
| Patterns.Token | pdf_parser.py:100-101 | the code is the match's code; the label is never empty; when it differs from the code it is the stripped label group |
| Patterns.IsPackHeader | pdf_parser.py:49 | a packages header starts with `17` and has at least 13 characters |
| Patterns.PackHeaderWithUmlaut | pdf_parser.py:48-49 | `17.1 PACKSTÜCKE` is a packages header |
| Patterns.PackHeaderPlainLowerCase | pdf_parser.py:48-49 | `17 packstucke` is a packages header: the pattern ignores case and accepts `U` for `Ü` |
| Patterns.PackHeaderNeedsOneLetter | pdf_parser.py:48-49 | `17 PACKSTUECKE` is not a packages header, whatever the comment above the pattern says |
| Patterns.HeaderMatchEnd | pdf_parser.py:50 | a header match ends after its start and inside the text |
| Patterns.IsSegmentHeader | pdf_parser.py:50 | a line that matches the article header has at least 17 characters |
| Patterns.StartsWithHeaderWords | pdf_parser.py:80 | a line whose upper-cased form starts with `17 POSITIONSDATEN` starts with `17` and has at least 17 characters |
| Patterns.KeyAndPackDisjoint | pdf_parser.py:47-49 | no line is both a key line and a packages header |
| Patterns.SegmentHeaderIsNeither | pdf_parser.py:47-50 | a line that matches the article header is neither a key line nor a packages header |
| Patterns.KeyReSound | pdf_parser.py:47 | a `KEY_RE` match yields a code of the form `17`, optional `.digits`, one letter, which is a prefix of the line; the label group is absent exactly when nothing follows the code, and otherwise is the rest after the whitespace |
| Patterns.KeyReComplete | pdf_parser.py:47 | every code followed by nothing or by whitespace and any text matches, with exactly those groups |
| Patterns.KeyLabel | pdf_parser.py:97-101 | a key's label is the stripped rest of the line, or the code when that is empty |
| Patterns.SkipSpacesIsTrim | pdf_parser.py:47 | `\s+` in the pattern consumes exactly what `lstrip` removes |
| Prefix.PrefixLeavesOthers | pdf_parser.py:38-42 | a line that does not start with `Mengeneinheit` after leading whitespace is written unchanged |
| Prefix.PrefixLine | pdf_parser.py:38-42 | the line is written unchanged, or it begins with `17w Mengeneinheit` and grows by at most the four characters of `17w ` |
| Prefix.PrefixMakesKey | pdf_parser.py:38-40 | a `Mengeneinheit` line becomes a key line with code `17w` and label `Mengeneinheit…`, the line stripped |
| OrderedDict.Put | pdf_parser.py:128-130 | `d[k] = v`: `k` now maps to `v`; every other key is unchanged; an existing key keeps its position and a new one is appended; distinct keys stay distinct |
| OrderedDict.PutAll | pdf_parser.py:161-164 | writing pairs in order: the old keys keep their order; the keys are the old ones plus the pairs'; each key holds the last value written to it, else its old value |
| OrderedDict.PutAllIntoEmpty | pdf_parser.py:159-164 | copying a dictionary's items into an empty one gives the same dictionary |
| OrderedDict.PutAllAppend | pdf_parser.py:160-164 | writing two runs of pairs is writing the first, then the second |
| OrderedDict.LastValueOfDistinct | pdf_parser.py:161 | in a dictionary, the last value listed for a key is its value |
| Segmenter.HeaderStarts | pdf_parser.py:59 | the offsets `finditer` reports are inside the text and strictly increasing |
| Segmenter.StartsAreMatches | pdf_parser.py:59 | each offset starts a header match, and the match ends at or before the next offset |
| Segmenter.NoStartsIffNoMatch | pdf_parser.py:59-61 | `finditer` finds nothing exactly when no header match starts anywhere |
| Segmenter.Segments | pdf_parser.py:57-66 | one segment per header match, none of them empty |
| Segmenter.SplitIntoSegments | pdf_parser.py:57-66 | the loop returns one slice per match, each from its match to the next match or the end of the text |
| Segmenter.SegmentsAreSlices | pdf_parser.py:63-65 | as many segments as matches; segment `n` runs from match `n` to match `n+1`; the last runs to the end of the text |
| Segmenter.NoSegmentsIffNoHeader | pdf_parser.py:59-61 | there are no segments exactly when the header occurs nowhere |
| Segmenter.SegmentsTile | pdf_parser.py:63-65 | the segments, concatenated, are the text from the first header on: nothing is lost or duplicated |
| Segmenter.SegmentStartsWithHeader | pdf_parser.py:58 | every segment starts with a line that matches the article header (the docstring's promise) |
| SegmentParser.NonEmptyNormalized | pdf_parser.py:77 | no kept line is empty, and no more lines are kept than there were |
| SegmentParser.NonEmptyNormalizedAppend | pdf_parser.py:77 | the comprehension works line by line: on two runs of lines it keeps what it keeps of the first, then what it keeps of the second |
| SegmentParser.NonEmptyNormalizedKeeps | pdf_parser.py:77 | a string is kept exactly when it is not empty and is the normalization of some line |
| SegmentParser.SegmentLines | pdf_parser.py:77-81 | the lines the loop sees are no more than the kept lines, and none is empty |
| SegmentParser.Classify | pdf_parser.py:89-114 | a line is a packages header, a key line, an article header or a value line exactly when the corresponding pattern test of the loop says so; a key line carries its match's code and label, a value line its text |
| SegmentParser.Kinds | pdf_parser.py:87-114 | every line is classified, in order |
| SegmentParser.KeyRunEnd | pdf_parser.py:96-103 | the key loop stops at the first line that is not a key line, after a run of key lines only |
| SegmentParser.ValueRunEnd | pdf_parser.py:107-109 | the value loops stop at the first key line, header or packages header, after a run of value lines only |
| SegmentParser.Step | pdf_parser.py:87-133 | one pass of the loop never moves the cursor back; it makes progress exactly when the current line is not an article header, and otherwise changes nothing |
| SegmentParser.Run | pdf_parser.py:87-133 | when no line is an article header, the loop ends with the cursor at the end of the lines |
| SegmentParser.CollectKeys | pdf_parser.py:95-103 | the method reads the maximal run of key lines and collects their keys in order |
| SegmentParser.CollectValues | pdf_parser.py:113-116 | the method reads the maximal run of value lines and collects their texts in order |
| SegmentParser.AssignGroup | pdf_parser.py:122-130 | key `idx` is written with value `idx`, or with "" past the last value, into the packages or the main dictionary by its code |
| SegmentParser.ParsePass | pdf_parser.py:88-133 | one pass of the source's loop body computes the state machine's step |
| SegmentParser.Route | pdf_parser.py:127-130 | writing a key group loses no key of either dictionary |
| SegmentParser.BuildRecord | pdf_parser.py:135-141 | the record starts with the main section, holding the main dictionary |
| SegmentParser.ParseSegment | pdf_parser.py:69-141 | the source's loop computes the record of the state machine |
| SegmentParser.RunUnfold | pdf_parser.py:87 | one more iteration of the loop leaves its outcome unchanged |
| SegmentProperties.StallOnHeader | pdf_parser.py:106-110 | on an article-header line, a pass changes nothing, so the loop never ends |
| SegmentProperties.StrayHeaderExample | pdf_parser.py:50 | a line `""17 POSITIONSDATEN` escapes both the segment split and the first-line drop, yet normalizes to a header line: this input makes `parse_segment` loop forever |
| Termination.StepStopsAtHeader | pdf_parser.py:87-116 | no pass of the loop moves the cursor past an article-header line |
| Termination.Iterate | pdf_parser.py:87 | after any number of passes the cursor is between where it started and the end of the lines |
| Termination.NeverPastHeader | pdf_parser.py:87-133 | with an article-header line at or after the cursor, no number of passes gets the cursor past it |
| Termination.IterateReachesRun | pdf_parser.py:87-133 | without such a line, as many passes as there are lines left end the loop in the state `Run` describes |
| Termination.LoopEndsIffTerminates | pdf_parser.py:87-133 | the loop ends after some number of passes exactly when `Terminates` holds, so that condition is both sufficient and necessary |
| Termination.StraySegmentHangs | pdf_parser.py:57-110 | the text `17 POSITIONSDATEN` + line feed + `""17 POSITIONSDATEN` is one whole segment, yet `parse_segment` never returns on it: the cursor stays at 0 whatever the number of passes |
| Termination.HangsOnHeaderLine | pdf_parser.py:87-110 | a segment whose only line the loop sees is an article header never ends |
| Termination.OneSegment | pdf_parser.py:59-65 | that text splits into itself alone |
| Termination.StrayLinesOfSegment | pdf_parser.py:77-81 | of that text, the loop sees only the header words, from its second line |
| SegmentProperties.SegmentLinesHaveNoBreak | pdf_parser.py:77 | no line the loop sees holds a line break |
| SegmentProperties.SegmentKey | pdf_parser.py:97-102 | a key line of a segment yields a well-formed code that is a prefix of the line, and the label is the stripped rest of the line, or the code when that is empty |
| SegmentProperties.TakenAndLeft | pdf_parser.py:133 | the values available to a key run are those its keys take followed by those left pending |
| SegmentProperties.StepConserves | pdf_parser.py:105-133 | in one pass, the pending values followed by the value lines read are the values consumed followed by the new pending values |
| SegmentProperties.ConservationFrom | pdf_parser.py:87-133 | from any state on, the same holds for the rest of the loop |
| SegmentProperties.Conservation | pdf_parser.py:105-140 | every value line of a segment is taken by a key or ends up among the unmapped values, in its original order; none is lost, duplicated or reordered |
| SegmentProperties.StepCarryOver | pdf_parser.py:119-133 | with `K` keys and `V` available values, the keys take `min(K, V)` values; the rest stays pending in order; nothing is pending exactly when `V <= K` |
| SegmentProperties.RouteKeys | pdf_parser.py:127-130 | writing a key group adds to each dictionary exactly the labels routed to it; existing keys keep their order; distinct keys stay distinct |
| SegmentProperties.StepKeys | pdf_parser.py:87-133 | one pass adds to each dictionary exactly the labels of the key lines it reads that route there |
| SegmentProperties.RunKeysFrom | pdf_parser.py:87-133 | the same for the rest of the loop |
| SegmentProperties.Routing | pdf_parser.py:127-130 | the packages dictionary holds exactly the labels of `17.1…` keys, the main one exactly the labels of the other keys, wherever they stand in the segment |
| SegmentProperties.RecordShape | pdf_parser.py:135-141 | the main section comes first and is always present; the packages section is present exactly when some key starts with `17.1`; `_UNMAPPED_VALUES` is present exactly when values are left |
| SegmentProperties.RouteLastWrite | pdf_parser.py:122-130 | a pair not followed by another with its label leaves its value in the dictionary its code selects |
| SegmentProperties.GroupValue | pdf_parser.py:119-130 | zip with padding: key `idx` of a run gets value `idx` of the pending values followed by the new values, or "" |
| SegmentProperties.StepKeepsValueLines | pdf_parser.py:105-130 | every stored value stays either a line the value loops collect or "" |
| SegmentProperties.RunKeepsValueLines | pdf_parser.py:87-133 | the same over the rest of the loop |
| SegmentProperties.PackHeaderNeverStored | pdf_parser.py:89-92 | a packages header is never stored, neither as a field value nor as an unmapped value |
| Articles.ParseArticles | pdf_parser.py:144-148 | an error exactly when no header matches anywhere in the text; otherwise one record per header match, record `n` being the parse of segment `n` |
| Articles.ArticlesStartWithMain | pdf_parser.py:135-148 | every record begins with the main section |
| Articles.DropUnmapped | main.py:63 | the entries kept are exactly those not named `_UNMAPPED_VALUES` |
| Articles.CleanedRecord | main.py:63 | once cleaned, a parsed record is the main dictionary followed by the packages dictionary when that is not empty, so it holds dictionaries only |
| Articles.DropUnmappedOfRecord | main.py:63 | a record built by the loop, cleaned, is its main section followed by its packages section when that is not empty; it holds dictionaries only |
| Articles.DropUnmappedAppend | main.py:63 | the filter works entry by entry |
| Flattener.LoadAndFlatten | pdf_parser.py:151-168 | one row per record, in the order of the records |
| Flattener.FlattenRecord | pdf_parser.py:158-165 | a record's row is all its sections' entries written, in order, into an empty dictionary |
| Flattener.WriteSection | pdf_parser.py:160-164 | the loop over one section writes its entries in order |
| Flattener.Columns | pdf_parser.py:167 | the table's columns hold every label of every row, and only those |
| Flattener.FlatRow | pdf_parser.py:158-165 | the row built for a record is a dictionary: no label occurs twice |
| Flattener.FlatRowEntries | pdf_parser.py:158-165 | a row has a label exactly when some section of its record has it, with the last value written to it; its labels are distinct |
| Flattener.CleanedRow | main.py:63-65 | a cleaned record can be flattened, and its row is the packages entries written over the main entries |
| Flattener.ParsedRow | main.py:61-65 | the row of an article keeps the main labels first, in order; it holds exactly the main and packages labels; where a label is in both, the packages value wins |
| Flattener.MainAndPackRow | pdf_parser.py:158-165 | flattening a main dictionary and an optional packages dictionary writes the packages entries over the main ones |
| Flattener.Merged | pdf_parser.py:161-164 | writing the packages over the main entries keeps the main order, unites the labels, and lets the packages value win |
| Flattener.ParseAndFlatten | main.py:61-65 | the pipeline fails exactly when parsing does; otherwise it gives one row per segment, the row of segment `n` being its merged row |

## Left out

- `read_and_store_to_csv` (pdf_parser.py:9-25) is out: the PDF table extraction with camelot and the CSV writing are I/O.
- `prefix_mengeneinheit` (pdf_parser.py:27-42): only its per-line rule is modelled. File handling and the line terminators the file loop keeps are left out.
- `dataframe_to_excel_bytes` (pdf_parser.py:171-178) is out: Excel output is I/O.
- The pandas DataFrame itself is left out. `Columns` gives its columns as a set; their order and the NaN filling of missing cells (pdf_parser.py:167) are not modelled.
- pdf_parser.py:181-868 is out: it holds only commented-out earlier versions.
- From main.py, only the removal of `_UNMAPPED_VALUES` is modelled. The Streamlit UI, the secrets, `modify_csv` and `process_dataframe` are not part of this model.
- Character classes are modelled as follows:
  - `\d`, `[A-Za-z]`, `upper()` and `lower()` act on ASCII. Python's Unicode digits, the case folding of non-ASCII letters under `re.IGNORECASE` (e.g. the Kelvin sign) and upper-casing that changes length (`ß`) are not modelled.
  - `\s` and `strip()` use Python's whitespace set.
  - `\b` uses letters, digits, `_` and the Latin-1 letters.
  - `splitlines` uses Python's line-break set.
- ParseSegment: demands `Terminates`, that no line it keeps matches `SEGMENT_HEADER_RE`.
  - On such a line the source loops forever (`StallOnHeader`, `LoopEndsIffTerminates`, `StraySegmentHangs`), so there is no result to model.
- ParseArticles: demands `AllTerminate`, for the same reason.
- ParseAndFlatten: demands `AllTerminate`, for the same reason.
- LoadAndFlatten: demands that every section of every record is a dictionary (`AllFields`). On an `_UNMAPPED_VALUES` list the source would raise AttributeError at `.items()` (pdf_parser.py:161); its one caller, main.py:63, removes those lists first.
- IsPackCode: treats `code.lower()` (pdf_parser.py:127) as the code itself. The prefix `17.1` has no letters, so lower-casing cannot change whether it matches.

## Behaviour of the code worth knowing

- Routing to `PACKSTÜCKE` depends only on the key's code (`17.1…`). A packages header line before the keys plays no part: `parse_segment` only skips it.
- PACK_HEADER_RE needs whitespace between the number and the word, and accepts `PACKSTÜCKE` or `PACKSTUCKE`. Despite the comment at pdf_parser.py:48, `PACKSTUECKE` does not match.
- A kept line that `normalize_line` turns into an article header, but that neither the split nor the first-line test removed, stops the loop of `parse_segment`: on such a line `parse_segment` never returns.
