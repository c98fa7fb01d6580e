/**
 * The per-line rule of `prefix_mengeneinheit`, which runs over the tables'
 * text before parsing: a line whose first non-blank word is `Mengeneinheit`
 * (the unit of measure, a label the tables print without a field code) is
 * given the code `17w`, so that the parser sees it as a key.
 */
module Prefix {
  import opened Text
  import opened Wrappers
  import opened Patterns

  const UnitLabel := "Mengeneinheit"
  const UnitCode := "17w"

  /** One line, written back unchanged or as `17w ` followed by the line without its leading blanks. */
  function PrefixLine(line: string): (r: string)
    ensures |r| <= |line| + 4
    ensures r != line ==> UnitCode + " " + UnitLabel <= r
  {
    var stripped := LStrip(line);
    TrimStartSpec(line, Spaces);
    if UnitLabel <= stripped then
      assert (UnitCode + " " + stripped)[..17] == UnitCode + " " + stripped[..13];
      UnitCode + " " + stripped
    else line
  }

  /** A line the rule does not touch is written back as it was. */
  lemma PrefixLeavesOthers(line: string)
    requires !(UnitLabel <= LStrip(line))
    ensures PrefixLine(line) == line
  {
  }

  /**
   * A rewritten line is a key line of code `17w`: group 2 of KEY_RE is the
   * line without its leading blanks, and the label is the line stripped.
   */
  lemma PrefixMakesKey(line: string)
    requires '\n' !in line
    requires UnitLabel <= LStrip(line)
    ensures KeyRe(PrefixLine(line)) == Some(KeyMatch(UnitCode, Some(LStrip(line))))
    ensures Token(KeyRe(PrefixLine(line)).value) == KeyToken(UnitCode, Strip(line))
  {
    var stripped := LStrip(line);
    TrimStartSpec(line, Spaces);
    assert stripped[0] == 'M';
    var rest := " " + stripped;
    assert '\n' !in rest by {
      forall k | 0 <= k < |rest| ensures rest[k] != '\n' {
        if k > 0 {
          assert rest[k] == line[|line| - |stripped| + k - 1];
        }
      }
    }
    assert IsCode(UnitCode);
    KeyReComplete(UnitCode, rest);
    assert UnitCode + " " + stripped == UnitCode + rest;
    TrimStartPast(" ", stripped, Spaces);
    TrimStartTwice(line);
    assert Strip(stripped) != "" by {
      TrimStartPast([], stripped, Spaces);
      TrimEndSpec(stripped, Spaces);
    }
  }
}
