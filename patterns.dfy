/**
 * The three regular expressions of the parser, written out as predicates:
 *   KEY_RE             a field code `17`, `17.<digits>`, then one letter, and an optional label
 *   PACK_HEADER_RE     the packages sub-header, `17[.<digits>] PACKSTÜCKE`
 *   SEGMENT_HEADER_RE  the article header, `17 POSITIONSDATEN`, after at most one quote
 * Each is matched the way Python's `re.match` does it: anchored at one position.
 */
module Patterns {
  import opened Wrappers
  import opened Text

  /** Index just past the run of characters of one kind that starts at `i`. */
  function SkipDigits(s: string, i: nat): (j: nat)
    requires i <= |s|
    ensures i <= j <= |s|
    decreases |s| - i
  {
    if i < |s| && IsDigit(s[i]) then SkipDigits(s, i + 1) else i
  }

  function SkipSpaces(s: string, i: nat): (j: nat)
    requires i <= |s|
    ensures i <= j <= |s|
    decreases |s| - i
  {
    if i < |s| && IsSpace(s[i]) then SkipSpaces(s, i + 1) else i
  }

  /**
   * `17(?:\.\d+)?` at the start of `s`: the index just past it. The digit run
   * is maximal; matching fewer digits never helps, since a digit is neither a
   * letter nor whitespace, which is what both patterns expect next.
   */
  function NumberEnd(s: string): Option<nat>
  {
    if |s| >= 2 && s[0] == '1' && s[1] == '7' then
      if |s| >= 4 && s[2] == '.' && IsDigit(s[3]) then Some(SkipDigits(s, 3)) else Some(2)
    else None
  }

  /** Groups 1 and 2 of a match of KEY_RE: the code, and the label text if the optional group took part. */
  datatype KeyMatch = KeyMatch(code: string, rest: Option<string>)

  /**
   * `KEY_RE.match(line)`, KEY_RE being `^(17(?:\.\d+)?[A-Za-z])(?:\s+(.*))?$`.
   * After the code, either the line ends, or whitespace follows and group 2
   * is what remains after the whitespace run; `.` stops at a newline and `$`
   * also matches just before a final newline.
   */
  function KeyRe(line: string): (r: Option<KeyMatch>)
    ensures r.Some? ==> r.value.code <= line && |r.value.code| >= 3 && IsLetter(r.value.code[|r.value.code| - 1])
    ensures r.Some? && r.value.rest.Some? ==> '\n' !in r.value.rest.value
  {
    match NumberEnd(line)
    case None => None
    case Some(n) =>
      if n < |line| && IsLetter(line[n]) then
        var code := line[..n + 1];
        if n + 1 == |line| then Some(KeyMatch(code, None))
        else if IsSpace(line[n + 1]) then
          var text := line[SkipSpaces(line, n + 1)..];
          if '\n' !in text then Some(KeyMatch(code, Some(text)))
          else if text[|text| - 1] == '\n' && '\n' !in text[..|text| - 1] then Some(KeyMatch(code, Some(text[..|text| - 1])))
          else None
        else None
      else None
  }

  predicate IsKeyLine(line: string)
  {
    KeyRe(line).Some?
  }

  /** A key as the parser keeps it: its code and its label. */
  datatype KeyToken = KeyToken(code: string, name: string)

  /** The label is group 2 stripped, or the code when that is missing or blank. */
  function Token(m: KeyMatch): (t: KeyToken)
    ensures t.code == m.code
    ensures m.code != "" ==> t.name != ""
    ensures t.name != m.code ==> m.rest.Some? && t.name == Strip(m.rest.value)
  {
    var name := if m.rest.Some? && Strip(m.rest.value) != "" then Strip(m.rest.value) else m.code;
    KeyToken(m.code, name)
  }

  /** `17`, optionally `.` and one or more digits, then one letter: the shape of group 1. */
  predicate IsCode(c: string)
  {
    && |c| >= 3 && c[0] == '1' && c[1] == '7' && IsLetter(c[|c| - 1])
    && (|c| == 3 || (|c| >= 5 && c[2] == '.' && forall k :: 3 <= k < |c| - 1 ==> IsDigit(c[k])))
  }

  /** `s[at..]` starts with `lit` when both are upper-cased; `lit` is upper case already. */
  predicate MatchesIgnoringCase(s: string, at: nat, lit: string)
  {
    at + |lit| <= |s| && forall k :: 0 <= k < |lit| ==> Upper(s[at + k]) == lit[k]
  }

  /** `\b` just after a word character at `e - 1`. */
  predicate IsBoundary(s: string, e: nat)
  {
    e >= |s| || !IsWordChar(s[e])
  }

  /** `[ÜU]` under IGNORECASE. */
  predicate IsUmlautU(c: char)
  {
    c == 'U' || c == 'u' || c == '\U{DC}' || c == '\U{FC}'
  }

  /** `PACK_HEADER_RE.match(line)`, PACK_HEADER_RE being `^(17(?:\.\d+)?)\s+PACKST[ÜU]CKE\b` under IGNORECASE. */
  predicate IsPackHeader(line: string)
    ensures IsPackHeader(line) ==> |line| >= 13 && line[..2] == "17"
  {
    match NumberEnd(line)
    case None => false
    case Some(n) =>
      && n < |line| && IsSpace(line[n])
      && var k := SkipSpaces(line, n);
      && MatchesIgnoringCase(line, k, "PACKST")
      && k + 6 < |line| && IsUmlautU(line[k + 6])
      && MatchesIgnoringCase(line, k + 7, "CKE")
      && IsBoundary(line, k + 10)
  }

  /**
   * Where a match of SEGMENT_HEADER_RE, `(?im)^\s*"?\s*17 POSITIONSDATEN\b`,
   * that starts at `p` ends. `^` holds at the start and after each `\n`;
   * `\s*` may run across lines. The literal can start at one place only: just
   * past the first whitespace run, or past the quote that follows it and the
   * whitespace after that.
   */
  function HeaderMatchEnd(text: string, p: nat): (e: Option<nat>)
    requires p <= |text|
    ensures e.Some? ==> p < e.value <= |text|
  {
    if p > 0 && text[p - 1] != '\n' then None
    else
      var a := SkipSpaces(text, p);
      var b := if a < |text| && text[a] == '"' then a + 1 else a;
      var c := SkipSpaces(text, b);
      if MatchesIgnoringCase(text, c, "17 POSITIONSDATEN") && IsBoundary(text, c + 17) then Some(c + 17) else None
  }

  /** `SEGMENT_HEADER_RE.match(line)` */
  predicate IsSegmentHeader(line: string)
    ensures IsSegmentHeader(line) ==> |line| >= 17
  {
    HeaderMatchEnd(line, 0).Some?
  }

  /** A line that the value loops collect: not a key, not a segment header, not a packages header. */
  predicate IsValueLine(line: string)
  {
    !IsKeyLine(line) && !IsSegmentHeader(line) && !IsPackHeader(line)
  }

  /** `line.upper().startswith("17 POSITIONSDATEN")`, the test that drops the first line of a segment. */
  predicate StartsWithHeaderWords(line: string)
    ensures StartsWithHeaderWords(line) ==> |line| >= 17 && line[..2] == "17"
  {
    var m := MatchesIgnoringCase(line, 0, "17 POSITIONSDATEN");
    var h := "17 POSITIONSDATEN";
    assert m ==> Upper(line[0 + 0]) == h[0] && Upper(line[0 + 1]) == h[1];
    assert m ==> line[..2] == [line[0], line[1]];
    m
  }

  // ---------------------------------------------------------------------
  // Properties of the patterns

  /** No line is both a key and a packages header: after the number, one wants a letter, the other whitespace. */
  lemma KeyAndPackDisjoint(line: string)
    ensures !(IsKeyLine(line) && IsPackHeader(line))
  {
  }

  /** A segment header line is neither a key line nor a packages header. */
  lemma SegmentHeaderIsNeither(line: string)
    requires IsSegmentHeader(line)
    ensures !IsKeyLine(line) && !IsPackHeader(line)
  {
    var a := SkipSpaces(line, 0);
    var b := if a < |line| && line[a] == '"' then a + 1 else a;
    var c := SkipSpaces(line, b);
    var lit := "17 POSITIONSDATEN";
    assert Upper(line[c + 0]) == lit[0] && Upper(line[c + 1]) == lit[1];
    assert Upper(line[c + 2]) == lit[2] && Upper(line[c + 3]) == lit[3] && Upper(line[c + 4]) == lit[4];
    if c == 0 {
      assert NumberEnd(line) == Some(2);
      assert !IsSpace(line[3]);
      assert SkipSpaces(line, 2) == 3;
      assert Upper(line[3 + 1]) != "PACKST"[1];
    } else {
      assert IsSpace(line[0]) || line[0] == '"';
    }
  }

  lemma {:induction false} SkipDigitsOverRun(s: string, i: nat, j: nat)
    requires i <= j <= |s|
    requires forall k :: i <= k < j ==> IsDigit(s[k])
    requires j == |s| || !IsDigit(s[j])
    ensures SkipDigits(s, i) == j
    decreases j - i
  {
    if i < j {
      SkipDigitsOverRun(s, i + 1, j);
    }
  }

  lemma {:induction false} SkipSpacesIsTrim(s: string, i: nat)
    requires i <= |s|
    ensures s[SkipSpaces(s, i)..] == TrimStart(s[i..], Spaces)
    decreases |s| - i
  {
    if i < |s| && IsSpace(s[i]) {
      SkipSpacesIsTrim(s, i + 1);
      assert s[i..][1..] == s[i + 1..];
    }
  }

  lemma {:induction false} SkipDigitsAllDigits(s: string, i: nat)
    requires i <= |s|
    ensures forall k :: i <= k < SkipDigits(s, i) ==> IsDigit(s[k])
    ensures SkipDigits(s, i) == |s| || !IsDigit(s[SkipDigits(s, i)])
    decreases |s| - i
  {
    if i < |s| && IsDigit(s[i]) {
      SkipDigitsAllDigits(s, i + 1);
    }
  }

  /**
   * What KEY_RE accepts, read back: a code of the right shape, then either
   * nothing or whitespace, and group 2 is the rest after that whitespace.
   */
  lemma KeyReSound(line: string)
    requires '\n' !in line
    requires IsKeyLine(line)
    ensures var m := KeyRe(line).value;
      && IsCode(m.code) && m.code <= line
      && var rest := line[|m.code|..];
      && (rest == [] ==> m.rest == None)
      && (rest != [] ==> IsSpace(rest[0]) && m.rest == Some(TrimStart(rest, Spaces)))
  {
    var n := NumberEnd(line).value;
    if n > 2 {
      SkipDigitsAllDigits(line, 3);
    }
    if n + 1 < |line| {
      SkipSpacesIsTrim(line, n + 1);
      var text := line[SkipSpaces(line, n + 1)..];
      assert '\n' !in text by {
        forall k | 0 <= k < |text| ensures text[k] != '\n' {
          assert text[k] == line[SkipSpaces(line, n + 1) + k];
        }
      }
    }
  }

  /** Conversely, every such line matches KEY_RE, with those groups. */
  lemma KeyReComplete(code: string, rest: string)
    requires IsCode(code)
    requires rest == [] || IsSpace(rest[0])
    requires '\n' !in rest
    ensures KeyRe(code + rest) == Some(KeyMatch(code, if rest == [] then None else Some(TrimStart(rest, Spaces))))
  {
    var line := code + rest;
    var n := |code| - 1;
    assert line[..n + 1] == code;
    if |code| > 3 {
      SkipDigitsOverRun(line, 3, n);
    }
    assert NumberEnd(line) == Some(n);
    if rest != [] {
      SkipSpacesIsTrim(line, n + 1);
      assert line[n + 1..] == rest;
      var text := line[SkipSpaces(line, n + 1)..];
      assert '\n' !in text by {
        forall k | 0 <= k < |text| ensures text[k] != '\n' {
          assert text[k] == rest[SkipSpaces(line, n + 1) - (n + 1) + k];
        }
      }
    }
  }

  lemma TrimStartTwice(s: string)
    ensures TrimStart(TrimStart(s, Spaces), Spaces) == TrimStart(s, Spaces)
  {
    TrimStartSpec(s, Spaces);
  }

  /** The label of a key line is its trimmed remainder, or the code itself when that is blank. */
  lemma KeyLabel(line: string)
    requires '\n' !in line
    requires IsKeyLine(line)
    ensures var t := Token(KeyRe(line).value);
      var rest := Strip(line[|t.code|..]);
      t.name == if rest == "" then t.code else rest
  {
    KeyReSound(line);
    var m := KeyRe(line).value;
    var rest := line[|m.code|..];
    if rest != [] {
      TrimStartTwice(rest);
    }
  }

  /** The packages header of the tables, with the umlaut, matches PACK_HEADER_RE. */
  lemma PackHeaderWithUmlaut()
    ensures IsPackHeader("17.1 PACKST\U{DC}CKE")
  {
    var a := "17.1 PACKST\U{DC}CKE";
    assert NumberEnd(a) == Some(4);
    assert SkipSpaces(a, 4) == 5;
    assert MatchesIgnoringCase(a, 5, "PACKST") by {
      forall k | 0 <= k < 6 ensures Upper(a[5 + k]) == "PACKST"[k] {
      }
    }
    assert MatchesIgnoringCase(a, 12, "CKE") by {
      forall k | 0 <= k < 3 ensures Upper(a[12 + k]) == "CKE"[k] {
      }
    }
  }

  /** Without the umlaut and in lower case it matches too: the pattern ignores case. */
  lemma PackHeaderPlainLowerCase()
    ensures IsPackHeader("17 packstucke")
  {
    var b := "17 packstucke";
    assert NumberEnd(b) == Some(2);
    assert SkipSpaces(b, 2) == 3;
    assert MatchesIgnoringCase(b, 3, "PACKST") by {
      forall k | 0 <= k < 6 ensures Upper(b[3 + k]) == "PACKST"[k] {
      }
    }
    assert MatchesIgnoringCase(b, 10, "CKE") by {
      forall k | 0 <= k < 3 ensures Upper(b[10 + k]) == "CKE"[k] {
      }
    }
  }

  /** The spelling with `UE` for the umlaut does not match PACK_HEADER_RE: `[ÜU]` stands for one letter. */
  lemma PackHeaderNeedsOneLetter()
    ensures !IsPackHeader("17 PACKSTUECKE")
  {
    var c := "17 PACKSTUECKE";
    assert SkipSpaces(c, 2) == 3;
    assert Upper(c[10 + 0]) != "CKE"[0];
  }
}
