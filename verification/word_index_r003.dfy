/** Get_word_index/Temp/word_index_output_R003.py: an indented outline of a Word document
    from its `Heading N` and `TOC N` paragraphs, whose text is rebuilt from the paragraph's
    runs (so that page numbers in separate runs survive) and then cleaned of dot leaders and
    repeated whitespace. */
module WordIndexR003 {
  import opened Wrappers
  import opened PyStr
  import opened Passes
  import opened Docx
  import opened StyleLevels
  import opened TocTails

  /** No three dots in a row. */
  predicate NoTripleDot(s: string) {
    forall i :: 0 <= i < |s| - 2 ==> !(s[i] == '.' && s[i + 1] == '.' && s[i + 2] == '.')
  }

  /** No two whitespace characters in a row. */
  predicate NoDoubleSpace(s: string) {
    forall i :: 0 <= i < |s| - 1 ==> !(IsSpace(s[i]) && IsSpace(s[i + 1]))
  }

  predicate NotDot(c: char) {
    c != '.'
  }

  predicate NotSpace(c: char) {
    !IsSpace(c)
  }

  /** Characters that neither substitution of `clean_toc_joined` touches. */
  predicate Solid(c: char) {
    c != '.' && !IsSpace(c)
  }

  /** The number of dots `s` starts with. */
  function LeadingDotCount(s: string): (n: nat)
    ensures n <= |s| && AllDots(s[..n])
    ensures n < |s| ==> s[n] != '.'
  {
    if s != [] && s[0] == '.' then
      var n := 1 + LeadingDotCount(s[1..]);
      assert s[..n] == [s[0]] + s[1..][..n - 1];
      n
    else 0
  }

  /** Gluing two strings without three dots in a row gives none, when neither window of
      three that straddles the seam is all dots. */
  lemma NoTripleDotJoin(x: string, y: string)
    requires NoTripleDot(x) && NoTripleDot(y)
    requires |x| >= 2 && |y| >= 1 && x[|x| - 1] == '.' ==> x[|x| - 2] != '.' || y[0] != '.'
    requires |x| >= 1 && |y| >= 2 && y[0] == '.' ==> x[|x| - 1] != '.' || y[1] != '.'
    ensures NoTripleDot(x + y)
  {
    var s := x + y;
    forall i | 0 <= i < |s| - 2
      ensures !(s[i] == '.' && s[i + 1] == '.' && s[i + 2] == '.')
    {
      if i + 2 < |x| {
        assert s[i] == x[i] && s[i + 1] == x[i + 1] && s[i + 2] == x[i + 2];
      } else if i >= |x| {
        assert s[i] == y[i - |x|] && s[i + 1] == y[i + 1 - |x|] && s[i + 2] == y[i + 2 - |x|];
      }
    }
  }

  /** Gluing two strings without two whitespace characters in a row gives none, when the
      seam is not flanked by whitespace on both sides. */
  lemma NoDoubleSpaceJoin(x: string, y: string)
    requires NoDoubleSpace(x) && NoDoubleSpace(y)
    requires x != [] && y != [] ==> !IsSpace(x[|x| - 1]) || !IsSpace(y[0])
    ensures NoDoubleSpace(x + y)
  {
    var s := x + y;
    forall i | 0 <= i < |s| - 1
      ensures !(IsSpace(s[i]) && IsSpace(s[i + 1]))
    {
      if i + 1 < |x| {
        assert s[i] == x[i] && s[i + 1] == x[i + 1];
      } else if i >= |x| {
        assert s[i] == y[i - |x|] && s[i + 1] == y[i + 1 - |x|];
      }
    }
  }

  /** `re.sub(r"\.{3,}", "", s)`: every maximal run of three or more dots goes, shorter runs
      stay. The result has no three dots in a row and starts as `s` does when `s` starts
      with anything but a dot. */
  function RemoveDotRuns(s: string): (r: string)
    ensures NoTripleDot(r)
    ensures s != [] && s[0] != '.' ==> r != [] && r[0] == s[0]
    decreases |s|
  {
    if s == [] then ""
    else if s[0] == '.' then
      var n := LeadingDotCount(s);
      var rest := RemoveDotRuns(s[n..]);
      if n >= 3 then rest
      else
        NoTripleDotJoin(s[..n], rest);
        s[..n] + rest
    else
      var rest := RemoveDotRuns(s[1..]);
      NoTripleDotJoin([s[0]], rest);
      [s[0]] + rest
  }

  /** Removing dot runs keeps every other character, in order. */
  lemma {:induction false} RemoveDotRunsKeeps(s: string)
    ensures Filter(RemoveDotRuns(s), NotDot) == Filter(s, NotDot)
    decreases |s|
  {
    if s != [] {
      if s[0] == '.' {
        var n := LeadingDotCount(s);
        var rest := RemoveDotRuns(s[n..]);
        RemoveDotRunsKeeps(s[n..]);
        assert s == s[..n] + s[n..];
        FilterAppend(s[..n], s[n..], NotDot);
        FilterDropsAll(s[..n], NotDot);
        if n < 3 {
          FilterAppend(s[..n], rest, NotDot);
        }
      } else {
        RemoveDotRunsKeeps(s[1..]);
        FilterAppend([s[0]], RemoveDotRuns(s[1..]), NotDot);
      }
    }
  }

  /** A text without three dots in a row has no run to remove. */
  lemma {:induction false} RemoveDotRunsFixed(s: string)
    requires NoTripleDot(s)
    ensures RemoveDotRuns(s) == s
    decreases |s|
  {
    if s != [] {
      if s[0] == '.' {
        var n := LeadingDotCount(s);
        ShortDotRun(s, n);
        NoTripleDotSuffix(s, n);
        RemoveDotRunsFixed(s[n..]);
        assert s[..n] + s[n..] == s;
      } else {
        NoTripleDotSuffix(s, 1);
        RemoveDotRunsFixed(s[1..]);
        assert [s[0]] + s[1..] == s;
      }
    }
  }

  lemma ShortDotRun(s: string, n: nat)
    requires NoTripleDot(s) && s != [] && s[0] == '.' && n == LeadingDotCount(s)
    ensures n < 3
  {
    if |s| >= 3 {
      assert !(s[0] == '.' && s[1] == '.' && s[2] == '.');
    }
  }

  lemma NoTripleDotSuffix(s: string, k: nat)
    requires NoTripleDot(s) && k <= |s|
    ensures NoTripleDot(s[k..])
  {
    forall i | 0 <= i < |s[k..]| - 2
      ensures !(s[k..][i] == '.' && s[k..][i + 1] == '.' && s[k..][i + 2] == '.')
    {
      assert s[k..][i] == s[k + i] && s[k..][i + 1] == s[k + i + 1] && s[k..][i + 2] == s[k + i + 2];
    }
  }

  /** `re.sub(r"\s{2,}", " ", s)`: every maximal run of two or more whitespace characters
      becomes one space, a lone whitespace character stays as it is. The result has no two
      whitespace characters in a row, and starts with whitespace exactly when `s` does, with
      `s`'s first character otherwise. */
  function CollapseSpaces(s: string): (r: string)
    ensures NoDoubleSpace(r)
    ensures s != [] ==> r != [] && if IsSpace(s[0]) then IsSpace(r[0]) else r[0] == s[0]
    decreases |s|
  {
    if s == [] then ""
    else if IsSpace(s[0]) then
      var n := LeadingSpaceCount(s);
      var rest := CollapseSpaces(s[n..]);
      var gap := if n >= 2 then " " else s[..1];
      NoDoubleSpaceJoin(gap, rest);
      gap + rest
    else
      var rest := CollapseSpaces(s[1..]);
      NoDoubleSpaceJoin([s[0]], rest);
      [s[0]] + rest
  }

  /** Collapsing whitespace keeps every other character, in order. */
  lemma {:induction false} CollapseSpacesKeeps(s: string)
    ensures Filter(CollapseSpaces(s), NotSpace) == Filter(s, NotSpace)
    decreases |s|
  {
    if s != [] {
      if IsSpace(s[0]) {
        var n := LeadingSpaceCount(s);
        var rest := CollapseSpaces(s[n..]);
        var gap := if n >= 2 then " " else s[..1];
        CollapseSpacesKeeps(s[n..]);
        assert s == s[..n] + s[n..];
        FilterAppend(s[..n], s[n..], NotSpace);
        FilterDropsAll(s[..n], NotSpace);
        FilterAppend(gap, rest, NotSpace);
        FilterDropsAll(gap, NotSpace);
      } else {
        CollapseSpacesKeeps(s[1..]);
        FilterAppend([s[0]], CollapseSpaces(s[1..]), NotSpace);
      }
    }
  }

  /** A text without two whitespace characters in a row has nothing to collapse. */
  lemma {:induction false} CollapseSpacesFixed(s: string)
    requires NoDoubleSpace(s)
    ensures CollapseSpaces(s) == s
    decreases |s|
  {
    if s != [] {
      var n := if IsSpace(s[0]) then LeadingSpaceCount(s) else 1;
      assert n == 1 by {
        if IsSpace(s[0]) && |s| >= 2 {
          assert !(IsSpace(s[0]) && IsSpace(s[1]));
        }
      }
      assert NoDoubleSpace(s[1..]) by {
        forall i | 0 <= i < |s[1..]| - 1
          ensures !(IsSpace(s[1..][i]) && IsSpace(s[1..][i + 1]))
        {
          assert s[1..][i] == s[i + 1] && s[1..][i + 1] == s[i + 2];
        }
      }
      CollapseSpacesFixed(s[1..]);
      assert s[..1] + s[1..] == s;
    }
  }

  /** Collapsing whitespace creates no run of three dots. */
  lemma {:induction false} CollapseSpacesNoTripleDot(s: string)
    requires NoTripleDot(s)
    ensures NoTripleDot(CollapseSpaces(s))
    decreases |s|
  {
    if s != [] {
      var n := if IsSpace(s[0]) then LeadingSpaceCount(s) else 1;
      assert NoTripleDot(s[n..]) by {
        forall i | 0 <= i < |s[n..]| - 2
          ensures !(s[n..][i] == '.' && s[n..][i + 1] == '.' && s[n..][i + 2] == '.')
        {
          assert s[n..][i] == s[n + i] && s[n..][i + 1] == s[n + i + 1] && s[n..][i + 2] == s[n + i + 2];
        }
      }
      CollapseSpacesNoTripleDot(s[n..]);
      var rest := CollapseSpaces(s[n..]);
      if IsSpace(s[0]) {
        var gap := if n >= 2 then " " else s[..1];
        NoTripleDotJoin(gap, rest);
      } else {
        if |rest| >= 2 && s[0] == '.' && rest[0] == '.' {
          SecondAfterDots(s);
        }
        NoTripleDotJoin([s[0]], rest);
      }
    }
  }

  /** After `..` and no third dot, the second character of the collapsed rest is no dot. */
  lemma SecondAfterDots(s: string)
    requires NoTripleDot(s) && |s| >= 2 && s[0] == '.' && !IsSpace(s[0])
    requires var rest := CollapseSpaces(s[1..]); |rest| >= 2 && rest[0] == '.'
    ensures CollapseSpaces(s[1..])[1] != '.'
  {
    var t := s[1..];
    assert !IsSpace(t[0]) && t[0] == '.';
    assert CollapseSpaces(t) == [t[0]] + CollapseSpaces(t[1..]);
    assert t[1..] != [] && t[1..] == s[2..];
    assert !(s[0] == '.' && s[1] == '.' && s[2] == '.');
  }

  /** A slice keeps both properties. */
  lemma SliceKeepsRuns(s: string, a: nat, b: nat)
    requires a <= b <= |s|
    ensures NoTripleDot(s) ==> NoTripleDot(s[a..b])
    ensures NoDoubleSpace(s) ==> NoDoubleSpace(s[a..b])
  {
    var t := s[a..b];
    assert forall i :: 0 <= i < |t| ==> t[i] == s[a + i];
  }

  /** `strip()` keeps both properties. */
  lemma StripKeepsRuns(s: string)
    ensures NoTripleDot(s) ==> NoTripleDot(Strip(s))
    ensures NoDoubleSpace(s) ==> NoDoubleSpace(Strip(s))
  {
    var a := LeadingSpaceCount(s);
    SliceKeepsRuns(s, a, a + |Strip(s)|);
  }

  /** `strip()` removes only whitespace. */
  lemma StripKeeps(s: string)
    ensures Filter(Strip(s), NotSpace) == Filter(s, NotSpace)
  {
    StripKeepsAt(s, LeadingSpaceCount(s), Strip(s));
  }

  lemma StripKeepsAt(s: string, a: nat, r: string)
    requires a + |r| <= |s| && AllSpace(s[..a]) && r == s[a..a + |r|] && AllSpace(s[a + |r|..])
    ensures Filter(r, NotSpace) == Filter(s, NotSpace)
  {
    var e := a + |r|;
    assert s == s[..a] + (r + s[e..]);
    FilterAppend(s[..a], r + s[e..], NotSpace);
    FilterAppend(r, s[e..], NotSpace);
    FilterDropsAll(s[..a], NotSpace);
    FilterDropsAll(s[e..], NotSpace);
  }

  /** `clean_toc_joined(text)`: dot runs of three or more removed anywhere, whitespace runs
      collapsed, stripped. The result has no whitespace at its ends, no two whitespace
      characters in a row and no three dots in a row. */
  function CleanTocJoined(text: string): (r: string)
    ensures NoEdgeSpace(r) && NoDoubleSpace(r) && NoTripleDot(r)
  {
    var noDots := RemoveDotRuns(text);
    var collapsed := CollapseSpaces(noDots);
    CollapseSpacesNoTripleDot(noDots);
    StripKeepsRuns(collapsed);
    Strip(collapsed)
  }

  /** A step that keeps the characters of one kind keeps the solid ones. */
  lemma SolidKept(before: string, after: string, kind: char -> bool)
    requires forall c :: Solid(c) ==> kind(c)
    requires Filter(after, kind) == Filter(before, kind)
    ensures Filter(after, Solid) == Filter(before, Solid)
  {
    FilterCompose(after, kind, Solid);
    FilterCompose(before, kind, Solid);
  }

  /** Cleaning keeps every character that is neither a dot nor whitespace, in order; in
      particular every digit, so page numbers survive. */
  lemma CleanTocJoinedKeeps(text: string)
    ensures Filter(CleanTocJoined(text), Solid) == Filter(text, Solid)
    ensures Filter(CleanTocJoined(text), IsDigit) == Filter(text, IsDigit)
  {
    var noDots := RemoveDotRuns(text);
    var collapsed := CollapseSpaces(noDots);
    var r := Strip(collapsed);
    assert r == CleanTocJoined(text);
    RemoveDotRunsKeeps(text);
    SolidKept(text, noDots, NotDot);
    CollapseSpacesKeeps(noDots);
    SolidKept(noDots, collapsed, NotSpace);
    StripKeeps(collapsed);
    SolidKept(collapsed, r, NotSpace);
    assert Filter(r, Solid) == Filter(text, Solid);
    DigitsKept(text, r);
  }

  lemma DigitsKept(before: string, after: string)
    requires Filter(after, Solid) == Filter(before, Solid)
    ensures Filter(after, IsDigit) == Filter(before, IsDigit)
  {
    FilterCompose(after, Solid, IsDigit);
    FilterCompose(before, Solid, IsDigit);
  }

  /** Cleaning leaves a text as it is exactly when the text already has the three
      properties of a result; so cleaning twice is cleaning once. */
  lemma CleanTocJoinedFixed(text: string)
    ensures CleanTocJoined(text) == text <==> NoEdgeSpace(text) && NoDoubleSpace(text) && NoTripleDot(text)
    ensures CleanTocJoined(CleanTocJoined(text)) == CleanTocJoined(text)
  {
    var r := CleanTocJoined(text);
    RemoveDotRunsFixed(r);
    CollapseSpacesFixed(r);
    if NoEdgeSpace(text) && NoDoubleSpace(text) && NoTripleDot(text) {
      RemoveDotRunsFixed(text);
      CollapseSpacesFixed(text);
    }
  }

  lemma AllSpaceAppend(a: string, b: string)
    ensures AllSpace(a + b) <==> AllSpace(a) && AllSpace(b)
  {
    assert forall i :: 0 <= i < |a| ==> (a + b)[i] == a[i];
    assert forall i :: 0 <= i < |b| ==> (a + b)[|a| + i] == b[i];
  }

  /** Parts joined with spaces are blank exactly when every part is. */
  lemma {:induction false} JoinAllSpace(parts: seq<string>)
    ensures AllSpace(Join(parts, " ")) <==> forall k :: 0 <= k < |parts| ==> AllSpace(parts[k])
  {
    if |parts| > 1 {
      var front := parts[..|parts| - 1];
      JoinAllSpace(front);
      AllSpaceAppend(Join(front, " ") + " ", parts[|parts| - 1]);
      AllSpaceAppend(Join(front, " "), " ");
      assert forall k :: 0 <= k < |front| ==> front[k] == parts[k];
    }
  }

  /** A string is blank exactly when its stripped form is. */
  lemma StripBlank(s: string)
    ensures AllSpace(Strip(s)) <==> AllSpace(s)
  {
  }

  /** One iteration of the inner loop over the runs (lines 78-81): an empty run is skipped,
      any other is stripped (and may become empty). */
  function RunPart(t: string): Option<string> {
    if t == "" then None else Some(Strip(t))
  }

  /** `" ".join(run_parts).strip()` */
  function JoinedRuns(runs: seq<string>): string {
    Strip(Join(Collect(runs, RunPart), " "))
  }

  /** The rebuilt text is empty exactly when every run is blank. */
  lemma JoinedRunsBlank(runs: seq<string>)
    ensures JoinedRuns(runs) == "" <==> forall i :: 0 <= i < |runs| ==> AllSpace(runs[i])
  {
    var parts := Collect(runs, RunPart);
    JoinAllSpace(parts);
    PartsBlank(runs, parts);
  }

  /** The kept parts are all blank exactly when all the runs are. */
  lemma PartsBlank(runs: seq<string>, parts: seq<string>)
    requires parts == Collect(runs, RunPart)
    ensures (forall k :: 0 <= k < |parts| ==> AllSpace(parts[k])) <==> forall i :: 0 <= i < |runs| ==> AllSpace(runs[i])
  {
    var idx := SourceIndices(runs, RunPart);
    forall k | 0 <= k < |parts|
      ensures AllSpace(parts[k]) <==> AllSpace(runs[idx[k]])
    {
      StripBlank(runs[idx[k]]);
    }
    forall i | 0 <= i < |runs| && runs[i] != ""
      ensures exists k :: 0 <= k < |parts| && idx[k] == i
    {
      assert i in idx;
    }
  }

  /** The inner loop, `run_parts` built run by run, then joined and stripped. */
  method JoinRuns(runs: seq<string>) returns (joined: string)
    ensures joined == JoinedRuns(runs)
  {
    ghost var f := RunPart;
    var runParts: seq<string> := [];
    var i := 0;
    while i < |runs|
      invariant 0 <= i <= |runs|
      invariant runParts == Collect(runs[..i], f)
    {
      var t := runs[i];
      CollectStep(runs, i, f);
      if t != "" {
        runParts := runParts + [Strip(t)];
      }
      i := i + 1;
    }
    assert runs[..i] == runs;
    joined := Strip(Join(runParts, " "));
  }

  /** One iteration of the paragraph loop (lines 65-91): the line a paragraph contributes,
      if any. Every paragraph with a level is cleaned, headings included. */
  function ParagraphLine(p: Paragraph, mode: Mode, indentSpaces: int): Option<string> {
    match TopLevelTocTwo(p.style, mode)
    case None => None
    case Some(level) =>
      var joined := JoinedRuns(p.runs);
      if joined == "" then None
      else
        var text := CleanTocJoined(joined);
        if text == "" then None else Some(ClampedIndent(level, indentSpaces) + text)
  }

  /** Every line is the indent of the paragraph's level, after the "TOC 2 is top level"
      remap, followed by the cleaned text rebuilt from its runs: not empty, with no
      whitespace at its ends, no doubled whitespace, no dot leader, and every digit of the
      runs in order. */
  lemma ParagraphLineShape(p: Paragraph, mode: Mode, indentSpaces: int)
    requires ParagraphLine(p, mode, indentSpaces).Some?
    ensures TopLevelTocTwo(p.style, mode).Some?
    ensures var text := CleanTocJoined(JoinedRuns(p.runs));
      ParagraphLine(p, mode, indentSpaces).value == ClampedIndent(TopLevelTocTwo(p.style, mode).value, indentSpaces) + text &&
      text != "" && NoEdgeSpace(text) && NoDoubleSpace(text) && NoTripleDot(text) &&
      Filter(text, IsDigit) == Filter(JoinedRuns(p.runs), IsDigit)
  {
    CleanTocJoinedKeeps(JoinedRuns(p.runs));
  }

  /** Paragraphs that yield no line: those whose style gives no level in this mode, and
      those whose runs are all blank. */
  lemma ParagraphLineNone(p: Paragraph, mode: Mode, indentSpaces: int)
    ensures DetectLevel(p.style, mode).None? ==> ParagraphLine(p, mode, indentSpaces).None?
    ensures (forall i :: 0 <= i < |p.runs| ==> AllSpace(p.runs[i])) ==> ParagraphLine(p, mode, indentSpaces).None?
  {
    JoinedRunsBlank(p.runs);
  }

  /** The lines of the paragraphs, in document order. */
  function OutlineLines(paras: seq<Paragraph>, mode: Mode, indentSpaces: int): seq<string> {
    Collect(paras, p => ParagraphLine(p, mode, indentSpaces))
  }

  lemma OutlineLinesStep(paras: seq<Paragraph>, i: nat, mode: Mode, indentSpaces: int)
    requires i < |paras|
    ensures OutlineLines(paras[..i + 1], mode, indentSpaces) ==
            OutlineLines(paras[..i], mode, indentSpaces) + Yield(ParagraphLine(paras[i], mode, indentSpaces))
  {
    CollectStep(paras, i, p => ParagraphLine(p, mode, indentSpaces));
  }

  const NoLinesMessage: string := "\U{26A0}\U{FE0F} No TOC or Heading lines found in this file."

  /** What `extract_toc` does with the paragraphs: the file content it writes, or the error. */
  function Outline(paras: seq<Paragraph>, mode: Mode, indentSpaces: int): Result<string> {
    var lines := OutlineLines(paras, mode, indentSpaces);
    if lines == [] then Err(NoLinesMessage) else Ok(Join(lines, "\n") + "\n")
  }

  /** The error is raised exactly when no paragraph yields a line. */
  lemma OutlineError(paras: seq<Paragraph>, mode: Mode, indentSpaces: int)
    ensures Outline(paras, mode, indentSpaces).Err? <==>
      forall i :: 0 <= i < |paras| ==> ParagraphLine(paras[i], mode, indentSpaces).None?
  {
    CollectEmpty(paras, p => ParagraphLine(p, mode, indentSpaces));
  }

  /** `extract_toc` after the file checks: the paragraph loop with its inner loop over the
      runs, and the test for no lines. */
  method ExtractToc(paras: seq<Paragraph>, indentSpaces: int, mode: Mode) returns (r: Result<string>)
    ensures r == Outline(paras, mode, indentSpaces)
  {
    var lines: seq<string> := [];
    var i := 0;
    while i < |paras|
      invariant 0 <= i <= |paras|
      invariant lines == OutlineLines(paras[..i], mode, indentSpaces)
    {
      var p := paras[i];
      OutlineLinesStep(paras, i, mode, indentSpaces);
      var level := TopLevelTocTwo(p.style, mode);
      if level.Some? {
        var joined := JoinRuns(p.runs);
        if joined != "" {
          var text := CleanTocJoined(joined);
          if text != "" {
            lines := lines + [ClampedIndent(level.value, indentSpaces) + text];
          }
        }
      }
      i := i + 1;
    }
    assert paras[..i] == paras;
    if lines == [] {
      return Err(NoLinesMessage);
    }
    return Ok(Join(lines, "\n") + "\n");
  }
}
