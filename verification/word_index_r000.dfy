/** Get_word_index/Temp/word_index_output_R000.py: an indented outline of a Word document
    from its `Heading N` paragraphs, its `TOC N` paragraphs, or both, with a second pass over
    the `TOC N` paragraphs when the first finds nothing. */
module WordIndexR000 {
  import opened Wrappers
  import opened PyStr
  import opened Passes
  import opened Docx
  import opened StyleLevels
  import opened TocTails

  /** `clean_toc_line(text)`: the text before the first tab, without a dot leader and page
      number at its end, then without one trailing whitespace-and-digits group, stripped.
      The result is a tab-free piece of the input with no whitespace at its ends. */
  function CleanTocLine(text: string): (r: string)
    ensures '\t' !in r
    ensures Contains(text, r)
    ensures NoEdgeSpace(r)
  {
    var head := BeforeFirst(text, '\t');
    var noLeader := CutDotLeader(head);
    var noPage := CutSpacedNumber(noLeader);
    PrefixOfPrefix(text, head, noLeader);
    PrefixOfPrefix(text, noLeader, noPage);
    StripOfPrefix(text, noPage);
    assert '\t' !in noPage by {
      PrefixOfPrefix(head, noLeader, noPage);
    }
    Strip(noPage)
  }

  /** A text with no digit has no page number to lose: cleaning only cuts it at the first
      tab and strips it. */
  lemma CleanTocLineWithoutDigits(text: string)
    requires forall i :: 0 <= i < |text| ==> !IsDigit(text[i])
    ensures CleanTocLine(text) == Strip(BeforeFirst(text, '\t'))
  {
    var head := BeforeFirst(text, '\t');
    CutsWithoutDigits(head);
  }

  /** Only the text before the first tab matters. */
  lemma CleanTocLineHead(text: string)
    ensures CleanTocLine(text) == CleanTocLine(BeforeFirst(text, '\t'))
  {
    var head := BeforeFirst(text, '\t');
    BeforeFirstAt(head, '\t', |head|);
    assert head[..|head|] == head;
  }

  /** A TOC entry typed as title, tab, page: only the title is kept, stripped (the second
      example of the function's documentation, `'Intro\t3' -> 'Intro'`, is an instance). */
  lemma CleanTocLineTabbed(title: string, rest: string)
    requires '\t' !in title
    requires forall i :: 0 <= i < |title| ==> !IsDigit(title[i])
    ensures CleanTocLine(title + "\t" + rest) == Strip(title)
  {
    var text := title + "\t" + rest;
    TabbedHead(title, rest, text);
    CleanTocLineHead(text);
    CleanTocLineWithoutDigits(title);
    BeforeFirstNone(title, '\t');
  }

  lemma TabbedHead(title: string, rest: string, text: string)
    requires '\t' !in title && text == title + "\t" + rest
    ensures BeforeFirst(text, '\t') == title
  {
    assert text[..|title|] == title;
    BeforeFirstAt(text, '\t', |title|);
  }

  /** A title, a dot leader and a page number: the leader and the page number go and the
      title is left. */
  lemma CleanTocLineLeader(title: string, leader: string, gap: string, page: string, end: string)
    requires title != "" && NoEdgeSpace(title) && title[|title| - 1] != '.'
    requires forall i :: 0 <= i < |title| ==> !IsDigit(title[i])
    requires |leader| >= 3 && AllDots(leader) && AllSpace(gap) && page != "" && AllDigits(page) && AllSpace(end)
    requires '\t' !in title + leader + gap + page + end
    ensures CleanTocLine(title + leader + gap + page + end) == title
  {
    DotLeaderPiece(leader, gap, page, end);
    var tail := leader + gap + page + end;
    TitleAndTail(title, leader, gap, page, end, tail);
    BeforeFirstNone(title + tail, '\t');
    LeaderCut(title, tail);
    CutsWithoutDigits(title);
  }

  lemma TitleAndTail(title: string, leader: string, gap: string, page: string, end: string, tail: string)
    requires tail == leader + gap + page + end
    ensures title + leader + gap + page + end == title + tail
  {
  }

  /** A numbered title, a dot leader and a page number: the second substitution takes the
      title's own number as well. The first example of the function's documentation,
      `'Chapter 1.............  12'`, is an instance: it gives "Chapter", not the documented
      "Chapter 1". */
  lemma CleanTocLineNumberedTitle(title: string, sep: string, num: string, leader: string,
                                  gap: string, page: string, end: string)
    requires title != "" && NoEdgeSpace(title)
    requires forall i :: 0 <= i < |title| ==> !IsDigit(title[i])
    requires sep != "" && AllSpace(sep) && num != "" && AllDigits(num)
    requires |leader| >= 3 && AllDots(leader) && AllSpace(gap) && page != "" && AllDigits(page) && AllSpace(end)
    requires '\t' !in title + sep + num + leader + gap + page + end
    ensures CleanTocLine(title + sep + num + leader + gap + page + end) == title
  {
    var text := title + sep + num + leader + gap + page + end;
    var head := title + sep + num;
    var tail := leader + gap + page + end;
    assert text == head + tail;
    DotLeaderPiece(leader, gap, page, end);
    NumberThenLeader(head, tail);
    assert CutDotLeader(BeforeFirst(text, '\t')) == head;
    TitleThenNumber(title, sep, num);
    assert Strip(title) == title;
  }

  lemma TitleThenNumber(title: string, sep: string, num: string)
    requires title != "" && NoEdgeSpace(title)
    requires forall i :: 0 <= i < |title| ==> !IsDigit(title[i])
    requires sep != "" && AllSpace(sep) && num != "" && AllDigits(num)
    ensures CutSpacedNumber(title + sep + num) == title
  {
    SpacedNumberPiece(sep, num);
    assert title + sep + num == title + (sep + num);
    SpacedCut(title, sep + num);
  }

  /** Text ending in a digit, then a dot leader: the cut is right after the digit. */
  lemma NumberThenLeader(head: string, tail: string)
    requires '\t' !in head + tail
    requires head != [] && IsDigit(head[|head| - 1]) && IsDotLeaderTail(tail)
    ensures CutDotLeader(BeforeFirst(head + tail, '\t')) == head
  {
    BeforeFirstNone(head + tail, '\t');
    LeaderCut(head, tail);
  }

  /** The indent `" " * max(0, (level - 1) * indent_spaces)`. */
  function Indent(level: nat, indentSpaces: int): string {
    Spaces(Max(0, (level - 1) * indentSpaces))
  }

  /** The text part of a first-pass line: `Strip(p.text)`, cleaned for TOC entries. */
  function LineText(p: Paragraph, mode: Mode): string {
    var text := Strip(p.text);
    if TocLevel(p.style).Some? || mode == Toc then CleanTocLine(text) else text
  }

  /** One iteration of the first loop (lines 60-79): the line a paragraph contributes, if any. */
  function ParagraphLine(p: Paragraph, mode: Mode, indentSpaces: int): Option<string> {
    match DetectLevel(p.style, mode)
    case None => None
    case Some(level) =>
      if Strip(p.text) == "" then None
      else
        var cleaned := LineText(p, mode);
        if cleaned == "" then None
        else Some(Indent(level, indentSpaces) + cleaned)
  }

  /** Every line of the first pass is the indent of the paragraph's level followed by a
      non-empty piece of the paragraph's text with no whitespace at its ends; a heading's
      text is only stripped, a TOC entry's (or any entry's in "toc" mode) is also cleaned
      and so has no tab. */
  lemma ParagraphLineShape(p: Paragraph, mode: Mode, indentSpaces: int)
    requires ParagraphLine(p, mode, indentSpaces).Some?
    ensures DetectLevel(p.style, mode).Some?
    ensures var ind := Indent(DetectLevel(p.style, mode).value, indentSpaces);
      ParagraphLine(p, mode, indentSpaces).value == ind + LineText(p, mode)
    ensures var t := LineText(p, mode);
      t != "" && NoEdgeSpace(t) && Contains(p.text, t)
    ensures TocLevel(p.style).None? && mode != Toc ==> LineText(p, mode) == Strip(p.text)
    ensures TocLevel(p.style).Some? || mode == Toc ==> '\t' !in LineText(p, mode)
  {
    var text := Strip(p.text);
    StripContained(p.text);
    if TocLevel(p.style).Some? || mode == Toc {
      ContainsTrans(p.text, text, CleanTocLine(text));
    }
  }

  /** One iteration of the fallback loop (lines 83-92): a `TOC N` paragraph's cleaned text
      (not stripped first) behind the indent of level N. */
  function FallbackLine(p: Paragraph, indentSpaces: int): Option<string> {
    match TocLevel(p.style)
    case None => None
    case Some(level) =>
      var text := CleanTocLine(p.text);
      if text != "" then Some(Indent(level, indentSpaces) + text) else None
  }

  /** A fallback line comes from a `TOC N` paragraph and holds a non-empty, tab-free piece of
      its text. */
  lemma FallbackLineShape(p: Paragraph, indentSpaces: int)
    ensures var r := FallbackLine(p, indentSpaces);
      r.Some? ==>
        TocLevel(p.style).Some? &&
        var w := |Indent(TocLevel(p.style).value, indentSpaces)|;
        w < |r.value| && r.value[..w] == Indent(TocLevel(p.style).value, indentSpaces) &&
        NoEdgeSpace(r.value[w..]) && '\t' !in r.value[w..] && Contains(p.text, r.value[w..])
  {
    var r := FallbackLine(p, indentSpaces);
    if r.Some? {
      var ind := Indent(TocLevel(p.style).value, indentSpaces);
      assert r.value[|ind|..] == CleanTocLine(p.text);
    }
  }

  function FirstPass(paras: seq<Paragraph>, mode: Mode, indentSpaces: int): seq<string> {
    Collect(paras, p => ParagraphLine(p, mode, indentSpaces))
  }

  function FallbackPass(paras: seq<Paragraph>, indentSpaces: int): seq<string> {
    Collect(paras, p => FallbackLine(p, indentSpaces))
  }

  /** The lines `extract` writes (before the final check): the first pass, or the fallback
      pass when the first found nothing outside "toc" mode. */
  function OutlineLines(paras: seq<Paragraph>, mode: Mode, indentSpaces: int): seq<string> {
    var first := FirstPass(paras, mode, indentSpaces);
    if first == [] && mode != Toc then FallbackPass(paras, indentSpaces) else first
  }

  const NoLinesMessage: string :=
    "No headings/TOC lines found.\n" +
    "- If you used Word\U{2019}s auto TOC: set mode to --mode toc\n" +
    "- If you have headings: ensure they use 'Heading 1/2/3' styles\n" +
    "- If the file is synced (OneDrive), ensure it's downloaded locally"

  /** What `extract` does with the paragraphs: the file content it writes, or the error. */
  function Outline(paras: seq<Paragraph>, mode: Mode, indentSpaces: int): Result<string> {
    var lines := OutlineLines(paras, mode, indentSpaces);
    if lines == [] then Err(NoLinesMessage) else Ok(Join(lines, "\n") + "\n")
  }

  /** The fallback pass is used only when the first pass found nothing and the mode is not
      "toc"; otherwise the first pass's lines are the result. */
  lemma FallbackOnlyWhenFirstPassEmpty(paras: seq<Paragraph>, mode: Mode, indentSpaces: int)
    ensures OutlineLines(paras, mode, indentSpaces) != FirstPass(paras, mode, indentSpaces) ==>
      FirstPass(paras, mode, indentSpaces) == [] && mode != Toc &&
      OutlineLines(paras, mode, indentSpaces) == FallbackPass(paras, indentSpaces)
    ensures mode == Toc ==> OutlineLines(paras, mode, indentSpaces) == FirstPass(paras, mode, indentSpaces)
  {
  }

  /** The error is raised exactly when no paragraph yields a line in the first pass and,
      unless the mode is "toc", none yields one in the fallback pass either. */
  lemma OutlineError(paras: seq<Paragraph>, mode: Mode, indentSpaces: int)
    ensures Outline(paras, mode, indentSpaces).Err? <==>
      (forall i :: 0 <= i < |paras| ==> ParagraphLine(paras[i], mode, indentSpaces).None?) &&
      (mode == Toc || forall i :: 0 <= i < |paras| ==> FallbackLine(paras[i], indentSpaces).None?)
  {
    CollectEmpty(paras, p => ParagraphLine(p, mode, indentSpaces));
    CollectEmpty(paras, p => FallbackLine(p, indentSpaces));
  }

  /** An empty document, or one without any `Heading N` or `TOC N` style, is an error. */
  lemma OutlineWithoutLevels(paras: seq<Paragraph>, mode: Mode, indentSpaces: int)
    requires forall i :: 0 <= i < |paras| ==> HeadingLevel(paras[i].style).None? && TocLevel(paras[i].style).None?
    ensures Outline(paras, mode, indentSpaces) == Err(NoLinesMessage)
  {
    forall i | 0 <= i < |paras|
      ensures ParagraphLine(paras[i], mode, indentSpaces).None?
    {
      DetectLevelRules(paras[i].style, mode);
    }
    OutlineError(paras, mode, indentSpaces);
  }

  /** `extract` after the file checks: the two loops over the paragraphs and the final check. */
  method Extract(paras: seq<Paragraph>, indentSpaces: int, mode: Mode) returns (r: Result<string>)
    ensures r == Outline(paras, mode, indentSpaces)
  {
    var lines := CollectLines(paras, p => ParagraphLine(p, mode, indentSpaces));
    if lines == [] && mode != Toc {
      lines := CollectLines(paras, p => FallbackLine(p, indentSpaces));
    }
    if lines == [] {
      return Err(NoLinesMessage);
    }
    return Ok(Join(lines, "\n") + "\n");
  }
}
