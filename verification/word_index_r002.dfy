/** Get_word_index/Temp/word_index_output_R002.py: an indented outline of a Word document
    from its `Heading N` and `TOC N` paragraphs, keeping the page numbers of TOC entries,
    with a check that the document's last paragraph made it into the outline. */
module WordIndexR002 {
  import opened Wrappers
  import opened PyStr
  import opened Passes
  import opened Docx
  import opened StyleLevels
  import opened TocTails

  /** `clean_toc_line(text, keep_pages)`: a tabbed entry becomes its first field, followed by
      its last field when pages are kept and that field is not blank; any other entry loses
      a dot leader and page number at its end. The result has no tab and no whitespace at
      its ends, a tabbed entry never becomes empty, and without pages the result is a piece
      of the input. */
  function CleanTocLine(text: string, keepPages: bool): (r: string)
    ensures '\t' !in r && NoEdgeSpace(r)
    ensures '\t' in Strip(text) ==> r != ""
    ensures !keepPages ==> Contains(text, r)
  {
    var t := Strip(text);
    StripContained(text);
    if '\t' in t then
      var r := TabbedEntry(t, keepPages);
      assert !keepPages ==> Contains(text, r) by {
        if !keepPages {
          ContainsTrans(text, t, r);
        }
      }
      r
    else
      var noLeader := CutDotLeader(t);
      StripOfPrefix(t, noLeader);
      ContainsTrans(text, t, Strip(noLeader));
      Strip(noLeader)
  }

  /** The tab branch of `clean_toc_line` on the stripped text `t`: the first field, then the
      last one when pages are kept and it is not blank. The first field is never blank. */
  function TabbedEntry(t: string, keepPages: bool): (r: string)
    requires NoEdgeSpace(t) && '\t' in t
    ensures '\t' !in r && NoEdgeSpace(r) && r != ""
    ensures !keepPages ==> Contains(t, r)
  {
    var head := BeforeFirst(t, '\t');
    var title := Strip(head);
    var page := Strip(AfterLast(t, '\t'));
    TitleField(t);
    StripOfPrefix(t, head);
    if keepPages && page != "" then
      JoinedFields(title, page);
      title + " " + page
    else title
  }

  /** Two tab-free fields, joined by a space: no tab, and no whitespace at the ends. */
  lemma JoinedFields(title: string, page: string)
    requires title != "" && NoEdgeSpace(title) && '\t' !in title
    requires page != "" && NoEdgeSpace(page) && '\t' !in page
    ensures var r := title + " " + page; '\t' !in r && NoEdgeSpace(r) && r != ""
  {
    var r := title + " " + page;
    assert r[0] == title[0] && r[|r| - 1] == page[|page| - 1];
  }

  /** The first field of a stripped text that holds a tab is not blank. */
  lemma TitleField(t: string)
    requires NoEdgeSpace(t) && '\t' in t
    ensures Strip(BeforeFirst(t, '\t')) != ""
  {
    var head := BeforeFirst(t, '\t');
    assert t[0] != '\t';
    assert head != [] && head[0] == t[0];
  }

  /** Title, tab, page: the title, followed by the page when pages are kept. */
  lemma CleanTocLineTabbed(title: string, page: string, keepPages: bool)
    requires title != "" && NoEdgeSpace(title) && '\t' !in title
    requires page != "" && NoEdgeSpace(page) && '\t' !in page
    ensures CleanTocLine(title + "\t" + page, keepPages) == if keepPages then title + " " + page else title
  {
    var text := title + "\t" + page;
    EntryFields(title, text, page);
    assert CleanTocLine(text, keepPages) == TabbedEntry(text, keepPages);
  }

  /** Only the first and the last field of a tabbed entry matter: fields in between go. */
  lemma CleanTocLineMiddleFields(title: string, middle: string, page: string, keepPages: bool)
    requires title != "" && NoEdgeSpace(title) && '\t' !in title
    requires page != "" && NoEdgeSpace(page) && '\t' !in page
    ensures CleanTocLine(title + "\t" + middle + "\t" + page, keepPages) ==
            CleanTocLine(title + "\t" + page, keepPages)
  {
    var text := title + "\t" + middle + "\t" + page;
    EntryFields(title, text, page);
    assert CleanTocLine(text, keepPages) == TabbedEntry(text, keepPages);
    CleanTocLineTabbed(title, page, keepPages);
  }

  /** A text that starts with the tab-free `title` and a tab and ends with a tab and the
      tab-free `page`, both stripped and not blank: stripping leaves it as it is, and its
      first and last fields are `title` and `page`. */
  lemma EntryFields(title: string, text: string, page: string)
    requires title != "" && NoEdgeSpace(title) && '\t' !in title
    requires page != "" && NoEdgeSpace(page) && '\t' !in page
    requires |title| < |text| && text[..|title|] == title && text[|title|] == '\t'
    requires |page| < |text| && text[|text| - |page|..] == page && text[|text| - |page| - 1] == '\t'
    ensures Strip(text) == text && '\t' in text
    ensures BeforeFirst(text, '\t') == title && AfterLast(text, '\t') == page
    ensures Strip(title) == title && Strip(page) == page
  {
    assert text[0] == title[0];
    assert text[|text| - 1] == page[|page| - 1];
    BeforeFirstAt(text, '\t', |title|);
    AfterLastAt(text, '\t', page);
  }

  /** Whitespace after the text changes nothing; in particular a tab at the very end is
      stripped away before the test for a tab, and separates no page field. */
  lemma CleanTocLineTrailingSpace(text: string, w: string, keepPages: bool)
    requires AllSpace(w)
    ensures CleanTocLine(text + w, keepPages) == CleanTocLine(text, keepPages)
  {
    StripAppendSpace(text, w);
  }

  /** A title, a dot leader and a page number, with no tab: the leader and the page number
      go and the whole title stays, its own number included (so "Chapter 1", then a dot
      leader and a page, gives "Chapter 1"). Pages are not kept for such an entry. */
  lemma CleanTocLineLeader(title: string, leader: string, gap: string, page: string, end: string,
                           keepPages: bool)
    requires title != "" && NoEdgeSpace(title) && title[|title| - 1] != '.'
    requires |leader| >= 3 && AllDots(leader) && AllSpace(gap) && page != "" && AllDigits(page) && AllSpace(end)
    requires '\t' !in title + leader + gap + page + end
    ensures CleanTocLine(title + leader + gap + page + end, keepPages) == title
  {
    var core := title + leader + gap + page;
    LeaderCore(title, leader, gap, page);
    assert core[0] == title[0] && core[|core| - 1] == page[|page| - 1];
    StripTrailing(core, end);
    UntabbedLine(core + end, keepPages);
  }

  /** The dot-leader substitution leaves the title of a title, leader and page number. */
  lemma LeaderCore(title: string, leader: string, gap: string, page: string)
    requires title != "" && NoEdgeSpace(title) && title[|title| - 1] != '.'
    requires |leader| >= 3 && AllDots(leader) && AllSpace(gap) && page != "" && AllDigits(page)
    ensures CutDotLeader(title + leader + gap + page) == title
  {
    DotLeaderPiece(leader, gap, page, "");
    assert leader + gap + page + "" == leader + gap + page;
    assert title + leader + gap + page == title + (leader + gap + page);
    LeaderCut(title, leader + gap + page);
  }

  /** Whitespace after a text with no whitespace at its ends is all that stripping removes. */
  lemma StripTrailing(core: string, end: string)
    requires core != "" && !IsSpace(core[0]) && !IsSpace(core[|core| - 1]) && AllSpace(end)
    ensures Strip(core + end) == core
  {
    var text := core + end;
    assert text[..|core|] == core && text[|core|..] == end;
    StripAt(text, 0, |core|);
  }

  /** Without a tab after stripping, the line is the stripped text with its dot leader cut
      and stripped once more. */
  lemma UntabbedLine(text: string, keepPages: bool)
    requires '\t' !in Strip(text)
    ensures CleanTocLine(text, keepPages) == Strip(CutDotLeader(Strip(text)))
  {
  }

  /** Without a tab, keeping pages or not makes no difference. */
  lemma CleanTocLineUntabbed(text: string)
    requires '\t' !in text
    ensures CleanTocLine(text, true) == CleanTocLine(text, false)
  {
    var t := Strip(text);
    var a := LeadingSpaceCount(text);
    assert t == text[a..a + |t|];
  }

  /** Page numbers are kept for a `TOC N` paragraph, and for every paragraph in "toc" mode. */
  predicate KeepPages(p: Paragraph, mode: Mode) {
    TocLevel(p.style).Some? || mode == Toc
  }

  /** The text part of a line: the stripped paragraph text, cleaned. */
  function LineText(p: Paragraph, mode: Mode): string {
    CleanTocLine(Strip(p.text), KeepPages(p, mode))
  }

  /** One iteration of the loop (lines 76-100): the line a paragraph contributes, if any. */
  function ParagraphLine(p: Paragraph, mode: Mode, indentSpaces: int): Option<string> {
    match TopLevelTocTwo(p.style, mode)
    case None => None
    case Some(level) =>
      if Strip(p.text) == "" then None
      else
        var text := LineText(p, mode);
        if text == "" then None else Some(ClampedIndent(level, indentSpaces) + text)
  }

  /** Every line is the indent of the paragraph's level, after the "TOC 2 is top level"
      remap, followed by a non-empty, tab-free text with no whitespace at its ends; a
      paragraph whose page numbers are not kept contributes a piece of its own text. */
  lemma ParagraphLineShape(p: Paragraph, mode: Mode, indentSpaces: int)
    requires ParagraphLine(p, mode, indentSpaces).Some?
    ensures TopLevelTocTwo(p.style, mode).Some?
    ensures ParagraphLine(p, mode, indentSpaces).value ==
            ClampedIndent(TopLevelTocTwo(p.style, mode).value, indentSpaces) + LineText(p, mode)
    ensures LineText(p, mode) != "" && NoEdgeSpace(LineText(p, mode)) && '\t' !in LineText(p, mode)
    ensures !KeepPages(p, mode) ==> Contains(p.text, LineText(p, mode))
  {
    var t := Strip(p.text);
    StripContained(p.text);
    if !KeepPages(p, mode) {
      ContainsTrans(p.text, t, LineText(p, mode));
    }
  }

  /** A `Heading N` paragraph outside "toc" mode keeps no page field: its line holds a
      piece of its own text. */
  lemma HeadingLineKeepsNoPage(p: Paragraph, mode: Mode)
    requires HeadingLevel(p.style).Some? && mode != Toc
    ensures !KeepPages(p, mode)
  {
    FamiliesDisjoint(p.style);
  }

  /** Paragraphs that yield no line: those whose style gives no level in this mode, and
      those whose text is blank. */
  lemma ParagraphLineNone(p: Paragraph, mode: Mode, indentSpaces: int)
    ensures DetectLevel(p.style, mode).None? ==> ParagraphLine(p, mode, indentSpaces).None?
    ensures AllSpace(p.text) ==> ParagraphLine(p, mode, indentSpaces).None?
  {
  }

  /** A `TOC 2` paragraph (style spelled with "TOC") is put at the top level. */
  lemma TocTwoUnindented(p: Paragraph, mode: Mode, indentSpaces: int)
    requires Contains(p.style, "TOC") && DetectLevel(p.style, mode) == Some(2)
    requires ParagraphLine(p, mode, indentSpaces).Some?
    ensures ParagraphLine(p, mode, indentSpaces).value == LineText(p, mode)
  {
    assert TopLevelTocTwo(p.style, mode) == Some(1);
    assert ClampedIndent(1, indentSpaces) == "";
  }

  /** Python's `any(ch.isdigit() for ch in s)`. */
  predicate HasDigit(s: string) {
    exists i :: 0 <= i < |s| && IsDigit(s[i])
  }

  /** One "last visible paragraph" block (lines 106-111 and again 114-119): the stripped
      last paragraph `lastP` is appended when it is not blank, not already part of the last
      line, and holds a digit. Afterwards the last line holds `lastP` whenever `lastP` is
      not blank and holds a digit. */
  function AppendMissingLast(lines: seq<string>, lastP: string): (r: seq<string>)
    requires lines != []
    ensures r == lines || r == lines + [lastP]
    ensures lastP != "" && HasDigit(lastP) ==> Contains(r[|r| - 1], lastP)
    ensures r == lines + [lastP] ==> lastP != "" && HasDigit(lastP) && !Contains(lines[|lines| - 1], lastP)
    ensures lastP != "" && HasDigit(lastP) && !Contains(lines[|lines| - 1], lastP) ==> r == lines + [lastP]
  {
    if lastP != "" && !Contains(lines[|lines| - 1], lastP) && HasDigit(lastP) then
      ContainsSelf(lastP);
      lines + [lastP]
    else lines
  }

  /** The block itself, as the statements of `extract_toc`. */
  method CheckLastParagraph(lines: seq<string>, lastP: string) returns (r: seq<string>)
    requires lines != []
    ensures r == AppendMissingLast(lines, lastP)
  {
    r := lines;
    if lastP != "" && !Contains(lines[|lines| - 1], lastP) {
      if HasDigit(lastP) {
        r := lines + [lastP];
      }
    }
  }

  /** Running the block a second time never adds anything: the repeated block in
      `extract_toc` is redundant. */
  lemma AppendMissingLastIdempotent(lines: seq<string>, lastP: string)
    requires lines != []
    ensures AppendMissingLast(AppendMissingLast(lines, lastP), lastP) == AppendMissingLast(lines, lastP)
  {
    var once := AppendMissingLast(lines, lastP);
    if once != lines {
      ContainsSelf(lastP);
      assert once[|once| - 1] == lastP;
    }
  }

  /** The lines the paragraph loop collects. */
  function TocLines(paras: seq<Paragraph>, mode: Mode, indentSpaces: int): seq<string> {
    Collect(paras, p => ParagraphLine(p, mode, indentSpaces))
  }

  const NoLinesMessage: string := "\U{26A0}\U{FE0F} No TOC or Heading lines found in this file."

  /** What `extract_toc` does with the paragraphs: the file content it writes, or the error. */
  function Outline(paras: seq<Paragraph>, mode: Mode, indentSpaces: int): Result<string> {
    var lines := TocLines(paras, mode, indentSpaces);
    if lines == [] then Err(NoLinesMessage)
    else
      var lastP := Strip(paras[|paras| - 1].text);
      var final := AppendMissingLast(AppendMissingLast(lines, lastP), lastP);
      Ok(Join(final, "\n") + "\n")
  }

  /** The error is raised exactly when no paragraph yields a line; the last-paragraph check
      comes after it and cannot prevent it. */
  lemma OutlineError(paras: seq<Paragraph>, mode: Mode, indentSpaces: int)
    ensures Outline(paras, mode, indentSpaces).Err? <==>
      forall i :: 0 <= i < |paras| ==> ParagraphLine(paras[i], mode, indentSpaces).None?
    ensures Outline(paras, mode, indentSpaces).Err? ==> Outline(paras, mode, indentSpaces) == Err(NoLinesMessage)
  {
    CollectEmpty(paras, p => ParagraphLine(p, mode, indentSpaces));
  }

  /** The written lines are the collected ones, plus at most the stripped last paragraph,
      which is then not part of the last collected line and holds a digit. */
  lemma OutlineLines(paras: seq<Paragraph>, mode: Mode, indentSpaces: int)
    requires TocLines(paras, mode, indentSpaces) != []
    ensures |paras| > 0
    ensures var lines := TocLines(paras, mode, indentSpaces);
      var lastP := Strip(paras[|paras| - 1].text);
      Outline(paras, mode, indentSpaces) == Ok(Join(AppendMissingLast(lines, lastP), "\n") + "\n")
    ensures var lines := TocLines(paras, mode, indentSpaces);
      var lastP := Strip(paras[|paras| - 1].text);
      var final := AppendMissingLast(lines, lastP);
      final == lines ||
      (final == lines + [lastP] && lastP != "" && HasDigit(lastP) && !Contains(lines[|lines| - 1], lastP))
  {
    var lines := TocLines(paras, mode, indentSpaces);
    AppendMissingLastIdempotent(lines, Strip(paras[|paras| - 1].text));
  }

  /** `extract_toc` after the file checks: the paragraph loop, the test for no lines, and
      the two last-paragraph blocks. */
  method ExtractToc(paras: seq<Paragraph>, indentSpaces: int, mode: Mode) returns (r: Result<string>)
    ensures r == Outline(paras, mode, indentSpaces)
  {
    var lines := CollectLines(paras, p => ParagraphLine(p, mode, indentSpaces));
    if lines == [] {
      return Err(NoLinesMessage);
    }
    ghost var collected := lines;
    var lastP := Strip(paras[|paras| - 1].text);
    lines := CheckLastParagraph(lines, lastP);
    lastP := Strip(paras[|paras| - 1].text);
    lines := CheckLastParagraph(lines, lastP);
    assert lines == AppendMissingLast(AppendMissingLast(collected, lastP), lastP);
    return Ok(Join(lines, "\n") + "\n");
  }
}
