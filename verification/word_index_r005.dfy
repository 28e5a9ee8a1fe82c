/** Get_word_index/Temp/word_index_output_R005.py: every paragraph of a Word document that
    has visible text, stripped and indented by the level its style name starts with. */
module WordIndexR005 {
  import opened Wrappers
  import opened PyStr
  import opened Passes
  import opened Docx
  import opened StyleLevels

  /** The level of a paragraph: the number after a leading `TOC` or `Heading` in its style
      name, and 1 for any other style. */
  function EntryLevel(style: string): (level: nat)
    ensures PrefixStyleLevel(style).Some? ==> level == PrefixStyleLevel(style).value
    ensures (forall k :: !NumberAt(style, k)) ==> level == 1
  {
    match PrefixStyleLevel(style)
    case Some(n) => n
    case None => 1
  }

  /** One iteration of the loop (lines 12-26): the indent `" " * ((level - 1) * indent)`
      and the stripped text, unless that text is empty. */
  function IndentedLine(p: Paragraph, indentSpaces: int): Option<string> {
    var text := Strip(p.text);
    if text == "" then None
    else Some(Spaces((EntryLevel(p.style) - 1) * indentSpaces) + text)
  }

  /** A paragraph yields a line exactly when it has visible text. */
  lemma IndentedLineSpec(p: Paragraph, indentSpaces: int)
    ensures IndentedLine(p, indentSpaces).Some? <==> HasText(p)
  {
  }

  /** The line ends with the paragraph's text, stripped and otherwise uncleaned, after an
      indent of `(level - 1) * indent_spaces` spaces, which is empty for level 1 and
      unnumbered styles, and for level 0 too since repeating a string a negative number of
      times gives the empty string. */
  lemma IndentedLineShape(p: Paragraph, indentSpaces: int)
    requires HasText(p)
    ensures var line := IndentedLine(p, indentSpaces).value;
      var text := Strip(p.text);
      text != "" && EndsWith(line, text) &&
      |line| - |text| == Max((EntryLevel(p.style) - 1) * indentSpaces, 0) &&
      OnlySpaces(line[..|line| - |text|]) &&
      (EntryLevel(p.style) == 1 || (EntryLevel(p.style) == 0 && indentSpaces >= 0) ==> line == text)
  {
    var text := Strip(p.text);
    var level := EntryLevel(p.style);
    assert IndentedLine(p, indentSpaces) == Some(Spaces((level - 1) * indentSpaces) + text);
    PaddedText(level, indentSpaces, text);
  }

  /** Nothing but space characters. */
  predicate OnlySpaces(s: string) {
    forall i :: 0 <= i < |s| ==> s[i] == ' '
  }

  lemma PaddedText(level: nat, indentSpaces: int, text: string)
    ensures var line := Spaces((level - 1) * indentSpaces) + text;
      EndsWith(line, text) &&
      |line| - |text| == Max((level - 1) * indentSpaces, 0) &&
      OnlySpaces(line[..|line| - |text|]) &&
      (level == 1 || (level == 0 && indentSpaces >= 0) ==> line == text)
  {
    var pad := Spaces((level - 1) * indentSpaces);
    var line := pad + text;
    assert line[|pad|..] == text;
    assert line[..|pad|] == pad;
  }

  function IndentedLines(paras: seq<Paragraph>, indentSpaces: int): seq<string> {
    Collect(paras, p => IndentedLine(p, indentSpaces))
  }

  lemma IndentedLinesStep(paras: seq<Paragraph>, i: nat, indentSpaces: int)
    requires i < |paras|
    ensures IndentedLines(paras[..i + 1], indentSpaces) ==
            IndentedLines(paras[..i], indentSpaces) + Yield(IndentedLine(paras[i], indentSpaces))
  {
    CollectStep(paras, i, p => IndentedLine(p, indentSpaces));
  }

  /** Every paragraph with visible text yields exactly one line, in document order: there
      are as many lines as such paragraphs, line `k` comes from paragraph `idx[k]`, the
      indices increase, and every such paragraph is among them. */
  lemma IndentedLinesSpec(paras: seq<Paragraph>, indentSpaces: int)
    ensures |IndentedLines(paras, indentSpaces)| == CountWhere(paras, HasText)
    ensures var idx := SourceIndices(paras, p => IndentedLine(p, indentSpaces));
      (forall k :: 0 <= k < |idx| ==>
         idx[k] < |paras| && IndentedLines(paras, indentSpaces)[k] == IndentedLine(paras[idx[k]], indentSpaces).value) &&
      (forall k, m :: 0 <= k < m < |idx| ==> idx[k] < idx[m]) &&
      (forall i :: 0 <= i < |paras| && HasText(paras[i]) ==> i in idx)
  {
    forall i | 0 <= i < |paras|
      ensures IndentedLine(paras[i], indentSpaces).Some? <==> HasText(paras[i])
    {
      IndentedLineSpec(paras[i], indentSpaces);
    }
    CollectLength(paras, p => IndentedLine(p, indentSpaces), HasText);
  }

  const NoEntriesMessage: string := "No TOC or Heading entries found."

  /** What `extract_toc_indented` does with the paragraphs: the file content it writes (the
      lines joined by newlines, with no final newline), or the error. */
  function IndentedToc(paras: seq<Paragraph>, indentSpaces: int): Result<string> {
    var lines := IndentedLines(paras, indentSpaces);
    if lines == [] then Err(NoEntriesMessage) else Ok(Join(lines, "\n"))
  }

  /** The error is raised exactly when no paragraph has visible text: styles never cause
      it. */
  lemma IndentedTocError(paras: seq<Paragraph>, indentSpaces: int)
    ensures IndentedToc(paras, indentSpaces).Err? <==> forall i :: 0 <= i < |paras| ==> !HasText(paras[i])
  {
    forall i | 0 <= i < |paras|
      ensures IndentedLine(paras[i], indentSpaces).Some? <==> HasText(paras[i])
    {
      IndentedLineSpec(paras[i], indentSpaces);
    }
    CollectEmpty(paras, p => IndentedLine(p, indentSpaces));
  }

  /** `extract_toc_indented` after loading the document: the paragraph loop and the test
      for no lines. */
  method ExtractTocIndented(paras: seq<Paragraph>, indentSpaces: int) returns (r: Result<string>)
    ensures r == IndentedToc(paras, indentSpaces)
  {
    var lines: seq<string> := [];
    var i := 0;
    while i < |paras|
      invariant 0 <= i <= |paras|
      invariant lines == IndentedLines(paras[..i], indentSpaces)
    {
      IndentedLinesStep(paras, i, indentSpaces);
      var line := IndentedLine(paras[i], indentSpaces);
      if line.Some? {
        lines := lines + [line.value];
      }
      i := i + 1;
    }
    assert paras[..i] == paras;
    if lines == [] {
      return Err(NoEntriesMessage);
    }
    return Ok(Join(lines, "\n"));
  }
}
