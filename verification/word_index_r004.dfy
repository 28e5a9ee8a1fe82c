/** Get_word_index/Temp/word_index_output_R004.py: every paragraph of a Word document that
    has visible text, stripped, one per line, in document order. */
module WordIndexR004 {
  import opened Wrappers
  import opened PyStr
  import opened Passes
  import opened Docx

  /** One iteration of the loop (lines 29-34): the stripped text, unless it is empty. */
  function VisibleLine(p: Paragraph): Option<string> {
    var text := Strip(p.text);
    if text == "" then None else Some(text)
  }

  /** A paragraph yields a line exactly when it has visible text, and the line is its text
      stripped: not empty and with no whitespace at its ends. */
  lemma VisibleLineSpec(p: Paragraph)
    ensures VisibleLine(p).Some? <==> HasText(p)
    ensures VisibleLine(p).Some? ==>
      VisibleLine(p).value == Strip(p.text) && VisibleLine(p).value != "" && NoEdgeSpace(VisibleLine(p).value) &&
      Contains(p.text, VisibleLine(p).value)
  {
    StripContained(p.text);
  }

  function VisibleLines(paras: seq<Paragraph>): seq<string> {
    Collect(paras, VisibleLine)
  }

  /** The lines are the stripped texts of the paragraphs with visible text, one each and in
      document order: there are as many lines as such paragraphs, line `k` comes from
      paragraph `idx[k]`, the indices increase, and every such paragraph is among them. */
  lemma VisibleLinesSpec(paras: seq<Paragraph>)
    ensures |VisibleLines(paras)| == CountWhere(paras, HasText)
    ensures var idx := SourceIndices(paras, VisibleLine);
      (forall k :: 0 <= k < |idx| ==> idx[k] < |paras| && VisibleLines(paras)[k] == Strip(paras[idx[k]].text)) &&
      (forall k, m :: 0 <= k < m < |idx| ==> idx[k] < idx[m]) &&
      (forall i :: 0 <= i < |paras| && HasText(paras[i]) ==> i in idx)
  {
    forall i | 0 <= i < |paras|
      ensures VisibleLine(paras[i]).Some? <==> HasText(paras[i])
    {
      VisibleLineSpec(paras[i]);
    }
    CollectLength(paras, VisibleLine, HasText);
  }

  const NoTextMessage: string := "\U{26A0}\U{FE0F} No visible text found in the document."

  /** What `extract_visible_text` does with the paragraphs: the file content it writes (the
      lines joined by newlines, with a final newline), or the error. */
  function VisibleText(paras: seq<Paragraph>): Result<string> {
    var lines := VisibleLines(paras);
    if lines == [] then Err(NoTextMessage) else Ok(Join(lines, "\n") + "\n")
  }

  /** The error is raised exactly when no paragraph has visible text, an empty document
      included. */
  lemma VisibleTextError(paras: seq<Paragraph>)
    ensures VisibleText(paras).Err? <==> forall i :: 0 <= i < |paras| ==> !HasText(paras[i])
    ensures VisibleText([]) == Err(NoTextMessage)
  {
    forall i | 0 <= i < |paras|
      ensures VisibleLine(paras[i]).Some? <==> HasText(paras[i])
    {
      VisibleLineSpec(paras[i]);
    }
    CollectEmpty(paras, VisibleLine);
  }

  /** `extract_visible_text` after the file checks: the paragraph loop and the test for no
      lines. */
  method ExtractVisibleText(paras: seq<Paragraph>) returns (r: Result<string>)
    ensures r == VisibleText(paras)
  {
    ghost var f := VisibleLine;
    var lines: seq<string> := [];
    var i := 0;
    while i < |paras|
      invariant 0 <= i <= |paras|
      invariant lines == Collect(paras[..i], f)
    {
      CollectStep(paras, i, f);
      var text := Strip(paras[i].text);
      if text != "" {
        lines := lines + [text];
      }
      i := i + 1;
    }
    assert paras[..i] == paras;
    if lines == [] {
      return Err(NoTextMessage);
    }
    return Ok(Join(lines, "\n") + "\n");
  }
}
