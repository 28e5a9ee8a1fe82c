/** The document as the extractors see it once python-docx has loaded it. */
module Docx {
  import opened PyStr

  /** One paragraph: its style name (`p.style.name`, with a missing name as ""), its
      flattened text `p.text`, and the texts of its runs `[r.text for r in p.runs]`. */
  datatype Paragraph = Paragraph(style: string, text: string, runs: seq<string>)

  /** The paragraph has visible text: `p.text.strip()` is not empty. */
  predicate HasText(p: Paragraph) {
    !AllSpace(p.text)
  }

  /** The `mode` setting: "auto", "headings" or "toc". */
  datatype Mode = Auto | Headings | Toc
}

/** Turning a paragraph style name into an outline level.

    `detect_level` is the same text in three scripts
    (Get_word_index/Temp/word_index_output_R000.py:26-47, R002.py:52-63 and
    R003.py:41-52) and is modelled once here, together with the two regexes it uses,
    `^Heading\s+(\d+)$` and `^TOC\s+(\d+)$` (both with re.IGNORECASE), the "TOC 2 is top
    level" remap shared by R002 and R003, and the prefix regex of R005. */
module StyleLevels {
  import opened Wrappers
  import opened PyStr
  import opened Docx

  /** `s` is `word` (ignoring case), then one or more whitespace characters up to `k`,
      then one or more digits up to the end. */
  ghost predicate SplitsAt(s: string, word: string, k: int) {
    |word| < k < |s| && LowerAscii(s[..|word|]) == word && AllSpace(s[|word|..k]) && AllDigits(s[k..])
  }

  /** The digits can only start right after the whitespace run. */
  lemma SplitPoint(s: string, word: string)
    requires |word| <= |s|
    ensures forall k :: SplitsAt(s, word, k) ==> k == |word| + LeadingSpaceCount(s[|word|..])
  {
    forall k | SplitsAt(s, word, k)
      ensures k == |word| + LeadingSpaceCount(s[|word|..])
    {
      var rest := s[|word|..];
      assert rest[..k - |word|] == s[|word|..k];
      assert rest[k - |word|] == s[k] && IsDigit(s[k]);
      LeadingSpaceCountAt(rest, k - |word|);
    }
  }

  /** A full match of `<word>\s+(\d+)` ignoring case, and the number it captures. */
  function NumberedStyle(s: string, word: string): (r: Option<nat>)
    ensures r.Some? <==> exists k :: SplitsAt(s, word, k)
    ensures forall k :: SplitsAt(s, word, k) ==> r == Some(DigitsValue(s[k..]))
  {
    if |s| <= |word| || LowerAscii(s[..|word|]) != word then None
    else
      SplitPoint(s, word);
      var n := LeadingSpaceCount(s[|word|..]);
      var k := |word| + n;
      assert s[|word|..][..n] == s[|word|..k];
      if n > 0 && k < |s| && AllDigits(s[k..]) then
        assert SplitsAt(s, word, k);
        Some(DigitsValue(s[k..]))
      else None
  }

  /** `HEADING_RE.match(style)`: the level of a `Heading N` style. */
  function HeadingLevel(style: string): Option<nat> {
    NumberedStyle(DropFinalNewline(style), "heading")
  }

  /** `TOC_RE.match(style)`: the level of a `TOC N` style. */
  function TocLevel(style: string): Option<nat> {
    NumberedStyle(DropFinalNewline(style), "toc")
  }

  /** No style name is both a `Heading N` and a `TOC N` style. */
  lemma FamiliesDisjoint(style: string)
    ensures !(HeadingLevel(style).Some? && TocLevel(style).Some?)
  {
    var d := DropFinalNewline(style);
    if HeadingLevel(style).Some? {
      var k :| SplitsAt(d, "heading", k);
      assert LowerAscii(d[..7])[0] == LowerChar(d[0]) == 'h';
      assert LowerAscii(d[..3])[0] == 'h';
    }
  }

  /** `detect_level(style_name, mode)`. */
  function DetectLevel(style: string, mode: Mode): (r: Option<nat>)
    ensures r.Some? ==> r == HeadingLevel(style) || r == TocLevel(style)
  {
    if mode in {Auto, Headings} && HeadingLevel(style).Some? then HeadingLevel(style)
    else if mode in {Auto, Toc} then TocLevel(style)
    else None
  }

  /** The mode rules: "auto" takes the heading level and tries TOC only when that fails;
      "headings" never yields a level for a TOC style, "toc" never for a Heading style;
      other styles, the empty one included, yield none. */
  lemma DetectLevelRules(style: string, mode: Mode)
    ensures mode == Auto && HeadingLevel(style).Some? ==> DetectLevel(style, mode) == HeadingLevel(style)
    ensures mode == Auto && HeadingLevel(style).None? ==> DetectLevel(style, mode) == TocLevel(style)
    ensures mode == Headings ==> DetectLevel(style, mode) == HeadingLevel(style)
    ensures mode == Headings && TocLevel(style).Some? ==> DetectLevel(style, mode).None?
    ensures mode == Toc ==> DetectLevel(style, mode) == TocLevel(style)
    ensures mode == Toc && HeadingLevel(style).Some? ==> DetectLevel(style, mode).None?
    ensures HeadingLevel(style).None? && TocLevel(style).None? ==> DetectLevel(style, mode).None?
    ensures DetectLevel("", mode).None?
  {
    FamiliesDisjoint(style);
    assert DropFinalNewline("") == "";
  }

  /** A `Heading N` style name never contains the letters "TOC". */
  lemma HeadingStyleHasNoToc(style: string)
    ensures HeadingLevel(style).Some? ==> !Contains(style, "TOC")
  {
    var d := DropFinalNewline(style);
    if HeadingLevel(style).Some? {
      var k :| SplitsAt(d, "heading", k);
      forall i | 0 <= i < |style|
        ensures style[i] != 'T'
      {
        if i < 7 {
          assert LowerAscii(d[..7])[i] == LowerChar(d[i]);
        } else if i < k {
          assert IsSpace(d[7..k][i - 7]);
        } else if i < |d| {
          assert IsDigit(d[k..][i - k]);
        }
      }
      forall i, j | 0 <= i <= j <= |style|
        ensures style[i..j] != "TOC"
      {
        if j - i == 3 {
          assert style[i..j][0] == style[i];
        }
      }
    }
  }

  /** `if "TOC" in style and level == 2: level = 1` (R002 and R003): the level only
      changes for a TOC style of level 2 spelled with the capitals "TOC", and becomes 1. */
  function TopLevelTocTwo(style: string, mode: Mode): (r: Option<nat>)
    ensures r != DetectLevel(style, mode) ==>
      Contains(style, "TOC") && TocLevel(style) == Some(2) && DetectLevel(style, mode) == Some(2) && r == Some(1)
    ensures Contains(style, "TOC") && DetectLevel(style, mode) == Some(2) ==> r == Some(1)
  {
    var level := DetectLevel(style, mode);
    if Contains(style, "TOC") && level == Some(2) then
      HeadingStyleHasNoToc(style);
      Some(1)
    else level
  }

  /** The number of digits `s` starts with. */
  function LeadingDigitCount(s: string): (n: nat)
    ensures n <= |s| && AllDigits(s[..n])
    ensures n < |s| ==> !IsDigit(s[n])
  {
    if s != [] && IsDigit(s[0]) then
      var n := 1 + LeadingDigitCount(s[1..]);
      assert s[..n] == [s[0]] + s[1..][..n - 1];
      n
    else 0
  }

  /** The length of the `TOC` or `Heading` word `style` starts with (ignoring case);
      0 for neither. */
  function FamilyWordLength(style: string): nat {
    if |style| >= 3 && LowerAscii(style[..3]) == "toc" then 3
    else if |style| >= 7 && LowerAscii(style[..7]) == "heading" then 7
    else 0
  }

  /** `style` starts with `TOC` or `Heading`, then whitespace (possibly none) up to `k`,
      and has a digit at `k`. */
  ghost predicate NumberAt(style: string, k: int) {
    var w := FamilyWordLength(style);
    0 < w <= k < |style| && AllSpace(style[w..k]) && IsDigit(style[k])
  }

  /** The digits can only start right after the whitespace run. */
  lemma NumberPoint(style: string)
    ensures forall k :: NumberAt(style, k) ==>
      k == FamilyWordLength(style) + LeadingSpaceCount(style[FamilyWordLength(style)..])
  {
    var w := FamilyWordLength(style);
    forall k | NumberAt(style, k)
      ensures k == w + LeadingSpaceCount(style[w..])
    {
      assert style[w..][..k - w] == style[w..k];
      assert style[w..][k - w] == style[k];
      LeadingSpaceCountAt(style[w..], k - w);
    }
  }

  /** `re.match(r"^(TOC|Heading)\s*(\d+)", style, re.IGNORECASE)` of R005 and the number
      it captures: a prefix match, so zero spaces and any trailing text are allowed. */
  function PrefixStyleLevel(style: string): (r: Option<nat>)
    ensures r.Some? <==> exists k :: NumberAt(style, k)
  {
    var w := FamilyWordLength(style);
    if w == 0 then None
    else
      NumberPoint(style);
      var k := w + LeadingSpaceCount(style[w..]);
      var d := LeadingDigitCount(style[k..]);
      if d == 0 then None
      else
        assert style[w..][..k - w] == style[w..k];
        assert NumberAt(style, k);
        Some(DigitsValue(style[k..][..d]))
  }

  /** The number captured is the digit run that starts where the match puts it. */
  lemma PrefixStyleLevelValue(style: string, k: int)
    requires NumberAt(style, k)
    ensures PrefixStyleLevel(style) == Some(DigitsValue(style[k..][..LeadingDigitCount(style[k..])]))
  {
    NumberPoint(style);
  }

  /** The indent of R002 and R003, `" " * ((max(level, 1) - 1) * indent_spaces)`: levels 0
      and 1 are not indented. */
  function ClampedIndent(level: nat, indentSpaces: int): (r: string)
    ensures level <= 1 ==> r == ""
    ensures forall i :: 0 <= i < |r| ==> r[i] == ' '
  {
    Spaces((Max(level, 1) - 1) * indentSpaces)
  }
}
