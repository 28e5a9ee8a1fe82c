# Python scripts database: a Dafny model of its text-processing core

The repository is a collection of small Windows utility scripts. This project models the
parts of them that compute something, and proves what they promise:

- **Word outline extractors** (`Get_word_index/Temp/word_index_output_R000.py` to `R005.py`).
  Each turns the paragraphs of a Word document into an indented plain-text table of
  contents. The model covers:
  - the style-name rules (`Heading N`, `TOC N`, the "TOC 2 is top level" remap, the
    `(TOC|Heading)\s*(\d+)` prefix rule);
  - the TOC line cleaners (`clean_toc_line` in two versions, `clean_toc_joined`);
  - the paragraph loops, the fallback pass, the last-paragraph check;
  - the "nothing found" errors and the exact text each script writes.
- **`.bat` converters** (`bat_file/Temp/bat_file_converter_R000.py`, `R001.py`,
  `bat_file/bat_file_converter_R002.py`). Each turns every `.txt` list of links and paths
  into a `.bat` launcher. The model covers:
  - `classify_line` with its ordered rules: Notion page, web link, folder, file with an
    extension, fallback;
  - the Windows `os.path.splitext`;
  - the `.bat` name and text.
- **`Word_highlight.py`**: the cutting of each paragraph into runs around formula matches.
  A match is highlighted when its normal form was seen before, anywhere earlier in the
  document.
- **`Transcript_saver_R000.py`**: `sanitize_filename`.

Paragraphs are values `Paragraph(style, text, runs)` (module `Docx`). Every loop that
appends to a list is written as a Dafny `method` with a `while` loop. Each such loop is
proved equal to a specification function built on `Passes.Collect`, the filter-map that
loop computes. Properties are proved about those functions.

Where the documentation of a function and its code disagree, the model follows the code.
The docstring of `clean_toc_line` in `word_index_output_R000.py` says
`'Chapter 1.............  12'` becomes `'Chapter 1'`. The second substitution then removes
` 1` as well, so the code gives `'Chapter'` (`WordIndexR000.CleanTocLineNumberedTitle`).

Modules, one per source file plus shared ones:

| module | what it holds |
|---|---|
| `Wrappers` | `Option` (Python's `None`) and `Result` (a raised error) |
| `PyStr` | `strip`, `split`, `in`, `join`, `" " * n`, ASCII `lower` |
| `Passes` | the append loop |
| `Docx` | paragraphs and modes |
| `StyleLevels` | `detect_level` (identical in R000, R002 and R003) and the R005 prefix rule |
| `TocTails` | the two `...$` page-number substitutions |
| `BatRules` | what the three converters share word for word |
| `WordIndexR000` … `WordIndexR005`, `BatConverterR000` … `BatConverterR002`, `WordHighlight`, `TranscriptSaver` | one script each |

## Model

| member | source | states |
|---|---|---|
| PyStr.Strip | Get_word_index/Temp/word_index_output_R004.py:30 | `strip()` leaves the slice between the leading and the trailing whitespace. The result has no whitespace at its ends, is empty exactly when the text is blank, and a text without edge whitespace is returned unchanged. |
| PyStr.BeforeFirst | Get_word_index/Temp/word_index_output_R000.py:18-19 | `text.split('\t', 1)[0]` is the prefix up to the first tab. It holds no tab, and a tab follows it unless it is the whole text. |
| PyStr.AfterLast | Get_word_index/Temp/word_index_output_R002.py:41 | `parts[-1]` of `split('\t')` is the suffix after the last tab. It holds no tab, and a tab precedes it unless it is the whole text. |
| PyStr.Spaces | Get_word_index/Temp/word_index_output_R005.py:25 | `" " * n` has `max(n, 0)` characters, all spaces, so a negative count gives `""`. |
| PyStr.LowerAscii | bat_file/bat_file_converter_R002.py:39 | `lower()` keeps the length and lower-cases each character in place. |
| PyStr.DropFinalNewline | Get_word_index/Temp/word_index_output_R000.py:7-8 | `$` also matches before one final newline: the text matched against is the text, or the text minus a final `"\n"`. |
| Passes.CollectLines | Get_word_index/Temp/word_index_output_R004.py:28-34 | The append loop builds exactly `Collect`: each element's line, if it yields one, in input order. |
| Passes.SourceIndices | Get_word_index/Temp/word_index_output_R004.py:29-34 | Every collected line is the line of one element. The elements are in increasing order, and every element that yields a line is among them. |
| Passes.CollectLength | Get_word_index/Temp/word_index_output_R004.py:29-34 | There are as many lines as elements that yield one. |
| Passes.CollectEmpty | Get_word_index/Temp/word_index_output_R004.py:36 | There is no line exactly when no element yields one. |
| Passes.CollectAppend | Get_word_index/Temp/word_index_output_R000.py:59-79 | The lines of a concatenation are the lines of each part, in order. |
| StyleLevels.NumberedStyle | Get_word_index/Temp/word_index_output_R000.py:7-8 | A full case-insensitive match of `Heading\s+(\d+)` or `TOC\s+(\d+)` exists exactly when the result is a level. The level is the value of the digits. |
| StyleLevels.FamiliesDisjoint | Get_word_index/Temp/word_index_output_R000.py:7-8 | No style name matches both the heading and the TOC pattern. |
| StyleLevels.DetectLevel | Get_word_index/Temp/word_index_output_R000.py:26-47 | `detect_level` returns either the heading level or the TOC level of the style. |
| StyleLevels.DetectLevelRules | Get_word_index/Temp/word_index_output_R000.py:34-47 | "auto" takes the heading level and falls back to TOC. "headings" never gives a level to a TOC style, and "toc" never to a heading style. Other styles and the empty name give none. |
| StyleLevels.HeadingStyleHasNoToc | Get_word_index/Temp/word_index_output_R002.py:81-82 | A `Heading N` style name never contains `"TOC"`, so the remap only touches TOC styles. |
| StyleLevels.TopLevelTocTwo | Get_word_index/Temp/word_index_output_R002.py:78-82 | The level changes exactly for a style containing the capitals `"TOC"` at level 2, and then becomes 1. A lower-case `toc 2` keeps level 2. |
| StyleLevels.PrefixStyleLevel | Get_word_index/Temp/word_index_output_R005.py:19 | The prefix match of `TOC` or `Heading` (any case), optional whitespace and digits succeeds exactly when the style starts with the word, optional whitespace and a digit. |
| StyleLevels.PrefixStyleLevelValue | Get_word_index/Temp/word_index_output_R005.py:19-21 | The captured level is the value of the digit run at the match point, whatever follows it. |
| StyleLevels.ClampedIndent | Get_word_index/Temp/word_index_output_R002.py:99 | The indent is spaces only. Levels 0 and 1 are both unindented. |
| TocTails.DotLeaderTailShape | Get_word_index/Temp/word_index_output_R000.py:21 | The computable test equals the shape of `\.{3,}\s*\d+\s*`: three or more dots, whitespace, one or more digits, whitespace. |
| TocTails.SpacedNumberTailShape | Get_word_index/Temp/word_index_output_R000.py:23 | The computable test equals the shape of `\s+\d+\s*`. |
| TocTails.CutTailSpec | Get_word_index/Temp/word_index_output_R000.py:21-23 | A `...$` substitution removes the suffix from the leftmost position where the rest has the pattern's shape, and nothing when there is none. |
| TocTails.CutDotLeaderShape | Get_word_index/Temp/word_index_output_R000.py:21 | The dot-leader substitution removes the leftmost suffix that is dots, whitespace, digits, whitespace. No earlier suffix has that shape. |
| TocTails.CutSpacedNumberShape | Get_word_index/Temp/word_index_output_R000.py:23 | The page-number substitution removes the leftmost suffix that is whitespace, digits, whitespace. No earlier suffix has that shape. |
| TocTails.CutsWithoutDigits | Get_word_index/Temp/word_index_output_R000.py:21-23 | A text without digits is left unchanged by both substitutions. |
| TocTails.LeaderCut | Get_word_index/Temp/word_index_output_R000.py:21 | A title that ends in neither a dot nor whitespace, followed by a dot-leader tail, is cut back to the title. |
| TocTails.SpacedCut | Get_word_index/Temp/word_index_output_R000.py:23 | A title that ends in neither whitespace nor a digit, followed by a spaced number, is cut back to the title. |
| WordIndexR000.CleanTocLine | Get_word_index/Temp/word_index_output_R000.py:10-24 | `clean_toc_line`: the result holds no tab, has no whitespace at its ends, and is a contiguous piece of the input. |
| WordIndexR000.CleanTocLineHead | Get_word_index/Temp/word_index_output_R000.py:18-19 | Only the text before the first tab matters. |
| WordIndexR000.CleanTocLineWithoutDigits | Get_word_index/Temp/word_index_output_R000.py:18-24 | Without digits, cleaning is only the cut at the first tab and the strip. |
| WordIndexR000.CleanTocLineTabbed | Get_word_index/Temp/word_index_output_R000.py:15-19 | Title, tab, rest gives the stripped title. `'Intro\t3'` gives `'Intro'`. |
| WordIndexR000.CleanTocLineLeader | Get_word_index/Temp/word_index_output_R000.py:21-24 | Title, dot leader, page number and trailing whitespace give the title. |
| WordIndexR000.CleanTocLineNumberedTitle | Get_word_index/Temp/word_index_output_R000.py:14-24 | Title, number, dot leader and page give the title without its number: `'Chapter 1.....  12'` gives `'Chapter'`. |
| WordIndexR000.TitleThenNumber | Get_word_index/Temp/word_index_output_R000.py:23 | A title followed by whitespace and digits loses exactly that group. |
| WordIndexR000.NumberThenLeader | Get_word_index/Temp/word_index_output_R000.py:21 | Text ending in a digit followed by a dot leader is cut right after that digit. |
| WordIndexR000.ParagraphLineShape | Get_word_index/Temp/word_index_output_R000.py:60-79 | A first-pass line comes from a paragraph with a level. It is that level's indent followed by non-empty text with no edge whitespace. Heading text is only stripped; TOC text is cleaned and has no tab. |
| WordIndexR000.FallbackLineShape | Get_word_index/Temp/word_index_output_R000.py:83-92 | A fallback line comes from a `TOC N` paragraph. It is the indent of level N followed by a non-empty, tab-free piece of the paragraph's text. |
| WordIndexR000.FallbackOnlyWhenFirstPassEmpty | Get_word_index/Temp/word_index_output_R000.py:81-92 | The fallback pass replaces the first pass only when that pass found nothing and the mode is not "toc". |
| WordIndexR000.OutlineError | Get_word_index/Temp/word_index_output_R000.py:95-101 | The error is raised exactly when the first pass and, outside "toc" mode, the fallback pass both find nothing. |
| WordIndexR000.OutlineWithoutLevels | Get_word_index/Temp/word_index_output_R000.py:59-101 | A document without any `Heading N` or `TOC N` style, the empty one included, gives the error. |
| WordIndexR000.Extract | Get_word_index/Temp/word_index_output_R000.py:59-106 | The two loops and the final check produce the specified outline or error. |
| WordIndexR002.CleanTocLine | Get_word_index/Temp/word_index_output_R002.py:30-49 | The result has no tab and no edge whitespace. It is non-empty when the stripped input holds a tab. Without kept pages it is a piece of the input. |
| WordIndexR002.TabbedEntry | Get_word_index/Temp/word_index_output_R002.py:38-45 | The tab branch gives a non-empty, tab-free line with no edge whitespace. Without kept pages it is a piece of the text. |
| WordIndexR002.CleanTocLineTabbed | Get_word_index/Temp/word_index_output_R002.py:38-45 | Title, tab, page gives `title + " " + page` when pages are kept, the title otherwise. |
| WordIndexR002.CleanTocLineMiddleFields | Get_word_index/Temp/word_index_output_R002.py:39-45 | Fields between the first and the last are dropped. |
| WordIndexR002.CleanTocLineTrailingSpace | Get_word_index/Temp/word_index_output_R002.py:35-38 | Trailing whitespace, a final tab included, changes nothing: the text is stripped before the tab test. |
| WordIndexR002.UntabbedLine | Get_word_index/Temp/word_index_output_R002.py:35-49 | Without a tab after stripping, the line is the stripped text with its dot leader cut, stripped again. |
| WordIndexR002.CleanTocLineLeader | Get_word_index/Temp/word_index_output_R002.py:47-49 | Title, dot leader, page and trailing whitespace, with no tab, give the title whatever `keep_pages` says. |
| WordIndexR002.CleanTocLineUntabbed | Get_word_index/Temp/word_index_output_R002.py:42-49 | Without a tab, `keep_pages` makes no difference. |
| WordIndexR002.ParagraphLineShape | Get_word_index/Temp/word_index_output_R002.py:76-100 | A line is the clamped indent of the remapped level followed by non-empty, tab-free text with no edge whitespace. Without kept pages that text is a piece of the paragraph's text. |
| WordIndexR002.HeadingLineKeepsNoPage | Get_word_index/Temp/word_index_output_R002.py:91-94 | Pages are not kept for a `Heading N` paragraph outside "toc" mode. |
| WordIndexR002.ParagraphLineNone | Get_word_index/Temp/word_index_output_R002.py:84-89 | A paragraph without a level, or with blank text, yields no line. |
| WordIndexR002.TocTwoUnindented | Get_word_index/Temp/word_index_output_R002.py:81-99 | A `TOC 2` paragraph whose style contains `"TOC"` is written without indent. |
| WordIndexR002.AppendMissingLast | Get_word_index/Temp/word_index_output_R002.py:106-111 | The block appends the stripped last paragraph exactly when it is non-blank, holds a digit and is not part of the last line; otherwise the lines are unchanged. Afterwards a non-blank last paragraph with a digit is contained in the last line. |
| WordIndexR002.CheckLastParagraph | Get_word_index/Temp/word_index_output_R002.py:106-111 | The block's statements compute `AppendMissingLast`. |
| WordIndexR002.AppendMissingLastIdempotent | Get_word_index/Temp/word_index_output_R002.py:105-119 | Running the block twice equals running it once, so the repeated block never appends. |
| WordIndexR002.OutlineError | Get_word_index/Temp/word_index_output_R002.py:102-103 | The error is raised exactly when no paragraph yields a line, before the last-paragraph check. |
| WordIndexR002.OutlineLines | Get_word_index/Temp/word_index_output_R002.py:105-124 | The written lines are the collected ones plus at most the stripped last paragraph. That paragraph is then not in the last collected line and holds a digit. |
| WordIndexR002.ExtractToc | Get_word_index/Temp/word_index_output_R002.py:75-124 | The loop, the error check and both blocks produce the specified outline or error. |
| WordIndexR003.RemoveDotRuns | Get_word_index/Temp/word_index_output_R003.py:36 | `re.sub(r"\.{3,}", "", s)` leaves no three dots in a row and keeps a first character that is not a dot. |
| WordIndexR003.RemoveDotRunsKeeps | Get_word_index/Temp/word_index_output_R003.py:36 | Every character other than a dot is kept, in order. |
| WordIndexR003.RemoveDotRunsFixed | Get_word_index/Temp/word_index_output_R003.py:36 | A text without three dots in a row is unchanged. |
| WordIndexR003.CollapseSpaces | Get_word_index/Temp/word_index_output_R003.py:37 | `re.sub(r"\s{2,}", " ", s)` leaves no two whitespace characters in a row and keeps whether the text starts with whitespace. |
| WordIndexR003.CollapseSpacesKeeps | Get_word_index/Temp/word_index_output_R003.py:37 | Every character other than whitespace is kept, in order. |
| WordIndexR003.CollapseSpacesFixed | Get_word_index/Temp/word_index_output_R003.py:37 | A text without two whitespace characters in a row is unchanged. |
| WordIndexR003.CollapseSpacesNoTripleDot | Get_word_index/Temp/word_index_output_R003.py:36-37 | Collapsing whitespace after the dot removal creates no new run of three dots. |
| WordIndexR003.StripKeepsRuns | Get_word_index/Temp/word_index_output_R003.py:38 | Stripping keeps both "no run" properties. |
| WordIndexR003.StripKeeps | Get_word_index/Temp/word_index_output_R003.py:38 | Stripping removes only whitespace. |
| WordIndexR003.CleanTocJoined | Get_word_index/Temp/word_index_output_R003.py:30-38 | The result has no edge whitespace, no two whitespace characters in a row and no three dots in a row. |
| WordIndexR003.CleanTocJoinedKeeps | Get_word_index/Temp/word_index_output_R003.py:30-38 | Every character that is neither a dot nor whitespace is kept, in order. In particular every digit is kept, so page numbers survive. |
| WordIndexR003.CleanTocJoinedFixed | Get_word_index/Temp/word_index_output_R003.py:30-38 | A text is unchanged exactly when it already has the three properties, so cleaning is idempotent. |
| WordIndexR003.JoinAllSpace | Get_word_index/Temp/word_index_output_R003.py:82 | `" ".join(parts)` is blank exactly when every part is. |
| WordIndexR003.JoinedRunsBlank | Get_word_index/Temp/word_index_output_R003.py:77-84 | The joined text is empty, and the paragraph skipped, exactly when every run is blank. |
| WordIndexR003.JoinRuns | Get_word_index/Temp/word_index_output_R003.py:77-82 | The inner loop computes `" ".join(stripped non-empty runs).strip()`. |
| WordIndexR003.ParagraphLineShape | Get_word_index/Temp/word_index_output_R003.py:65-91 | A line is the clamped indent of the remapped level followed by the non-empty cleaned text of the joined runs, headings included. |
| WordIndexR003.ParagraphLineNone | Get_word_index/Temp/word_index_output_R003.py:67-84 | A paragraph without a level, or whose runs are all blank, yields no line. |
| WordIndexR003.OutlineError | Get_word_index/Temp/word_index_output_R003.py:93-94 | The error is raised exactly when no paragraph yields a line. |
| WordIndexR003.ExtractToc | Get_word_index/Temp/word_index_output_R003.py:64-99 | The nested loops and the error check produce the specified outline or error. |
| WordIndexR004.VisibleLineSpec | Get_word_index/Temp/word_index_output_R004.py:30-34 | A paragraph yields a line exactly when its stripped text is not empty. The line is that stripped text. |
| WordIndexR004.VisibleLinesSpec | Get_word_index/Temp/word_index_output_R004.py:29-34 | There is one line per paragraph with visible text, in document order, and each is that paragraph's stripped text. |
| WordIndexR004.VisibleTextError | Get_word_index/Temp/word_index_output_R004.py:36-37 | The error is raised exactly when no paragraph has visible text. |
| WordIndexR004.ExtractVisibleText | Get_word_index/Temp/word_index_output_R004.py:28-40 | The loop and the empty-result test produce the lines joined by `"\n"` with a final `"\n"`, or the error. |
| WordIndexR005.EntryLevel | Get_word_index/Temp/word_index_output_R005.py:19-23 | The level is the number captured by the prefix match, and 1 when there is no match. |
| WordIndexR005.IndentedLineSpec | Get_word_index/Temp/word_index_output_R005.py:14-16 | A paragraph yields a line exactly when its stripped text is not empty. |
| WordIndexR005.IndentedLineShape | Get_word_index/Temp/word_index_output_R005.py:25-26 | The line is `(level - 1) * indent` spaces and then the stripped text, uncleaned. Level 0 gives no indent. |
| WordIndexR005.IndentedLinesSpec | Get_word_index/Temp/word_index_output_R005.py:12-26 | Every paragraph with visible text yields exactly one line, in document order. |
| WordIndexR005.IndentedTocError | Get_word_index/Temp/word_index_output_R005.py:28-29 | The error is raised exactly when no paragraph has visible text. Styles never cause it. |
| WordIndexR005.ExtractTocIndented | Get_word_index/Temp/word_index_output_R005.py:10-32 | The loop and the empty-result test produce the lines joined by `"\n"` without a final newline, or the error. |
| TranscriptSaver.SanitizeFilename | Transcript_saver_R000.py:6-8 | None of the nine characters backslash, slash, `*`, `?`, `:`, `"`, `<`, `>` and the vertical bar is left, and the result is no longer than the input. |
| TranscriptSaver.SanitizeFilenameCharacterwise | Transcript_saver_R000.py:8 | The deletion works character by character: it distributes over concatenation, keeps an allowed character and drops a forbidden one. |
| TranscriptSaver.SanitizeFilenameCounts | Transcript_saver_R000.py:8 | Every allowed character occurs as often as in the input, and no forbidden one occurs. |
| TranscriptSaver.SanitizeFilenameIdempotent | Transcript_saver_R000.py:8 | Sanitising twice is sanitising once. |
| TranscriptSaver.SanitizeFilenameLength | Transcript_saver_R000.py:8 | The length is kept exactly when the name has no forbidden character, and the name is then returned unchanged. |
| BatRules.SplitExt | bat_file/bat_file_converter_R002.py:22 | `os.path.splitext`: root and extension make up the path. An extension is a dot followed by no dot and no separator. |
| BatRules.HasFileExtensionSpec | bat_file/bat_file_converter_R002.py:26 | The computed test equals `\.[A-Za-z0-9]{2,5}$`: a dot and two to five ASCII letters or digits at the end, or before a final newline. |
| BatRules.BaseKind | bat_file/bat_file_converter_R002.py:18-28 | The rules in their order: web link first, then folder, then file with an extension. |
| BatRules.StartCommandInjective | bat_file/bat_file_converter_R002.py:19-28 | Different targets give different `start` commands. |
| BatRules.StartIsNotUnrecognized | bat_file/bat_file_converter_R002.py:28-31 | A `start` command is never the fallback `echo` command. |
| BatRules.NonBlankLines | bat_file/bat_file_converter_R002.py:45 | The lines acted on are the non-blank lines of the file, stripped: one per non-blank line, none empty, none with edge whitespace. |
| BatRules.BodyAppend | bat_file/bat_file_converter_R002.py:51-53 | The commands of a longer list extend those of its prefix. |
| BatRules.BodyOne | bat_file/bat_file_converter_R002.py:51-53 | One line contributes its command and one newline. |
| BatRules.BatText | bat_file/bat_file_converter_R002.py:48-55 | The text starts with the two header writes and ends with `"\necho Done!\npause\n"`. |
| BatRules.WriteBat | bat_file/bat_file_converter_R002.py:47-55 | The sequence of writes produces `BatText`. |
| BatRules.ConvertFile | bat_file/bat_file_converter_R002.py:38-55 | A `.txt` name, in any case, gives the root plus `.bat` and the text for its stripped non-blank lines. Any other name gives nothing. |
| BatRules.BatNameOfTxt | bat_file/bat_file_converter_R002.py:39-41 | A `.txt` name loses its last four characters to `.bat`. The exception is a name that is only dots before them, which gets `.bat` added to the whole name. |
| BatConverterR000.ClassifyLineSpec | bat_file/Temp/bat_file_converter_R000.py:4-21 | A recognised line is opened as written, anything else is echoed, and surrounding whitespace never matters. |
| BatConverterR000.Convert | bat_file/Temp/bat_file_converter_R000.py:26-43 | The converter's pass over one file, with its `classify_line`. |
| BatConverterR001.ClassifyLineSpec | bat_file/Temp/bat_file_converter_R001.py:4-22 | Links and folders are opened as written, files by their absolute path, and anything else is echoed. |
| BatConverterR001.SameAsR000Unless | bat_file/Temp/bat_file_converter_R001.py:17-19 | R000 and R001 differ exactly on files with an extension whose absolute path differs from the line. |
| BatConverterR001.Convert | bat_file/Temp/bat_file_converter_R001.py:31-50 | The converter's pass over one file, with its `classify_line`. |
| BatConverterR002.NotionLink | bat_file/bat_file_converter_R002.py:11 | Only a leading `https://` becomes `notion://`, and the rest of the link is kept. |
| BatConverterR002.NotionLinkKeepsHost | bat_file/bat_file_converter_R002.py:9-11 | The rewritten link still contains `notion.so`. |
| BatConverterR002.NotionCommand | bat_file/bat_file_converter_R002.py:12-15 | The Notion command is an `echo` line and ends with a newline. |
| BatConverterR002.Kind | bat_file/bat_file_converter_R002.py:9-31 | `notion.so` wins over every other rule. Otherwise the shared order applies. |
| BatConverterR002.ClassifyLineSpec | bat_file/bat_file_converter_R002.py:4-15 | A line naming `notion.so` gets the Notion command even when it is a web link. Surrounding whitespace never matters. |
| BatConverterR002.SameAsR001Unless | bat_file/bat_file_converter_R002.py:8-15 | R001 and R002 differ exactly on lines containing `notion.so`. |
| BatConverterR002.Convert | bat_file/bat_file_converter_R002.py:38-55 | The converter's pass over one file, with its `classify_line`. |
| WordHighlight.ReplaceMinus | Word_highlight.py:22 | `replace("−", "-")` swaps every U+2212 for a hyphen-minus and changes nothing else. |
| WordHighlight.NormalizeIsReplacements | Word_highlight.py:22 | The normal form is the two replacements applied in turn. |
| WordHighlight.NormalizeClean | Word_highlight.py:22 | A normal form has no space and no U+2212. |
| WordHighlight.NormalizeFixed | Word_highlight.py:22 | A formula without spaces or U+2212 is its own normal form. |
| WordHighlight.NormalizeIdempotent | Word_highlight.py:22 | Normalising twice is normalising once. |
| WordHighlight.SeenAfterSpec | Word_highlight.py:30-34 | `seen` only grows, by exactly the normal forms of the paragraph's matches. |
| WordHighlight.SegmentsNonEmpty | Word_highlight.py:26-40 | No run of the rebuilt paragraph is empty. |
| WordHighlight.SegmentsCover | Word_highlight.py:20-40 | The run texts, joined in order, give back the paragraph's text. |
| WordHighlight.SegmentsEmpty | Word_highlight.py:38-44 | There are no runs, and the paragraph is left alone, exactly when its text is empty. |
| WordHighlight.HighlightedAreRepeats | Word_highlight.py:25-40 | Only a match whose normal form was seen before is highlighted. Gaps and the remainder never are. |
| WordHighlight.MatchesAppear | Word_highlight.py:29-34 | Every match is a run of its own, highlighted exactly when its normal form was already seen. |
| WordHighlight.AddMatch | Word_highlight.py:25-36 | One match appends the gap before it, then the match highlighted if seen, and adds its normal form to `seen`. |
| WordHighlight.ScanMatches | Word_highlight.py:17-36 | The match loop produces the specified runs, `seen` and `last_index`. |
| WordHighlight.HighlightParagraph | Word_highlight.py:14-40 | One paragraph's runs, remainder included, and the updated `seen`. |
| WordHighlight.DocSeenSpec | Word_highlight.py:11-34 | The document-wide `seen` holds the normal form of every match in every paragraph, and nothing else. |
| WordHighlight.RebuiltAt | Word_highlight.py:11-48 | A paragraph is highlighted against the normal forms of all matches in the paragraphs before it. |
| WordHighlight.RebuiltNone | Word_highlight.py:39-44 | Only a paragraph with empty text is left as it was. |
| WordHighlight.HighlightDocument | Word_highlight.py:11-48 | The loop over the paragraphs produces the specified runs for each paragraph and the final `seen`. |

## Left out

- Loading and saving Word documents is not modelled: `Document`, `para.clear`, `add_run`, the highlight colour, `doc.save`. A document is a sequence of `Paragraph` values, and a rebuilt paragraph is a sequence of (text, highlighted) runs.
- File and console I/O is not modelled: `os.path.exists`, `os.makedirs`, `open`, `os.listdir`, `print`, `input`, `sys.exit`, argument parsing. The model returns the text a script would write, or the error it would raise. The order in which `os.listdir` lists files is not modelled: each file is converted on its own.
- `os.path.isdir` and `os.path.abspath` are function parameters with no filesystem behind them.
- Regular expressions are not modelled in general. Each pattern used is written out as a predicate. `Word_highlight.py`'s formula pattern (line 9) is not modelled: the match spans of each paragraph are an input, ordered, non-overlapping and non-empty, as `re.finditer` gives them.
- Unicode is not modelled:
  - whitespace for `strip()` and `\s` is the six characters space, `\t`, `\n`, `\r`, `\f` and `\v`. Python also strips `\x1c` to `\x1f` and the Unicode spaces;
  - `\d` and `isdigit()` accept only ASCII digits;
  - `re.IGNORECASE` and `lower()` fold only ASCII letters.
  Python also treats other Unicode spaces, digits and case pairs this way.
- A missing style name is modelled as `""`. R002 and R003 do not replace `None` by `""` before `"TOC" in style`, where Python would raise `TypeError`. R005 (`word_index_output_R005.py:13-19`) passes the name to `re.match` unchanged, which raises `TypeError` for a `None` name on every paragraph with visible text. The model gives such a paragraph level 1 instead, in `WordIndexR005.EntryLevel`.
- The network parts of `Transcript_saver_R000.py` are not modelled: pytube, the YouTube transcript API and float formatting. Only `sanitize_filename` is modelled.
- `BatConverterR002.ClassifyLineSpec`: states only the Notion rule. Which command every other line gets is stated by `BatConverterR002.SameAsR001Unless` together with `BatConverterR001.ClassifyLineSpec`.
