/** What the three `.bat` converters (bat_file/Temp/bat_file_converter_R000.py,
    bat_file/Temp/bat_file_converter_R001.py and bat_file/bat_file_converter_R002.py) share
    word for word: the tests their `classify_line` applies, the commands it emits, the
    Windows `os.path.splitext`, and the layout of the `.bat` text and its name. */
module BatRules {
  import opened Wrappers
  import opened PyStr
  import opened Passes

  /** The index of the last `c` in `s`, or -1. */
  function LastIndexOf(s: string, c: char): (i: int)
    ensures -1 <= i < |s|
    ensures i >= 0 ==> s[i] == c
    ensures forall j :: i < j < |s| ==> s[j] != c
  {
    if s == [] then -1
    else if s[|s| - 1] == c then |s| - 1
    else LastIndexOf(s[..|s| - 1], c)
  }

  /** Where `ntpath.splitext(p)` puts the extension: at the last dot after the last `\` or
      `/`, provided the file-name part before that dot is not all dots (leading dots of the
      name do not start an extension). */
  function ExtensionStart(p: string): (r: Option<nat>)
    ensures r.Some? ==> r.value < |p| && p[r.value] == '.'
  {
    var sep := LastSeparator(p);
    var dot := LastIndexOf(p, '.');
    if dot > sep && SomeNonDot(p, sep + 1, dot) then Some(dot) else None
  }

  /** `os.path.splitext(p)` with the Windows separators: root and extension. The two parts
      make up `p`; an extension is a dot followed by no dot and no separator. */
  function SplitExt(p: string): (r: (string, string))
    ensures r.0 + r.1 == p
    ensures r.1 != "" ==> r.1[0] == '.' && forall i :: 1 <= i < |r.1| ==> r.1[i] != '.' && r.1[i] != '\\' && r.1[i] != '/'
  {
    match ExtensionStart(p)
    case None =>
      assert p + "" == p;
      (p, "")
    case Some(dot) =>
      assert p[..dot] + p[dot..] == p;
      assert forall i :: 1 <= i < |p[dot..]| ==> p[dot..][i] == p[dot + i];
      (p[..dot], p[dot..])
  }

  /** `re.match(r"^(https?://|www\.)", line, re.IGNORECASE)`. */
  predicate IsWebLink(line: string) {
    var l := LowerAscii(line);
    StartsWith(l, "http://") || StartsWith(l, "https://") || StartsWith(l, "www.")
  }

  /** The folder test: `os.path.isdir(line)` (a parameter here), or no extension and a
      backslash somewhere. */
  predicate IsFolder(line: string, isdir: string -> bool) {
    isdir(line) || (SplitExt(line).1 == "" && '\\' in line)
  }

  /** The number of ASCII letters and digits `s` ends with. */
  function TrailingAlnumCount(s: string): (n: nat)
    ensures n <= |s|
    ensures forall i :: |s| - n <= i < |s| ==> IsAsciiAlnum(s[i])
    ensures n < |s| ==> !IsAsciiAlnum(s[|s| - n - 1])
  {
    if s != [] && IsAsciiAlnum(s[|s| - 1]) then 1 + TrailingAlnumCount(s[..|s| - 1]) else 0
  }

  /** `\.[A-Za-z0-9]{2,5}` matches `d` ending right at its end, with `n` letters or digits. */
  ghost predicate ExtensionMatch(d: string, n: int) {
    2 <= n <= 5 && n < |d| && d[|d| - n - 1] == '.' && forall i :: |d| - n <= i < |d| ==> IsAsciiAlnum(d[i])
  }

  /** `re.search(r"\.[A-Za-z0-9]{2,5}$", line)`; `$` also matches before a final newline. */
  predicate HasFileExtension(line: string) {
    var d := DropFinalNewline(line);
    var n := TrailingAlnumCount(d);
    2 <= n <= 5 && n < |d| && d[|d| - n - 1] == '.'
  }

  /** The computed test is the regular expression's: a dot and two to five letters or
      digits at the end. */
  lemma HasFileExtensionSpec(line: string)
    ensures HasFileExtension(line) <==> exists n :: ExtensionMatch(DropFinalNewline(line), n)
  {
    var d := DropFinalNewline(line);
    var k := TrailingAlnumCount(d);
    if HasFileExtension(line) {
      assert ExtensionMatch(d, k);
    }
    forall n | ExtensionMatch(d, n)
      ensures n == k
    {
    }
  }

  /** The rule a line falls under. */
  datatype LineKind = NotionPage | WebLink | FolderPath | FileWithExtension | Unrecognized

  /** The rules all three converters test, in their order: web link, then folder, then file
      with an extension. */
  function BaseKind(line: string, isdir: string -> bool): (k: LineKind)
    ensures k != NotionPage
    ensures k == WebLink <==> IsWebLink(line)
    ensures k == FolderPath <==> !IsWebLink(line) && IsFolder(line, isdir)
    ensures k == FileWithExtension <==> !IsWebLink(line) && !IsFolder(line, isdir) && HasFileExtension(line)
  {
    if IsWebLink(line) then WebLink
    else if IsFolder(line, isdir) then FolderPath
    else if HasFileExtension(line) then FileWithExtension
    else Unrecognized
  }

  /** `f'start "" "{target}"'` */
  function StartCommand(target: string): string {
    "start \"\" \"" + target + "\""
  }

  /** `f'echo ⚠️ Unrecognized line: {line}'` */
  function UnrecognizedCommand(line: string): string {
    "echo \U{26A0}\U{FE0F} Unrecognized line: " + line
  }

  /** A `start` command opens exactly one target: different targets give different
      commands. */
  lemma StartCommandInjective(a: string, b: string)
    ensures StartCommand(a) == StartCommand(b) <==> a == b
  {
    if StartCommand(a) == StartCommand(b) {
      var p := "start \"\" \"";
      assert |a| == |b|;
      assert a == StartCommand(a)[|p|..|p| + |a|];
      assert b == StartCommand(b)[|p|..|p| + |b|];
    }
  }

  /** A recognised line and an unrecognised one never give the same command. */
  lemma StartIsNotUnrecognized(a: string, b: string)
    ensures StartCommand(a) != UnrecognizedCommand(b)
    ensures |StartCommand(a)| > 5 && StartCommand(a)[5] == ' '
    ensures |UnrecognizedCommand(b)| > 5 && UnrecognizedCommand(b)[5] == '\U{26A0}'
  {
    assert StartCommand(a)[0] == 's';
    assert UnrecognizedCommand(b)[0] == 'e';
  }

  /** `[line.strip() for line in txt_file if line.strip()]`, one element at a time. */
  function NonBlankLine(raw: string): Option<string> {
    var line := Strip(raw);
    if line == "" then None else Some(line)
  }

  /** The lines of the `.txt` file the converters act on: the non-blank ones, stripped, in
      order, one for each line of the file that is not blank. */
  lemma NonBlankLines(raw: seq<string>)
    ensures |Collect(raw, NonBlankLine)| == CountWhere(raw, l => !AllSpace(l))
    ensures forall k :: 0 <= k < |Collect(raw, NonBlankLine)| ==>
      Collect(raw, NonBlankLine)[k] != "" && NoEdgeSpace(Collect(raw, NonBlankLine)[k])
  {
    CollectLength(raw, NonBlankLine, l => !AllSpace(l));
    var lines := Collect(raw, NonBlankLine);
    var idx := SourceIndices(raw, NonBlankLine);
    forall k | 0 <= k < |lines|
      ensures lines[k] != "" && NoEdgeSpace(lines[k])
    {
      assert NonBlankLine(raw[idx[k]]) == Some(lines[k]);
    }
  }

  const HeaderStart: string := "@echo off\n"
  const Footer: string := "\necho Done!\npause\n"

  /** The two header writes. */
  function Header(filename: string): string {
    HeaderStart + "echo Launching items from " + filename + "...\n\n"
  }

  /** The command writes: each line's command followed by a newline, in order. */
  function Body(lines: seq<string>, classify: string -> string): string {
    if lines == [] then ""
    else Body(lines[..|lines| - 1], classify) + classify(lines[|lines| - 1]) + "\n"
  }

  /** The commands of a longer list extend those of its prefix. */
  lemma {:induction false} BodyAppend(xs: seq<string>, ys: seq<string>, classify: string -> string)
    ensures Body(xs + ys, classify) == Body(xs, classify) + Body(ys, classify)
    decreases |ys|
  {
    if ys == [] {
      assert xs + ys == xs;
    } else {
      var n := |ys| - 1;
      assert (xs + ys)[..|xs + ys| - 1] == xs + ys[..n];
      assert (xs + ys)[|xs + ys| - 1] == ys[n];
      BodyAppend(xs, ys[..n], classify);
    }
  }

  /** Each command is followed by exactly one newline and nothing else is written between
      commands: one line's contribution is its command and a newline. */
  lemma BodyOne(line: string, classify: string -> string)
    ensures Body([line], classify) == classify(line) + "\n"
  {
    assert [line][..0] == [];
  }

  /** The whole `.bat` text. */
  function BatText(filename: string, lines: seq<string>, classify: string -> string): (r: string)
    ensures StartsWith(r, Header(filename)) && EndsWith(r, Footer)
  {
    var r := Header(filename) + Body(lines, classify) + Footer;
    assert r[..|Header(filename)|] == Header(filename);
    assert r[|r| - |Footer|..] == Footer;
    r
  }

  /** The write loop: the header, one command per line, the footer. */
  method WriteBat(filename: string, lines: seq<string>, classify: string -> string) returns (text: string)
    ensures text == BatText(filename, lines, classify)
  {
    text := HeaderStart;
    text := text + "echo Launching items from " + filename + "...\n\n";
    var i := 0;
    while i < |lines|
      invariant 0 <= i <= |lines|
      invariant text == Header(filename) + Body(lines[..i], classify)
    {
      var command := classify(lines[i]);
      assert lines[..i + 1][..i] == lines[..i];
      text := text + command + "\n";
      i := i + 1;
    }
    assert lines[..i] == lines;
    text := text + Footer;
  }

  /** One pass of the main loop on one file of the folder: a `.txt` file gives the name
      and text of its `.bat` file, any other file nothing. `classify` is the converter's
      `classify_line`. */
  method ConvertFile(filename: string, raw: seq<string>, classify: string -> string)
    returns (r: Option<(string, string)>)
    ensures r.Some? <==> IsTxtName(filename)
    ensures r.Some? ==>
      Some(r.value.0) == BatName(filename) &&
      r.value.1 == BatText(filename, Collect(raw, NonBlankLine), classify)
  {
    if !EndsWith(LowerAscii(filename), ".txt") {
      return None;
    }
    var batName := SplitExt(filename).0 + ".bat";
    var lines := CollectLines(raw, NonBlankLine);
    var text := WriteBat(filename, lines, classify);
    return Some((batName, text));
  }

  /** `filename.lower().endswith(".txt")` */
  predicate IsTxtName(filename: string) {
    EndsWith(LowerAscii(filename), ".txt")
  }

  /** `os.path.splitext(filename)[0] + ".bat"`, for a `.txt` name only. */
  function BatName(filename: string): Option<string> {
    if IsTxtName(filename) then Some(SplitExt(filename).0 + ".bat") else None
  }

  /** The last four characters of a `.txt` name are a dot and three letters. */
  lemma TxtTail(filename: string)
    requires IsTxtName(filename)
    ensures |filename| >= 4 && filename[|filename| - 4] == '.'
    ensures forall j :: |filename| - 4 < j < |filename| ==> filename[j] != '.' && filename[j] != '\\' && filename[j] != '/'
  {
    var n := |filename| - 4;
    var l := LowerAscii(filename);
    assert l[n..] == ".txt";
    assert l[n] == LowerChar(filename[n]);
    forall j | n < j < |filename|
      ensures filename[j] != '.' && filename[j] != '\\' && filename[j] != '/'
    {
      assert l[j] == LowerChar(filename[j]) && l[j] == l[n..][j - n];
    }
  }

  /** Some character of `p[from..to]` is not a dot. */
  predicate SomeNonDot(p: string, from: int, to: int)
    requires 0 <= from && to <= |p|
  {
    exists k :: from <= k < to && p[k] != '.'
  }

  /** The separator `ntpath` splits on last in `p`, or -1. */
  function LastSeparator(p: string): (i: int)
    ensures -1 <= i < |p|
  {
    Max(LastIndexOf(p, '\\'), LastIndexOf(p, '/'))
  }

  /** In a `.txt` name the extension starts at the dot of `.txt`, unless the name after the
      last separator is only dots up to there. */
  lemma ExtensionStartOfTxt(filename: string)
    requires IsTxtName(filename)
    ensures |filename| >= 4
    ensures ExtensionStart(filename) ==
      if SomeNonDot(filename, LastSeparator(filename) + 1, |filename| - 4) then Some(|filename| - 4) else None
  {
    TxtTail(filename);
    var n := |filename| - 4;
    assert LastIndexOf(filename, '.') == n;
    assert LastIndexOf(filename, '\\') < n;
    assert LastIndexOf(filename, '/') < n;
  }

  /** A `.txt` name loses its last four characters to `.bat`, unless the name after its last
      separator is nothing but dots before them (as in `.txt`), in which case `.bat` is
      added to the whole name. */
  lemma BatNameOfTxt(filename: string)
    requires IsTxtName(filename)
    ensures |filename| >= 4
    ensures BatName(filename) ==
      if SomeNonDot(filename, LastSeparator(filename) + 1, |filename| - 4) then Some(filename[..|filename| - 4] + ".bat")
      else Some(filename + ".bat")
  {
    ExtensionStartOfTxt(filename);
  }
}
