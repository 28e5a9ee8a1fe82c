/** bat_file/bat_file_converter_R002.py: R001 with a first rule that sends Notion pages to
    the desktop app. */
module BatConverterR002 {
  import opened Wrappers
  import opened PyStr
  import opened BatRules
  import BatConverterR001

  const HttpsPrefix: string := "https://"
  const NotionScheme: string := "notion://"
  const NotionHost: string := "notion.so"

  /** `re.sub(r"^https://", "notion://", line)`: only a leading `https://` is replaced. The
      result never starts with `https://`, and the rest of the link is kept. */
  function NotionLink(line: string): (r: string)
    ensures !StartsWith(r, HttpsPrefix)
    ensures StartsWith(line, HttpsPrefix) ==> StartsWith(r, NotionScheme) && r[|NotionScheme|..] == line[|HttpsPrefix|..]
    ensures !StartsWith(line, HttpsPrefix) ==> r == line
  {
    if StartsWith(line, HttpsPrefix) then
      var r := NotionScheme + line[|HttpsPrefix|..];
      assert r[0] == 'n';
      r
    else line
  }

  /** The page the link names survives the scheme change. */
  lemma NotionLinkKeepsHost(line: string)
    requires Contains(line, NotionHost)
    ensures Contains(NotionLink(line), NotionHost)
  {
    if StartsWith(line, HttpsPrefix) {
      var i, j :| 0 <= i <= j <= |line| && line[i..j] == NotionHost;
      HostAfterScheme(line, i, j);
      var r := NotionScheme + line[|HttpsPrefix|..];
      ShiftedHost(line, r, i, j);
      assert r == NotionLink(line);
    }
  }

  /** `notion.so` starts with an `n`, which `https://` does not hold. */
  lemma HostAfterScheme(line: string, i: int, j: int)
    requires StartsWith(line, HttpsPrefix) && 0 <= i <= j <= |line| && line[i..j] == NotionHost
    ensures i >= |HttpsPrefix|
  {
    assert line[i] == 'n';
  }

  /** After the scheme change, every piece past the old scheme sits one place further on. */
  lemma ShiftedHost(line: string, r: string, i: int, j: int)
    requires |HttpsPrefix| <= i <= j <= |line| && r == NotionScheme + line[|HttpsPrefix|..]
    ensures Contains(r, line[i..j])
  {
    assert r[i + 1..j + 1] == line[i..j];
  }

  /** The two-line command a Notion page gets; with the newline the main loop adds after it,
      an empty line follows it in the `.bat` file. */
  function NotionCommand(link: string): (r: string)
    ensures StartsWith(r, "echo ") && EndsWith(r, "\n")
    ensures |r| > 5 && r[5] == 'L'
  {
    var rest := "Launching Notion page in desktop app...\n" + StartCommand(link) + "\n";
    var r := "echo " + rest;
    assert r[..5] == "echo ";
    assert r[|r| - 1..] == "\n";
    r
  }

  /** `classify_line`; `isdir` and `abspath` stand for `os.path.isdir` and
      `os.path.abspath`. */
  function ClassifyLine(raw: string, isdir: string -> bool, abspath: string -> string): string {
    var line := Strip(raw);
    if Contains(line, NotionHost) then NotionCommand(NotionLink(line))
    else if IsWebLink(line) then StartCommand(line)
    else if IsFolder(line, isdir) then StartCommand(line)
    else if HasFileExtension(line) then StartCommand(abspath(line))
    else UnrecognizedCommand(line)
  }

  /** Which rule a line falls under in R002: a Notion page before all others. */
  function Kind(line: string, isdir: string -> bool): (k: LineKind)
    ensures k == NotionPage <==> Contains(line, NotionHost)
    ensures k != NotionPage ==> k == BaseKind(line, isdir)
  {
    if Contains(line, NotionHost) then NotionPage else BaseKind(line, isdir)
  }

  /** A Notion page is opened in the app even when it is also a web link; surrounding
      whitespace never matters. */
  lemma ClassifyLineSpec(raw: string, isdir: string -> bool, abspath: string -> string)
    ensures var line := Strip(raw);
      Kind(line, isdir) == NotionPage ==>
        ClassifyLine(raw, isdir, abspath) == NotionCommand(NotionLink(line))
    ensures ClassifyLine(raw, isdir, abspath) == ClassifyLine(Strip(raw), isdir, abspath)
  {
  }

  /** The one change from R001: the commands differ exactly for lines naming `notion.so`. */
  lemma SameAsR001Unless(raw: string, isdir: string -> bool, abspath: string -> string)
    ensures ClassifyLine(raw, isdir, abspath) == BatConverterR001.ClassifyLine(raw, isdir, abspath) <==>
      !Contains(Strip(raw), NotionHost)
  {
    var line := Strip(raw);
    if Contains(line, NotionHost) {
      var old1 := BatConverterR001.ClassifyLine(raw, isdir, abspath);
      BatConverterR001.ClassifyLineSpec(raw, isdir, abspath);
      StartIsNotUnrecognized(line, line);
      StartIsNotUnrecognized(abspath(line), line);
      assert old1[5] != 'L';
    }
  }

  /** `classify_line` as the main loop calls it. */
  function Classifier(isdir: string -> bool, abspath: string -> string): string -> string {
    line => ClassifyLine(line, isdir, abspath)
  }

  /** The main loop's work on one file of the folder. */
  method Convert(filename: string, raw: seq<string>, isdir: string -> bool, abspath: string -> string)
    returns (r: Option<(string, string)>)
    ensures r.Some? <==> IsTxtName(filename)
    ensures r.Some? ==>
      Some(r.value.0) == BatName(filename) &&
      r.value.1 == BatText(filename, Passes.Collect(raw, NonBlankLine), Classifier(isdir, abspath))
  {
    r := ConvertFile(filename, raw, Classifier(isdir, abspath));
  }
}
