/** bat_file/Temp/bat_file_converter_R001.py: as R000, except that a file with an extension
    is opened by its absolute path. */
module BatConverterR001 {
  import opened Wrappers
  import opened PyStr
  import opened BatRules
  import BatConverterR000

  /** `classify_line`; `abspath` stands for `os.path.abspath`. */
  function ClassifyLine(raw: string, isdir: string -> bool, abspath: string -> string): string {
    var line := Strip(raw);
    if IsWebLink(line) then StartCommand(line)
    else if IsFolder(line, isdir) then StartCommand(line)
    else if HasFileExtension(line) then StartCommand(abspath(line))
    else UnrecognizedCommand(line)
  }

  /** Links and folders are opened as written, files by their absolute path, anything else
      is echoed; surrounding whitespace never matters. */
  lemma ClassifyLineSpec(raw: string, isdir: string -> bool, abspath: string -> string)
    ensures var line := Strip(raw);
      var command := ClassifyLine(raw, isdir, abspath);
      match BaseKind(line, isdir)
      case WebLink => command == StartCommand(line)
      case FolderPath => command == StartCommand(line)
      case FileWithExtension => command == StartCommand(abspath(line))
      case _ => command == UnrecognizedCommand(line)
    ensures ClassifyLine(raw, isdir, abspath) == ClassifyLine(Strip(raw), isdir, abspath)
  {
  }

  /** The one change from R000: the two give the same command unless the line is a file with
      an extension whose absolute path differs from the line. */
  lemma SameAsR000Unless(raw: string, isdir: string -> bool, abspath: string -> string)
    ensures ClassifyLine(raw, isdir, abspath) == BatConverterR000.ClassifyLine(raw, isdir) <==>
      BaseKind(Strip(raw), isdir) != FileWithExtension || abspath(Strip(raw)) == Strip(raw)
  {
    StartCommandInjective(abspath(Strip(raw)), Strip(raw));
  }

  /** `classify_line` as the main loop calls it. */
  function Classifier(isdir: string -> bool, abspath: string -> string): string -> string {
    line => ClassifyLine(line, isdir, abspath)
  }

  /** The main loop's work on one file of the folder. */
  method Convert(filename: string, raw: seq<string>, isdir: string -> bool, abspath: string -> string)
    returns (r: Option<(string, string)>)
    ensures r.Some? <==> IsTxtName(filename)
    ensures r.Some? ==>
      Some(r.value.0) == BatName(filename) &&
      r.value.1 == BatText(filename, Passes.Collect(raw, NonBlankLine), Classifier(isdir, abspath))
  {
    r := ConvertFile(filename, raw, Classifier(isdir, abspath));
  }
}
