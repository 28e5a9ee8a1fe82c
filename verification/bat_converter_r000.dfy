/** bat_file/Temp/bat_file_converter_R000.py: every recognised line is opened as written. */
module BatConverterR000 {
  import opened Wrappers
  import opened PyStr
  import opened BatRules

  /** `classify_line`: web link, folder and file with an extension are all opened verbatim;
      anything else is echoed as unrecognised. */
  function ClassifyLine(raw: string, isdir: string -> bool): string {
    var line := Strip(raw);
    if IsWebLink(line) then StartCommand(line)
    else if IsFolder(line, isdir) then StartCommand(line)
    else if HasFileExtension(line) then StartCommand(line)
    else UnrecognizedCommand(line)
  }

  /** A line is opened, as written, exactly when one of the three rules recognises it;
      surrounding whitespace never matters. */
  lemma ClassifyLineSpec(raw: string, isdir: string -> bool)
    ensures ClassifyLine(raw, isdir) == StartCommand(Strip(raw)) <==> BaseKind(Strip(raw), isdir) != Unrecognized
    ensures ClassifyLine(raw, isdir) == UnrecognizedCommand(Strip(raw)) <==> BaseKind(Strip(raw), isdir) == Unrecognized
    ensures ClassifyLine(raw, isdir) == ClassifyLine(Strip(raw), isdir)
  {
    StartIsNotUnrecognized(Strip(raw), Strip(raw));
  }

  /** `classify_line` as the main loop calls it. */
  function Classifier(isdir: string -> bool): string -> string {
    line => ClassifyLine(line, isdir)
  }

  /** The main loop's work on one file of the folder. */
  method Convert(filename: string, raw: seq<string>, isdir: string -> bool)
    returns (r: Option<(string, string)>)
    ensures r.Some? <==> IsTxtName(filename)
    ensures r.Some? ==>
      Some(r.value.0) == BatName(filename) &&
      r.value.1 == BatText(filename, Passes.Collect(raw, NonBlankLine), Classifier(isdir))
  {
    r := ConvertFile(filename, raw, Classifier(isdir));
  }
}
