/**
 * The parser factory (pkg/parser/interface.go): an explicit format picks the
 * parser, an empty one is detected first.
 */
module ParserFactory {
  import opened Wrappers
  import opened Model
  import Detector

  /** Which implementation of the parser interface is built. */
  datatype ParserKind = CfgParser | EdtParser

  datatype FactoryError =
    | DetectionFailed(cause: Detector.DetectError)
    | UnsupportedFormat(format: SourceFormat)

  /** The format a parser kind reads. */
  function FormatOf(p: ParserKind): SourceFormat {
    match p
    case CfgParser => FormatCfg
    case EdtParser => FormatEdt
  }

  /**
   * `NewParser`. The empty format recurses once with the detected format,
   * which is never empty, so the recursion is at most one level deep.
   */
  function NewParser(fs: Detector.Fs, format: SourceFormat): (r: Result<ParserKind, FactoryError>)
    decreases if format == "" then 1 else 0
  {
    match format
    case "edt" => Ok(EdtParser)
    case "cfg" => Ok(CfgParser)
    case _ =>
      if format == "" then
        match Detector.DetectFormat(fs)
        case Err(e) => Err(DetectionFailed(e))
        case Ok(detected) => NewParser(fs, detected)
      else Err(UnsupportedFormat(format))
  }

  /** An explicit format is honoured without looking at the filesystem, and the parser reads that format. */
  lemma ExplicitFormat(fs: Detector.Fs, other: Detector.Fs, format: SourceFormat)
    requires format == FormatCfg || format == FormatEdt
    ensures NewParser(fs, format).Ok? && FormatOf(NewParser(fs, format).value) == format
    ensures NewParser(fs, format) == NewParser(other, format)
  {
  }

  /** Any other non-empty format is unsupported. */
  lemma UnsupportedFormats(fs: Detector.Fs, format: SourceFormat)
    requires format != "" && format != FormatCfg && format != FormatEdt
    ensures NewParser(fs, format) == Err(UnsupportedFormat(format))
  {
  }

  /**
   * The empty format yields the parser of the detected format, or the
   * detection error and no parser; the parser it yields always passes
   * validation for its own format.
   */
  lemma AutoDetect(fs: Detector.Fs)
    ensures Detector.DetectFormat(fs).Err? ==> NewParser(fs, "") == Err(DetectionFailed(Detector.DetectFormat(fs).error))
    ensures NewParser(fs, "").Ok? <==> Detector.DetectFormat(fs).Ok?
    ensures NewParser(fs, "").Ok? ==>
      FormatOf(NewParser(fs, "").value) == Detector.DetectFormat(fs).value
      && Detector.ValidateFormat(fs, FormatOf(NewParser(fs, "").value)).None?
  {
    if Detector.DetectFormat(fs).Ok? {
      Detector.DetectedFormatValidates(fs);
    }
  }
}
