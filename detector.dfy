/**
 * Source-format detection (pkg/detector/format.go), as a decision over what
 * `os.Stat` reports: the root itself, and which names directly under it
 * exist.
 */
module Detector {
  import opened Wrappers
  import opened Model

  /** What `os.Stat` reports for the root path. */
  datatype RootStat = StatFailed(cause: string) | IsFile | IsDirectory

  /**
   * The root, and the names under it whose `os.Stat` succeeds (files or
   * directories alike). Only a directory root has names under it; the
   * states a real filesystem can be in are the `Consistent` ones.
   */
  datatype Fs = Fs(root: RootStat, present: set<string>)

  /** A root that is not a directory has nothing under it (a stat of a path below a file fails). */
  predicate Consistent(fs: Fs) {
    !fs.root.IsDirectory? ==> fs.present == {}
  }

  datatype DetectError =
    | CannotAccess(cause: string)
    | NotADirectory
    | Undetermined

  datatype ValidateError =
    | NoConfiguration
    | NoProjectFiles
    | Unsupported(format: SourceFormat)

  /** `isCFGFormat`: `Configuration.xml` exists. */
  predicate IsCfgFormat(fs: Fs) {
    "Configuration.xml" in fs.present
  }

  /** `isEDTFormat`: both `.project` and `src` exist; `src` need not be a directory. */
  predicate IsEdtFormat(fs: Fs) {
    ".project" in fs.present && "src" in fs.present
  }

  /** `DetectFormat`: the root must be an accessible directory; the CFG marker is checked first. */
  function DetectFormat(fs: Fs): (r: Result<SourceFormat, DetectError>)
    ensures r.Ok? ==> r.value == FormatCfg || r.value == FormatEdt
  {
    match fs.root
    case StatFailed(cause) => Err(CannotAccess(cause))
    case IsFile => Err(NotADirectory)
    case IsDirectory =>
      if IsCfgFormat(fs) then Ok(FormatCfg)
      else if IsEdtFormat(fs) then Ok(FormatEdt)
      else Err(Undetermined)
  }

  /** `ValidateFormat`: `None` is a nil error. */
  function ValidateFormat(fs: Fs, format: SourceFormat): Option<ValidateError> {
    match format
    case "cfg" => if IsCfgFormat(fs) then None else Some(NoConfiguration)
    case "edt" => if IsEdtFormat(fs) then None else Some(NoProjectFiles)
    case _ => Some(Unsupported(format))
  }

  /** Detection succeeds on a directory exactly when one dialect's markers are there; CFG wins when both are. */
  lemma DetectOutcomes(fs: Fs)
    ensures DetectFormat(fs) == Ok(FormatCfg) <==> fs.root.IsDirectory? && IsCfgFormat(fs)
    ensures DetectFormat(fs) == Ok(FormatEdt) <==> fs.root.IsDirectory? && !IsCfgFormat(fs) && IsEdtFormat(fs)
    ensures DetectFormat(fs).Err? <==> !fs.root.IsDirectory? || (!IsCfgFormat(fs) && !IsEdtFormat(fs))
  {
  }

  /** Validation fails for "cfg" exactly without `Configuration.xml`, for "edt" exactly without `.project` or `src`, and always for any other value. */
  lemma ValidateOutcomes(fs: Fs, format: SourceFormat)
    ensures format == FormatCfg ==> (ValidateFormat(fs, format).None? <==> IsCfgFormat(fs))
    ensures format == FormatEdt ==> (ValidateFormat(fs, format).None? <==> IsEdtFormat(fs))
    ensures format != FormatCfg && format != FormatEdt ==> ValidateFormat(fs, format) == Some(Unsupported(format))
  {
  }

  /** On a real filesystem, a root that is missing, unreadable or a file fails every validation. */
  lemma ValidateNeedsDirectory(fs: Fs, format: SourceFormat)
    requires Consistent(fs) && !fs.root.IsDirectory?
    ensures ValidateFormat(fs, format).Some?
    ensures DetectFormat(fs).Err?
  {
  }

  /** Whatever `DetectFormat` returns passes `ValidateFormat`. */
  lemma DetectedFormatValidates(fs: Fs)
    requires DetectFormat(fs).Ok?
    ensures ValidateFormat(fs, DetectFormat(fs).value).None?
  {
    ValidateOutcomes(fs, DetectFormat(fs).value);
  }

  /** A root with both dialects' markers is detected as CFG; an empty directory validates as neither. */
  lemma DetectExamples(both: Fs, empty: Fs)
    requires both == Fs(IsDirectory, {"Configuration.xml", ".project", "src"})
    requires empty == Fs(IsDirectory, {})
    ensures DetectFormat(both) == Ok(FormatCfg)
    ensures DetectFormat(empty) == Err(Undetermined)
    ensures ValidateFormat(empty, FormatCfg).Some? && ValidateFormat(empty, FormatEdt).Some?
  {
  }
}
