/**
 * The Hyper resolver (src/config/hyper.rs): one config file,
 * `$XDG_CONFIG_HOME/Hyper/hyper.json` or `~/.config/Hyper/hyper.json`, whose
 * read and parse failures are each reported with their own reason.
 */
module HyperResolver {
  import opened Wrappers
  import opened Text
  import opened Environment
  import opened Types
  import opened ConfigSupport
  import Font

  /** `std::fs::read_to_string`, classified by `io::ErrorKind`. */
  datatype FileRead =
    | Content(text: string)
    | NotFound
    | PermissionDenied
    | OtherError(message: string)

  datatype HyperConfig = HyperConfig(fontFamily: Option<string>)
  datatype HyperJson = HyperJson(config: Option<HyperConfig>)

  /** Where `serde_json` reports a parse error. */
  datatype ParsePosition = ParsePosition(line: nat, column: nat)

  /** The config directory: `$XDG_CONFIG_HOME/Hyper` when that variable is non-empty (it need
      not be absolute), else `~/.config/Hyper`. */
  function ConfigDir(home: Path, vars: Vars): (d: Path)
    ensures NonEmpty(LastValue(vars, XDG_CONFIG_HOME)).Some? ==> d == Join(LastValue(vars, XDG_CONFIG_HOME).value, "Hyper")
    ensures NonEmpty(LastValue(vars, XDG_CONFIG_HOME)).None? ==> d == Join(home, ".config/Hyper")
  {
    match NonEmpty(LastValue(vars, XDG_CONFIG_HOME))
    case Some(xdg) => Join(xdg, "Hyper")
    case None => Join(home, ".config/Hyper")
  }

  /** `hyper.config.as_ref().and_then(|c| c.font_family.as_deref())`. */
  function FontFamily(hyper: HyperJson): (r: Option<string>)
    ensures r.Some? <==> hyper.config.Some? && hyper.config.value.fontFamily.Some?
    ensures r.Some? ==> r == hyper.config.value.fontFamily
  {
    if hyper.config.Some? then hyper.config.value.fontFamily else None
  }

  /** The reason reported for a read failure; a missing file is a failure here, not a skip. */
  function ReadFailureReason(path: Path, read: FileRead): (reason: string)
    requires !read.Content?
    ensures read.NotFound? ==> reason == NO_CONFIG_FILE
    ensures read.PermissionDenied? ==> reason == "permission denied reading " + path
    ensures read.OtherError? ==> StartsWith(reason, "failed to read " + path + ": ")
                                 && EndsWith(reason, read.message)
  {
    match read
    case NotFound => NO_CONFIG_FILE
    case PermissionDenied => "permission denied reading " + path
    case OtherError(e) =>
      var reason := "failed to read " + path + ": " + e;
      assert reason[..|"failed to read " + path + ": "|] == "failed to read " + path + ": ";
      reason
  }

  /** The reason reported for a parse failure: the path, line and column. */
  function ParseFailureReason(path: Path, at: ParsePosition): string {
    "failed to parse " + path + " at line " + NatToString(at.line) + " column " + NatToString(at.column)
  }

  /** `resolve`: HOME, the path, the read, the parse, then `config.fontFamily`. Every result
      after the HOME check reports the config path. */
  function Resolve(vars: Vars, readFile: Path -> FileRead, parseJson: string -> Result<HyperJson, ParsePosition>)
    : (r: DetectionResult)
    ensures WellFormed(r) && r.terminal == Some(Hyper) && r.profile.None?
    ensures r.source == TerminalConfig || r.source == ConfigError
    ensures NonEmpty(LastValue(vars, HOME)).None? ==> r == ConfigErrorResult(Hyper, HOME_NOT_SET, None, None)
    ensures NonEmpty(LastValue(vars, HOME)).Some? ==>
              var path := Join(ConfigDir(LastValue(vars, HOME).value, vars), "hyper.json");
              && r.configPath == Some(path)
              && (!readFile(path).Content?
                  ==> r == ConfigErrorResult(Hyper, ReadFailureReason(path, readFile(path)), None, Some(path)))
              && (readFile(path).Content? && parseJson(readFile(path).text).Failure?
                  ==> r == ConfigErrorResult(Hyper, ParseFailureReason(path, parseJson(readFile(path).text).error),
                                             None, Some(path)))
              && (readFile(path).Content? && parseJson(readFile(path).text).Success? ==>
                    var family := FontFamily(parseJson(readFile(path).text).value);
                    && (family.Some?
                        ==> r == TerminalConfigResult(Hyper, Font.NormalizeFontName(family.value), Some(path), None))
                    && (family.None? ==> r == ConfigErrorResult(Hyper, NO_FONT_CONFIGURED, None, Some(path))))
  {
    match NonEmpty(LastValue(vars, HOME))
    case None => ConfigErrorResult(Hyper, HOME_NOT_SET, None, None)
    case Some(home) =>
      var path := Join(ConfigDir(home, vars), "hyper.json");
      match readFile(path)
      case Content(text) =>
        (match parseJson(text)
         case Failure(at) => ConfigErrorResult(Hyper, ParseFailureReason(path, at), None, Some(path))
         case Success(hyper) =>
           match FontFamily(hyper)
           case Some(fontName) => TerminalConfigResult(Hyper, Font.NormalizeFontName(fontName), Some(path), None)
           case None => ConfigErrorResult(Hyper, NO_FONT_CONFIGURED, None, Some(path)))
      case _ => ConfigErrorResult(Hyper, ReadFailureReason(path, readFile(path)), None, Some(path))
  }

  // ---------------------------------------------------------------------

  /** Unlike Alacritty, a relative XDG_CONFIG_HOME is used as given. */
  lemma RelativeXdgUsed(home: Path, vars: Vars)
    requires LastValue(vars, XDG_CONFIG_HOME) == Some("cfg")
    ensures ConfigDir(home, vars) == "cfg/Hyper"
  {
  }

  /** A missing file ends the resolution with "no config file found" and the path it looked at;
      without XDG_CONFIG_HOME that path is `~/.config/Hyper/hyper.json`. */
  lemma MissingFileIsError(vars: Vars, home: Path, readFile: Path -> FileRead,
                           parseJson: string -> Result<HyperJson, ParsePosition>)
    requires LastValue(vars, HOME) == Some(home) && home != [] && !HasKey(vars, XDG_CONFIG_HOME)
    requires readFile(Join(Join(home, ".config/Hyper"), "hyper.json")) == NotFound
    ensures Resolve(vars, readFile, parseJson)
            == ConfigErrorResult(Hyper, NO_CONFIG_FILE, None, Some(Join(Join(home, ".config/Hyper"), "hyper.json")))
  {
  }

  /** The parse error names its position: an error at line 3, column 14 of a file at `p`. */
  lemma ParseReasonExample(p: Path)
    ensures ParseFailureReason(p, ParsePosition(3, 14)) == "failed to parse " + p + " at line 3 column 14"
  {
    assert NatToString(3) == "3";
    assert NatToString(14) == "14" by { assert NatToString(1) == "1"; }
  }
}
