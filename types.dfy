/**
 * The crate's public result type (src/types.rs): the detection result, the
 * layer that produced it, the terminal identity, and the fixed tables that
 * map a result to a process exit code and to a one-line explanation.
 */
module Types {
  import opened Wrappers
  import opened Text
  import Font

  /** Filesystem paths are kept as their string form. */
  type Path = string

  datatype DetectionSource =
    | EnvVar
    | ExplicitDisable
    | UnknownTerminal
    | RemoteSession
    | NoResolver
    | ConfigError
    | BundledTerminal
    | TerminalConfig

  /** A closed set of known emulators plus `Unknown(raw)`, which keeps the raw identifier. */
  datatype Terminal =
    | Ghostty
    | WezTerm
    | OpenCode
    | Conductor
    | Kitty
    | Alacritty
    | ITerm2
    | TerminalApp
    | Vscode
    | Zed
    | Hyper
    | Unknown(name: string)

  datatype Confidence = Certain | Probable

  datatype DetectionResult = DetectionResult(
    detected: Option<bool>,
    source: DetectionSource,
    terminal: Option<Terminal>,
    font: Option<string>,
    configPath: Option<Path>,
    profile: Option<string>,
    errorReason: Option<string>,
    confidence: Confidence)

  /** `Terminal::is_bundled`: the terminal ships Nerd Font glyphs itself. */
  predicate IsBundled(t: Terminal) {
    t.Ghostty? || t.WezTerm? || t.Kitty? || t.OpenCode? || t.Conductor?
  }

  /** `DetectionResult::exit_code`. */
  function ExitCode(r: DetectionResult): (code: int)
    ensures 0 <= code <= 6
    ensures code == 0 <==> r.source == EnvVar || r.source == BundledTerminal
                           || (r.source == TerminalConfig && r.detected == Some(true))
    ensures code == 5 <==> r.source == ConfigError || (r.source == TerminalConfig && r.detected.None?)
    ensures code == 6 <==> r.source == TerminalConfig && r.detected == Some(false)
    ensures code == 1 <==> r.source == ExplicitDisable
    ensures code == 2 <==> r.source == UnknownTerminal
    ensures code == 3 <==> r.source == RemoteSession
    ensures code == 4 <==> r.source == NoResolver
  {
    match r.source
    case EnvVar => 0
    case BundledTerminal => 0
    case ExplicitDisable => 1
    case UnknownTerminal => 2
    case RemoteSession => 3
    case NoResolver => 4
    case ConfigError => 5
    case TerminalConfig =>
      match r.detected
      case Some(true) => 0
      case Some(false) => 6
      case None => 5
  }

  /** `DetectionResult::explain`. */
  function Explain(r: DetectionResult): string {
    match r.source
    case EnvVar => "detected Nerd Font from NERD_FONT override"
    case ExplicitDisable => "Nerd Font explicitly disabled by NERD_FONT override"
    case UnknownTerminal => "cannot determine terminal; terminal is unknown"
    case RemoteSession => "running in remote session; local terminal config not inspected"
    case NoResolver => "known terminal has no resolver implemented yet"
    case ConfigError =>
      "failed to read terminal configuration: "
      + (if r.errorReason.Some? then r.errorReason.value else "unknown reason")
    case BundledTerminal => "terminal ships with Nerd Font support by default"
    case TerminalConfig =>
      if r.detected == Some(true) then "terminal configuration indicates a Nerd Font is active"
      else if r.detected == Some(false) then "terminal configuration does not indicate a Nerd Font"
      else "terminal configuration status is unknown"
  }

  /**
   * The invariants every result of the pipeline keeps: the source fixes
   * `detected`, an error reason appears exactly on configuration errors, a
   * configuration answer carries the font it classified, and confidence is
   * always Certain.
   */
  predicate WellFormed(r: DetectionResult) {
    && r.confidence == Certain
    && (r.errorReason.Some? <==> r.source == ConfigError)
    && (r.source == EnvVar ==> r.detected == Some(true) && r.terminal.None?)
    && (r.source == ExplicitDisable ==> r.detected == Some(false) && r.terminal.None?)
    && (r.source == UnknownTerminal ==> r.detected.None? && r.terminal.None?)
    && (r.source == BundledTerminal ==>
          r.detected == Some(true) && r.terminal.Some? && IsBundled(r.terminal.value))
    && (r.source == RemoteSession ==> r.detected.None? && r.terminal.Some?)
    && (r.source == NoResolver ==> r.detected.None? && r.terminal.Some?)
    && (r.source == ConfigError ==> r.detected.None? && r.font.None? && r.terminal.Some?)
    && (r.source == TerminalConfig ==>
          r.terminal.Some? && r.font.Some? && r.detected == Some(Font.IsNerdFont(r.font.value)))
  }

  // ---------------------------------------------------------------------
  // Facts about the tables

  /** Apart from TerminalConfig, the exit code is a function of the source alone. */
  lemma ExitCodeIgnoresDetected(r1: DetectionResult, r2: DetectionResult)
    requires r1.source == r2.source && r1.source != TerminalConfig
    ensures ExitCode(r1) == ExitCode(r2)
  {
  }

  /** On a well-formed result the exit code tells the outcomes apart: 5 means a configuration
      error, 6 a configured font that is not a Nerd Font, and a TerminalConfig result never
      exits with 5. */
  lemma ExitCodeOfWellFormed(r: DetectionResult)
    requires WellFormed(r)
    ensures ExitCode(r) == 5 <==> r.source == ConfigError
    ensures ExitCode(r) == 6 <==> r.source == TerminalConfig && !Font.IsNerdFont(r.font.value)
    ensures ExitCode(r) == 0 <==> r.detected == Some(true)
  {
  }

  /** The explanation of a configuration error ends with its reason. */
  lemma ExplainEmbedsReason(r: DetectionResult)
    requires r.source == ConfigError && r.errorReason.Some?
    ensures EndsWith(Explain(r), r.errorReason.value)
  {
  }

  /** For TerminalConfig the explanation depends on `detected` only. */
  lemma ExplainTerminalConfig(r1: DetectionResult, r2: DetectionResult)
    requires r1.source == TerminalConfig && r2.source == TerminalConfig
    requires r1.detected == r2.detected
    ensures Explain(r1) == Explain(r2)
  {
  }
}
