/**
 * What the resolvers under src/config/ share: path joining, the HOME
 * lookup, the two result constructors, the shapes of the settings-reader
 * outcomes, and the "first present font" precedence rule.
 *
 * `var`, `config_error`, `find_project_settings`, `read_json5_settings` and
 * `read_toml_settings` are imported by zed.rs, vscode.rs, alacritty.rs and
 * hyper.rs from their parent module, which does not define them. `var` is
 * taken to be the last-occurrence lookup of src/lib.rs:15-19; the readers
 * become oracle parameters with the outcome shapes their call sites use.
 */
module ConfigSupport {
  import opened Wrappers
  import opened Text
  import opened Environment
  import opened Types
  import Font

  /** `Path::is_absolute` on Unix. */
  predicate IsAbsolute(p: Path) {
    p != [] && p[0] == '/'
  }

  /** `Path::join`: an absolute argument replaces the base; otherwise a separator is inserted
      unless the base is empty or already ends in one. */
  function Join(base: Path, rel: Path): (r: Path)
    ensures IsAbsolute(rel) ==> r == rel
    ensures !IsAbsolute(rel) ==> StartsWith(r, base) && EndsWith(r, rel)
    ensures !IsAbsolute(rel) && IsAbsolute(base) ==> IsAbsolute(r)
  {
    if IsAbsolute(rel) then rel
    else if base == [] || base[|base| - 1] == '/' then base + rel
    else base + "/" + rel
  }

  const HOME := "HOME"
  const XDG_CONFIG_HOME := "XDG_CONFIG_HOME"
  const HOME_NOT_SET := "HOME is not set"
  const NO_SETTINGS_FILE := "no settings file found"
  const NO_CONFIG_FILE := "no config file found"
  const NO_FONT_CONFIGURED := "no font configured"

  /** `config_error`: a configuration failure of terminal `t`. */
  function ConfigErrorResult(t: Terminal, reason: string, profile: Option<string>, path: Option<Path>)
    : (r: DetectionResult)
    ensures WellFormed(r) && ExitCode(r) == 5
    ensures r.source == ConfigError && r.terminal == Some(t) && r.errorReason == Some(reason)
    ensures r.configPath == path && r.profile == profile
  {
    DetectionResult(None, ConfigError, Some(t), None, path, profile, Some(reason), Certain)
  }

  /** A successful resolution: the font as found and whether it is a Nerd Font. */
  function TerminalConfigResult(t: Terminal, font: string, path: Option<Path>, profile: Option<string>)
    : (r: DetectionResult)
    ensures WellFormed(r) && r.source == TerminalConfig && r.terminal == Some(t)
    ensures r.font == Some(font) && r.configPath == path && r.profile == profile
    ensures ExitCode(r) == 0 <==> Font.IsNerdFont(font)
    ensures ExitCode(r) == 6 <==> !Font.IsNerdFont(font)
  {
    DetectionResult(Some(Font.IsNerdFont(font)), TerminalConfig, Some(t), Some(font), path, profile,
                    None, Certain)
  }

  /** `find_project_settings(cwd, home, marker)`: project settings and where they were found
      (either may be absent), or a failure reason together with the offending path. */
  type ProjectLookup<S> = Result<(Option<S>, Option<Path>), (string, Path)>

  /** `read_json5_settings` / `read_toml_settings`: settings, `None` when the file does not
      exist, or a failure reason. */
  type SettingsRead<S> = Result<Option<S>, string>

  /** A font candidate: the value of one settings field and whether it comes from the
      project layer. */
  type FontCandidate = (Option<string>, bool)

  /** `r` is the first present candidate, or `None` when no candidate is present. */
  ghost predicate IsFirstPresent(cands: seq<FontCandidate>, r: Option<(string, bool)>) {
    && (r.None? <==> forall k :: 0 <= k < |cands| ==> cands[k].0.None?)
    && (r.Some? ==> exists k :: 0 <= k < |cands| && cands[k].0 == Some(r.value.0)
                                && cands[k].1 == r.value.1
                                && forall j :: 0 <= j < k ==> cands[j].0.None?)
  }

  /** One `.or(...)` step of an `effective_font` chain. */
  function OrCandidate(acc: Option<(string, bool)>, c: FontCandidate): Option<(string, bool)> {
    if acc.Some? then acc
    else if c.0.Some? then Some((c.0.value, c.1))
    else None
  }

  /** The `effective_font` chain `None.or(a).or(b).or(c).or(d)` over four ranked fields:
      project terminal font, user terminal font, project editor font, user editor font. */
  function FirstFont(projectTerminal: Option<string>, userTerminal: Option<string>,
                     projectEditor: Option<string>, userEditor: Option<string>)
    : (r: Option<(string, bool)>)
    ensures IsFirstPresent([(projectTerminal, true), (userTerminal, false),
                            (projectEditor, true), (userEditor, false)], r)
  {
    var cands := [(projectTerminal, true), (userTerminal, false), (projectEditor, true), (userEditor, false)];
    OrCandidate(OrCandidate(OrCandidate(OrCandidate(None, cands[0]), cands[1]), cands[2]), cands[3])
  }

  /**
   * The part that zed.rs and vscode.rs share once the user settings path is known: a project
   * lookup failure is reported first (with its path), then a user read failure (with the user
   * path), then the absence of both settings files; otherwise the effective font decides, and
   * the reported path follows the layer the font came from.
   */
  function LayeredSettingsResult<S>(t: Terminal, project: ProjectLookup<S>, userPath: Path,
                                    user: SettingsRead<S>,
                                    effectiveFont: (Option<S>, Option<S>) -> Option<(string, bool)>)
    : (r: DetectionResult)
    ensures WellFormed(r) && r.terminal == Some(t) && r.profile.None?
    ensures r.source == TerminalConfig || r.source == ConfigError
    ensures project.Failure? ==> r == ConfigErrorResult(t, project.error.0, None, Some(project.error.1))
    ensures project.Success? && user.Failure? ==> r == ConfigErrorResult(t, user.error, None, Some(userPath))
    ensures project.Success? && user.Success? && project.value.0.None? && user.value.None?
            ==> r == ConfigErrorResult(t, NO_SETTINGS_FILE, None, None)
    ensures r.source == TerminalConfig ==>
              && project.Success? && user.Success?
              && effectiveFont(project.value.0, user.value).Some?
              && r.font == Some(Font.NormalizeFontName(effectiveFont(project.value.0, user.value).value.0))
              && r.configPath == (if effectiveFont(project.value.0, user.value).value.1
                                  then project.value.1 else Some(userPath))
    ensures project.Success? && user.Success? && (project.value.0.Some? || user.value.Some?)
            && effectiveFont(project.value.0, user.value).Some?
            ==> var chosen := effectiveFont(project.value.0, user.value).value;
                r == TerminalConfigResult(t, Font.NormalizeFontName(chosen.0),
                                          if chosen.1 then project.value.1 else Some(userPath), None)
    ensures project.Success? && user.Success? && (project.value.0.Some? || user.value.Some?)
            && effectiveFont(project.value.0, user.value).None?
            ==> r == ConfigErrorResult(t, NO_FONT_CONFIGURED, None,
                                       if project.value.0.Some? then project.value.1 else Some(userPath))
  {
    match project
    case Failure((reason, path)) => ConfigErrorResult(t, reason, None, Some(path))
    case Success((projectSettings, projectPath)) =>
      match user
      case Failure(reason) => ConfigErrorResult(t, reason, None, Some(userPath))
      case Success(userSettings) =>
        if projectSettings.None? && userSettings.None? then ConfigErrorResult(t, NO_SETTINGS_FILE, None, None)
        else match effectiveFont(projectSettings, userSettings)
          case Some((fontName, fromProject)) =>
            TerminalConfigResult(t, Font.NormalizeFontName(fontName),
                                 if fromProject then projectPath else Some(userPath), None)
          case None =>
            ConfigErrorResult(t, NO_FONT_CONFIGURED, None,
                              if projectSettings.Some? then projectPath else Some(userPath))
  }

  // ---------------------------------------------------------------------

  /** A terminal font beats an editor font whichever layer each comes from. */
  lemma TerminalFieldOutranksEditorField(pt: Option<string>, ut: Option<string>,
                                         pe: Option<string>, ue: Option<string>)
    requires pt.Some? || ut.Some?
    ensures FirstFont(pt, ut, pe, ue).Some?
    ensures FirstFont(pt, ut, pe, ue).value.0 in {if pt.Some? then pt.value else ut.value}
  {
  }

  /** Within one field the project layer overrides the user layer, and the flag reports
      whether the project supplied the chosen font. */
  lemma ProjectLayerOutranksUser(pt: Option<string>, ut: Option<string>,
                                 pe: Option<string>, ue: Option<string>)
    ensures pt.Some? ==> FirstFont(pt, ut, pe, ue) == Some((pt.value, true))
    ensures pt.None? && ut.None? && pe.Some? ==> FirstFont(pt, ut, pe, ue) == Some((pe.value, true))
    ensures FirstFont(pt, ut, pe, ue).Some? && FirstFont(pt, ut, pe, ue).value.1 ==> pt.Some? || pe.Some?
  {
  }
}
