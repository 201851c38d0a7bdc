/**
 * The Zed resolver (src/config/zed.rs): project settings found from the
 * working directory override the user's `~/.config/zed/settings.json`, and
 * the terminal font overrides the buffer font.
 */
module ZedResolver {
  import opened Wrappers
  import opened Text
  import opened Environment
  import opened Types
  import opened ConfigSupport
  import Font

  datatype ZedTerminal = ZedTerminal(fontFamily: Option<string>)

  datatype ZedSettings = ZedSettings(terminal: Option<ZedTerminal>, bufferFontFamily: Option<string>)

  const USER_RELATIVE := ".config/zed/settings.json"
  const PROJECT_MARKER := ".zed"

  /** `settings.terminal.font_family`, absent at any level. */
  function TerminalFont(s: Option<ZedSettings>): Option<string> {
    if s.Some? && s.value.terminal.Some? then s.value.terminal.value.fontFamily else None
  }

  /** `settings.buffer_font_family`. */
  function BufferFont(s: Option<ZedSettings>): Option<string> {
    if s.Some? then s.value.bufferFontFamily else None
  }

  /** `effective_font`: project terminal font, user terminal font, project buffer font, user
      buffer font, in that order; the flag says whether the project supplied it. */
  function EffectiveFont(project: Option<ZedSettings>, user: Option<ZedSettings>): (r: Option<(string, bool)>)
    ensures IsFirstPresent([(TerminalFont(project), true), (TerminalFont(user), false),
                            (BufferFont(project), true), (BufferFont(user), false)], r)
  {
    FirstFont(TerminalFont(project), TerminalFont(user), BufferFont(project), BufferFont(user))
  }

  /** `resolve`: HOME (last occurrence, non-empty), then the layered settings. */
  function Resolve(vars: Vars, cwd: Path,
                   findProject: (Path, Path, string) -> ProjectLookup<ZedSettings>,
                   readSettings: Path -> SettingsRead<ZedSettings>)
    : (r: DetectionResult)
    ensures WellFormed(r) && r.terminal == Some(Zed) && r.profile.None?
    ensures r.source == TerminalConfig || r.source == ConfigError
    ensures NonEmpty(LastValue(vars, HOME)).None? ==> r == ConfigErrorResult(Zed, HOME_NOT_SET, None, None)
    ensures NonEmpty(LastValue(vars, HOME)).Some? ==>
              var home := LastValue(vars, HOME).value;
              var userPath := Join(home, USER_RELATIVE);
              r == LayeredSettingsResult(Zed, findProject(cwd, home, PROJECT_MARKER), userPath,
                                         readSettings(userPath), EffectiveFont)
  {
    match NonEmpty(LastValue(vars, HOME))
    case None => ConfigErrorResult(Zed, HOME_NOT_SET, None, None)
    case Some(home) =>
      var userPath := Join(home, USER_RELATIVE);
      LayeredSettingsResult(Zed, findProject(cwd, home, PROJECT_MARKER), userPath,
                            readSettings(userPath), EffectiveFont)
  }

  // ---------------------------------------------------------------------

  /** The user settings file sits under HOME at `.config/zed/settings.json`. */
  lemma UserPathUnderHome(home: Path)
    requires home != [] && home[|home| - 1] != '/'
    ensures Join(home, USER_RELATIVE) == home + "/" + USER_RELATIVE
  {
  }

  /** A project terminal font wins over everything, and the project path is reported. */
  lemma ProjectTerminalFontWins(project: ZedSettings, projectPath: Path, user: SettingsRead<ZedSettings>,
                                userPath: Path, font: string)
    requires project.terminal == Some(ZedTerminal(Some(font))) && user.Success?
    ensures var r := LayeredSettingsResult(Zed, Success((Some(project), Some(projectPath))), userPath, user,
                                           EffectiveFont);
            r.source == TerminalConfig && r.configPath == Some(projectPath)
            && r.font == Some(Font.NormalizeFontName(font))
  {
  }

  /** A user terminal font beats a project buffer font; the user path is then reported. */
  lemma UserTerminalBeatsProjectBuffer(projectBuffer: string, projectPath: Path, userFont: string, userPath: Path)
    ensures var r := LayeredSettingsResult(Zed, Success((Some(ZedSettings(None, Some(projectBuffer))), Some(projectPath))),
                                           userPath, Success(Some(ZedSettings(Some(ZedTerminal(Some(userFont))), None))),
                                           EffectiveFont);
            r.source == TerminalConfig && r.configPath == Some(userPath)
            && r.font == Some(Font.NormalizeFontName(userFont))
  {
  }

  /** There is no emptiness check: a blank font is a configured font that is not a Nerd Font. */
  lemma BlankFontAccepted(blank: string, userPath: Path)
    requires AllWhitespace(blank)
    ensures var r := LayeredSettingsResult(Zed, Success((None, None)), userPath,
                                           Success(Some(ZedSettings(None, Some(blank)))), EffectiveFont);
            r.source == TerminalConfig && r.font == Some("") && r.detected == Some(false)
            && ExitCode(r) == 6
  {
    assert EffectiveFont(None, Some(ZedSettings(None, Some(blank)))) == Some((blank, false));
    assert LayeredSettingsResult(Zed, Success((None, None)), userPath,
                                 Success(Some(ZedSettings(None, Some(blank)))), EffectiveFont)
           == TerminalConfigResult(Zed, Font.NormalizeFontName(blank), Some(userPath), None);
    BlankNormalizesToEmpty(blank);
  }

  lemma BlankNormalizesToEmpty(blank: string)
    requires AllWhitespace(blank)
    ensures Font.NormalizeFontName(blank) == "" && !Font.IsNerdFont("")
  {
    assert blank == blank + [] + [];
    TrimPadded(blank, [], []);
    Font.NotNerdWithoutCapitalN("");
  }
}
