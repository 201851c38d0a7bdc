/**
 * The VS Code resolver (src/config/vscode.rs): the fork (VS Code or
 * VSCodium) is recognised from VSCODE_GIT_ASKPASS_NODE, which fixes the
 * user settings directory; project `.vscode` settings override the user's,
 * and the integrated-terminal font overrides the editor font.
 */
module VscodeResolver {
  import opened Wrappers
  import opened Text
  import opened Environment
  import opened Types
  import opened ConfigSupport
  import Font

  datatype VscodeSettings = VscodeSettings(terminalFontFamily: Option<string>, editorFontFamily: Option<string>)

  /** A known fork: its settings directory name and the lower-case markers that identify it. */
  datatype Fork = Fork(appDir: string, askpassSubstrings: seq<string>)

  const KNOWN_FORKS: seq<Fork> := [Fork("Code", ["code"]), Fork("VSCodium", ["codium"])]
  const ASKPASS := "VSCODE_GIT_ASKPASS_NODE"
  const ASKPASS_NOT_SET := "VSCODE_GIT_ASKPASS_NODE is not set"
  const UNRECOGNIZED_PREFIX := "unrecognized VSCODE_GIT_ASKPASS_NODE: "
  const PROJECT_MARKER := ".vscode"

  /** Some marker of `f` occurs in the lower-cased value. */
  predicate ForkMatches(f: Fork, lower: string) {
    exists s :: s in f.askpassSubstrings && Contains(lower, s)
  }

  /** `KNOWN_FORKS.iter().find(...)`: the first fork, in table order, with a matching marker. */
  function FindFork(forks: seq<Fork>, lower: string): (r: Option<Fork>)
    ensures r.None? <==> forall i :: 0 <= i < |forks| ==> !ForkMatches(forks[i], lower)
    ensures r.Some? ==> exists i :: 0 <= i < |forks| && forks[i] == r.value && ForkMatches(r.value, lower)
                                    && forall j :: 0 <= j < i ==> !ForkMatches(forks[j], lower)
  {
    if forks == [] then None
    else if ForkMatches(forks[0], lower) then Some(forks[0])
    else
      var r := FindFork(forks[1..], lower);
      assert r.Some? ==> exists i :: 0 <= i < |forks[1..]| && forks[1..][i] == r.value && ForkMatches(r.value, lower)
                                     && forall j :: 0 <= j < i ==> !ForkMatches(forks[1..][j], lower);
      r
  }

  /** `resolve_app_dir`: the settings directory of the recognised fork, or why there is none.
      The "unrecognized" reason quotes the value as given, not lower-cased. */
  function ResolveAppDir(vars: Vars): (r: Result<string, string>)
    ensures NonEmpty(LastValue(vars, ASKPASS)).None? <==> r == Failure(ASKPASS_NOT_SET)
    ensures r.Success? ==> r.value in {"Code", "VSCodium"}
    ensures r.Success? && r.value == "Code" <==>
              NonEmpty(LastValue(vars, ASKPASS)).Some? && Contains(AsciiLower(LastValue(vars, ASKPASS).value), "code")
    ensures NonEmpty(LastValue(vars, ASKPASS)).Some? && r.Failure?
            ==> r.error == UNRECOGNIZED_PREFIX + LastValue(vars, ASKPASS).value
    ensures r.Success? <==>
              NonEmpty(LastValue(vars, ASKPASS)).Some?
              && (Contains(AsciiLower(LastValue(vars, ASKPASS).value), "code")
                  || Contains(AsciiLower(LastValue(vars, ASKPASS).value), "codium"))
    ensures r.Success? && r.value == "VSCodium" <==>
              NonEmpty(LastValue(vars, ASKPASS)).Some?
              && !Contains(AsciiLower(LastValue(vars, ASKPASS).value), "code")
              && Contains(AsciiLower(LastValue(vars, ASKPASS).value), "codium")
  {
    match NonEmpty(LastValue(vars, ASKPASS))
    case None => Failure(ASKPASS_NOT_SET)
    case Some(askpass) =>
      match FindFork(KNOWN_FORKS, AsciiLower(askpass))
      case Some(fork) =>
        assert ForkMatches(KNOWN_FORKS[0], AsciiLower(askpass)) <==> Contains(AsciiLower(askpass), "code");
        assert ForkMatches(KNOWN_FORKS[1], AsciiLower(askpass)) <==> Contains(AsciiLower(askpass), "codium");
        Success(fork.appDir)
      case None =>
        assert !ForkMatches(KNOWN_FORKS[0], AsciiLower(askpass)) && !ForkMatches(KNOWN_FORKS[1], AsciiLower(askpass));
        assert "code" in KNOWN_FORKS[0].askpassSubstrings && "codium" in KNOWN_FORKS[1].askpassSubstrings;
        Failure(UNRECOGNIZED_PREFIX + askpass)
  }

  /** `user_settings_path`, with the `cfg!(target_os = "macos")` split as `macos`. */
  function UserSettingsPath(home: Path, appDir: string, macos: bool): (p: Path)
    ensures !IsAbsolute(appDir) ==> StartsWith(p, home)
    ensures EndsWith(p, appDir + "/User/settings.json")
  {
    var tail := appDir + "/User/settings.json";
    var rel := (if macos then "Library/Application Support/" else ".config/") + tail;
    assert rel[|rel| - |tail|..] == tail;
    EndsWithTransitive(Join(home, rel), rel, tail);
    Join(home, rel)
  }

  /** `effective_font`: project terminal font, user terminal font, project editor font, user
      editor font, in that order; the flag says whether the project supplied it. */
  function EffectiveFont(project: Option<VscodeSettings>, user: Option<VscodeSettings>): (r: Option<(string, bool)>)
    ensures IsFirstPresent([(TerminalFont(project), true), (TerminalFont(user), false),
                            (EditorFont(project), true), (EditorFont(user), false)], r)
  {
    FirstFont(TerminalFont(project), TerminalFont(user), EditorFont(project), EditorFont(user))
  }

  /** `terminal.integrated.fontFamily`. */
  function TerminalFont(s: Option<VscodeSettings>): Option<string> {
    if s.Some? then s.value.terminalFontFamily else None
  }

  /** `editor.fontFamily`. */
  function EditorFont(s: Option<VscodeSettings>): Option<string> {
    if s.Some? then s.value.editorFontFamily else None
  }

  /** `resolve`: HOME first, then the fork, then the layered settings. */
  function Resolve(vars: Vars, cwd: Path, macos: bool,
                   findProject: (Path, Path, string) -> ProjectLookup<VscodeSettings>,
                   readSettings: Path -> SettingsRead<VscodeSettings>)
    : (r: DetectionResult)
    ensures WellFormed(r) && r.terminal == Some(Vscode) && r.profile.None?
    ensures r.source == TerminalConfig || r.source == ConfigError
    ensures NonEmpty(LastValue(vars, HOME)).None? ==> r == ConfigErrorResult(Vscode, HOME_NOT_SET, None, None)
    ensures NonEmpty(LastValue(vars, HOME)).Some? && ResolveAppDir(vars).Failure?
            ==> r == ConfigErrorResult(Vscode, ResolveAppDir(vars).error, None, None)
    ensures NonEmpty(LastValue(vars, HOME)).Some? && ResolveAppDir(vars).Success? ==>
              var home := LastValue(vars, HOME).value;
              var userPath := UserSettingsPath(home, ResolveAppDir(vars).value, macos);
              r == LayeredSettingsResult(Vscode, findProject(cwd, home, PROJECT_MARKER), userPath,
                                         readSettings(userPath), EffectiveFont)
  {
    match NonEmpty(LastValue(vars, HOME))
    case None => ConfigErrorResult(Vscode, HOME_NOT_SET, None, None)
    case Some(home) =>
      match ResolveAppDir(vars)
      case Failure(reason) => ConfigErrorResult(Vscode, reason, None, None)
      case Success(appDir) =>
        var userPath := UserSettingsPath(home, appDir, macos);
        LayeredSettingsResult(Vscode, findProject(cwd, home, PROJECT_MARKER), userPath,
                              readSettings(userPath), EffectiveFont)
  }

  // ---------------------------------------------------------------------

  /** "codium" alone selects VSCodium: it does not contain "code", so the first fork in the
      table does not claim it. */
  lemma CodiumSelectsVSCodium(vars: Vars)
    requires LastValue(vars, ASKPASS) == Some("codium")
    ensures ResolveAppDir(vars) == Success("VSCodium")
  {
    MissingCharNotContained("codium", "code", 'e');
    assert AsciiLower("codium") == "codium";
    assert ForkMatches(KNOWN_FORKS[1], "codium") by {
      assert "codium" in KNOWN_FORKS[1].askpassSubstrings;
      assert "codium"[0..6] == "codium";
      assert OccursAt("codium", "codium", 0);
      assert Contains("codium", "codium");
    }
  }

  /** Matching is case-insensitive: an upper-case marker still selects its fork. */
  lemma UpperCaseCodeSelectsCode(vars: Vars)
    requires LastValue(vars, ASKPASS) == Some("/Applications/Visual Studio CODE.app")
    ensures ResolveAppDir(vars) == Success("Code")
  {
    UpperCaseCodeContainsCode("/Applications/Visual Studio CODE.app");
  }

  lemma UpperCaseCodeContainsCode(value: string)
    requires value in {"/Applications/Visual Studio CODE.app"}
    ensures Contains(AsciiLower(value), "code")
  {
    var lower := AsciiLower(value);
    assert lower[28] == 'c' && lower[29] == 'o' && lower[30] == 'd' && lower[31] == 'e';
    assert lower[28..32] == "code";
    assert OccursAt(lower, "code", 28);
  }

  /** A missing HOME is reported before the fork is even looked at. */
  lemma HomeCheckedBeforeFork(vars: Vars, cwd: Path, macos: bool,
                              findProject: (Path, Path, string) -> ProjectLookup<VscodeSettings>,
                              readSettings: Path -> SettingsRead<VscodeSettings>)
    requires !HasKey(vars, HOME) && !HasKey(vars, ASKPASS)
    ensures Resolve(vars, cwd, macos, findProject, readSettings).errorReason == Some(HOME_NOT_SET)
    ensures ResolveAppDir(vars) == Failure(ASKPASS_NOT_SET)
  {
  }

  /** The user settings file lives under the platform's application-data directory. */
  lemma UserPathPerPlatform(home: Path, appDir: string)
    requires home != [] && home[|home| - 1] != '/'
    ensures UserSettingsPath(home, appDir, true)
            == home + "/" + ("Library/Application Support/" + (appDir + "/User/settings.json"))
    ensures UserSettingsPath(home, appDir, false) == home + "/" + (".config/" + (appDir + "/User/settings.json"))
  {
  }
}
