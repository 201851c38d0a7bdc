/**
 * The Alacritty resolver (src/config/alacritty.rs): a list of candidate
 * config files, scanned in order; the first file that exists decides, the
 * first read failure stops the scan.
 */
module AlacrittyResolver {
  import opened Wrappers
  import opened Environment
  import opened Types
  import opened ConfigSupport
  import Font

  datatype AlacrittyFontNormal = AlacrittyFontNormal(family: Option<string>)
  datatype AlacrittyFont = AlacrittyFont(normal: Option<AlacrittyFontNormal>)
  datatype AlacrittyConfig = AlacrittyConfig(font: Option<AlacrittyFont>)

  const SYSTEM_CONFIG := "/etc/alacritty/alacritty.toml"

  /** `XDG_CONFIG_HOME` (last occurrence), used only when non-empty and absolute. */
  function XdgConfigHome(vars: Vars): (r: Option<Path>)
    ensures r.Some? ==> r == LastValue(vars, XDG_CONFIG_HOME) && IsAbsolute(r.value)
    ensures r.None? ==> LastValue(vars, XDG_CONFIG_HOME).None? || !IsAbsolute(LastValue(vars, XDG_CONFIG_HOME).value)
  {
    var xdg := NonEmpty(LastValue(vars, XDG_CONFIG_HOME));
    if xdg.Some? && IsAbsolute(xdg.value) then xdg else None
  }

  /** The candidate list, in search order. The HOME `.config` fallback is added only when
      XDG_CONFIG_HOME is in use, since otherwise it repeats the first entry. */
  function Candidates(home: Path, xdg: Option<Path>): (cs: seq<Path>)
    ensures |cs| == if xdg.Some? then 5 else 4
    ensures cs[0] == Join(if xdg.Some? then xdg.value else Join(home, ".config"), "alacritty/alacritty.toml")
    ensures cs[1] == Join(if xdg.Some? then xdg.value else Join(home, ".config"), "alacritty.toml")
    ensures xdg.Some? ==> cs[2] == Join(home, ".config/alacritty/alacritty.toml")
    ensures cs[|cs| - 2] == Join(home, ".alacritty.toml")
    ensures cs[|cs| - 1] == SYSTEM_CONFIG
  {
    var base := if xdg.Some? then xdg.value else Join(home, ".config");
    [Join(base, "alacritty/alacritty.toml"), Join(base, "alacritty.toml")]
    + (if xdg.Some? then [Join(home, ".config/alacritty/alacritty.toml")] else [])
    + [Join(home, ".alacritty.toml"), SYSTEM_CONFIG]
  }

  /** The pushes of `resolve` build `Candidates`: the configuration-home entries, the HOME
      fallback when XDG is in use, then the two fixed entries. */
  lemma PushesBuildCandidates(home: Path, xdg: Option<Path>, searched: seq<Path>)
    requires var base := if xdg.Some? then xdg.value else Join(home, ".config");
             searched == [Join(base, "alacritty/alacritty.toml"), Join(base, "alacritty.toml")]
                         + (if xdg.Some? then [Join(home, ".config/alacritty/alacritty.toml")] else [])
    ensures searched + [Join(home, ".alacritty.toml")] + [SYSTEM_CONFIG] == Candidates(home, xdg)
  {
  }

  /** `config.font.normal.family`, absent at any level. */
  function FontFamily(config: AlacrittyConfig): Option<string> {
    if config.font.Some? && config.font.value.normal.Some? then config.font.value.normal.value.family else None
  }

  /** `resolve_from_config`: the normalised family, or "no font configured"; either way the
      file's path is reported. */
  function ResolveFromConfig(config: AlacrittyConfig, path: Path): (r: DetectionResult)
    ensures WellFormed(r) && r.terminal == Some(Alacritty) && r.configPath == Some(path)
    ensures FontFamily(config).None? <==> r.source == ConfigError
    ensures FontFamily(config).Some?
            ==> r == TerminalConfigResult(Alacritty, Font.NormalizeFontName(FontFamily(config).value), Some(path), None)
    ensures FontFamily(config).None? ==> r == ConfigErrorResult(Alacritty, NO_FONT_CONFIGURED, None, Some(path))
  {
    match FontFamily(config)
    case Some(family) => TerminalConfigResult(Alacritty, Font.NormalizeFontName(family), Some(path), None)
    case None => ConfigErrorResult(Alacritty, NO_FONT_CONFIGURED, None, Some(path))
  }

  /** What one decisive candidate yields: its config resolved, or its read failure reported
      with its own path. */
  function CandidateOutcome(path: Path, read: SettingsRead<AlacrittyConfig>): (r: DetectionResult)
    requires read != Success(None)
    ensures WellFormed(r) && r.terminal == Some(Alacritty) && r.configPath == Some(path)
    ensures read.Failure? ==> r == ConfigErrorResult(Alacritty, read.error, None, Some(path))
    ensures read.Success? ==> r == ResolveFromConfig(read.value.value, path)
  {
    match read
    case Success(config) => ResolveFromConfig(config.value, path)
    case Failure(reason) => ConfigErrorResult(Alacritty, reason, None, Some(path))
  }

  /** The scan's verdict: the first candidate whose read is not "absent" decides; when every
      candidate is absent the result is "no config file found" with no path. */
  ghost predicate ScanResult(cs: seq<Path>, read: Path -> SettingsRead<AlacrittyConfig>, r: DetectionResult) {
    || (exists k :: 0 <= k < |cs| && read(cs[k]) != Success(None)
          && (forall j :: 0 <= j < k ==> read(cs[j]) == Success(None))
          && r == CandidateOutcome(cs[k], read(cs[k])))
    || ((forall k :: 0 <= k < |cs| ==> read(cs[k]) == Success(None))
          && r == ConfigErrorResult(Alacritty, NO_CONFIG_FILE, None, None))
  }

  /** `resolve`: the HOME check, the candidate list built by pushes, and the first-hit loop. */
  method Resolve(vars: Vars, read: Path -> SettingsRead<AlacrittyConfig>) returns (r: DetectionResult)
    ensures WellFormed(r) && r.terminal == Some(Alacritty)
    ensures NonEmpty(LastValue(vars, HOME)).None? ==> r == ConfigErrorResult(Alacritty, HOME_NOT_SET, None, None)
    ensures NonEmpty(LastValue(vars, HOME)).Some? ==>
              ScanResult(Candidates(LastValue(vars, HOME).value, XdgConfigHome(vars)), read, r)
  {
    var home := NonEmpty(LastValue(vars, HOME));
    if home.None? {
      return ConfigErrorResult(Alacritty, HOME_NOT_SET, None, None);
    }
    var homePath := home.value;
    var xdg := XdgConfigHome(vars);
    var defaultConfig := Join(homePath, ".config");
    var effectiveConfigHome := if xdg.Some? then xdg.value else defaultConfig;

    var candidates := [Join(effectiveConfigHome, "alacritty/alacritty.toml"),
                       Join(effectiveConfigHome, "alacritty.toml")];
    if xdg.Some? {
      candidates := candidates + [Join(homePath, ".config/alacritty/alacritty.toml")];
    }
    PushesBuildCandidates(homePath, xdg, candidates);
    candidates := candidates + [Join(homePath, ".alacritty.toml")];
    candidates := candidates + [SYSTEM_CONFIG];

    r := ScanCandidates(candidates, read);
  }

  /** The `for candidate in &candidates` loop of `resolve`. */
  method ScanCandidates(candidates: seq<Path>, read: Path -> SettingsRead<AlacrittyConfig>)
    returns (r: DetectionResult)
    ensures WellFormed(r) && r.terminal == Some(Alacritty)
    ensures ScanResult(candidates, read, r)
  {
    for i := 0 to |candidates|
      invariant forall j :: 0 <= j < i ==> read(candidates[j]) == Success(None)
    {
      var candidate := candidates[i];
      match read(candidate)
      case Success(Some(config)) =>
        r := ResolveFromConfig(config, candidate);
        assert r == CandidateOutcome(candidates[i], read(candidates[i]));
        return;
      case Success(None) =>
      case Failure(reason) =>
        r := ConfigErrorResult(Alacritty, reason, None, Some(candidate));
        assert r == CandidateOutcome(candidates[i], read(candidates[i]));
        return;
    }
    r := ConfigErrorResult(Alacritty, NO_CONFIG_FILE, None, None);
  }

  // ---------------------------------------------------------------------

  /** Without a usable XDG_CONFIG_HOME there are four candidates, all under HOME or /etc. */
  lemma FourCandidatesWithoutXdg(home: Path)
    requires home != [] && home[|home| - 1] != '/'
    ensures Candidates(home, None) == [home + "/" + ".config" + "/" + "alacritty/alacritty.toml",
                                       home + "/" + ".config" + "/" + "alacritty.toml",
                                       home + "/" + ".alacritty.toml",
                                       SYSTEM_CONFIG]
  {
    var base := home + "/" + ".config";
    assert Join(home, ".config") == base;
    assert base[|base| - 1] == 'g';
  }

  /** A relative XDG_CONFIG_HOME is ignored, and the candidate list falls back to HOME. */
  lemma RelativeXdgIgnored(vars: Vars, home: Path)
    requires LastValue(vars, XDG_CONFIG_HOME).Some? && !IsAbsolute(LastValue(vars, XDG_CONFIG_HOME).value)
    ensures XdgConfigHome(vars).None?
    ensures Candidates(home, XdgConfigHome(vars)) == Candidates(home, None)
  {
  }

  /** The first candidate that exists or fails to read decides, and later candidates are never
      consulted: a read failure stops the scan with that candidate's path, even if a later
      candidate holds a valid config. */
  lemma FirstDecisiveCandidateWins(cs: seq<Path>, read: Path -> SettingsRead<AlacrittyConfig>,
                                   r: DetectionResult, k: nat)
    requires ScanResult(cs, read, r)
    requires k < |cs| && read(cs[k]) != Success(None)
    requires forall j :: 0 <= j < k ==> read(cs[j]) == Success(None)
    ensures r == CandidateOutcome(cs[k], read(cs[k]))
    ensures read(cs[k]).Failure? ==> r == ConfigErrorResult(Alacritty, read(cs[k]).error, None, Some(cs[k]))
    ensures read(cs[k]).Success? ==> r == ResolveFromConfig(read(cs[k]).value.value, cs[k])
  {
    {
      var m :| 0 <= m < |cs| && read(cs[m]) != Success(None)
          && (forall j :: 0 <= j < m ==> read(cs[j]) == Success(None))
          && r == CandidateOutcome(cs[m], read(cs[m]));
      assert m <= k;
      assert k <= m;
    }
  }
}
