/**
 * The detection pipeline (src/lib.rs): the override layer, the terminal
 * layer, the SSH gate, then configuration resolution. Each layer either
 * finishes with a result or hands a value on to the next.
 */
module Detection {
  import opened Wrappers
  import opened Environment
  import opened Types
  import EnvOverride
  import TerminalId
  import Config
  import TerminalAppResolver

  /** `LayerOutcome<T>`: stop with a result, or continue with a value. */
  datatype LayerOutcome<T> = Final(result: DetectionResult) | Continue(value: T)

  /** `base_result`: a result with no font, path, profile or error, always Certain. */
  function BaseResult(detected: Option<bool>, source: DetectionSource, terminal: Option<Terminal>)
    : (r: DetectionResult)
    ensures r.detected == detected && r.source == source && r.terminal == terminal
    ensures r.font.None? && r.configPath.None? && r.profile.None? && r.errorReason.None?
    ensures r.confidence == Certain
  {
    DetectionResult(detected, source, terminal, None, None, None, None, Certain)
  }

  /** `env_layer`: the override finishes with EnvVar or ExplicitDisable, never naming a
      terminal; anything else continues. */
  function EnvLayer(vars: Vars): (o: LayerOutcome<()>)
    ensures o.Final? <==> EnvOverride.Detect(vars) != EnvOverride.Continue
    ensures o.Final? ==> WellFormed(o.result) && o.result.terminal.None?
    ensures o.Final? ==> o.result.detected == Some(EnvOverride.Detect(vars) == EnvOverride.OverrideEnabled)
  {
    EnvOutcome(EnvOverride.Detect(vars))
  }

  function EnvOutcome(d: EnvOverride.EnvDecision): (o: LayerOutcome<()>)
    ensures o.Final? <==> d != EnvOverride.Continue
    ensures o.Final? ==> WellFormed(o.result) && o.result.terminal.None?
    ensures o.Final? ==> o.result.detected == Some(d == EnvOverride.OverrideEnabled)
  {
    match d
    case OverrideEnabled => Final(BaseResult(Some(true), EnvVar, None))
    case OverrideDisabled => Final(BaseResult(Some(false), ExplicitDisable, None))
    case Continue => Continue(())
  }

  /** `terminal_layer`: a bundled terminal or an unknown one finishes here. */
  function TerminalLayer(vars: Vars): (o: LayerOutcome<Terminal>)
    ensures o.Continue? <==> TerminalId.Detect(vars).Identified?
    ensures o.Continue? ==> o.value == TerminalId.Detect(vars).terminal
    ensures o.Final? ==> WellFormed(o.result)
    ensures o.Final? ==> (o.result.source == BundledTerminal <==> TerminalId.Detect(vars).Bundled?)
  {
    match TerminalId.Detect(vars)
    case Bundled(t) => Final(BaseResult(Some(true), BundledTerminal, Some(t)))
    case Identified(t) => Continue(t)
    case Undetermined => Final(BaseResult(None, UnknownTerminal, None))
  }

  /** An SSH variable set to a non-empty value. */
  predicate IsSshEntry(entry: (string, string)) {
    (entry.0 == "SSH_TTY" || entry.0 == "SSH_CONNECTION") && entry.1 != ""
  }

  /** `is_remote_session`: ANY SSH_TTY or SSH_CONNECTION entry with a non-empty value counts,
      not only the last occurrence of the key. */
  function IsRemoteSession(vars: Vars): (b: bool)
    ensures b <==> exists i :: 0 <= i < |vars| && IsSshEntry(vars[i])
  {
    if vars == [] then false
    else
      SshEntryInTail(vars);
      IsSshEntry(vars[0]) || IsRemoteSession(vars[1..])
  }

  lemma SshEntryInTail(vars: Vars)
    requires vars != []
    ensures (exists i :: 0 <= i < |vars[1..]| && IsSshEntry(vars[1..][i]))
            <==> (exists i :: 1 <= i < |vars| && IsSshEntry(vars[i]))
  {
    if exists i :: 0 <= i < |vars[1..]| && IsSshEntry(vars[1..][i]) {
      var i :| 0 <= i < |vars[1..]| && IsSshEntry(vars[1..][i]);
      assert vars[i + 1] == vars[1..][i];
    }
    if exists i :: 1 <= i < |vars| && IsSshEntry(vars[i]) {
      var i :| 1 <= i < |vars| && IsSshEntry(vars[i]);
      assert vars[1..][i - 1] == vars[i];
    }
  }

  /** `ssh_gate_layer`: a remote session stops before any local configuration is read. */
  function SshGateLayer(vars: Vars, t: Terminal): (o: LayerOutcome<Terminal>)
    ensures o.Final? <==> IsRemoteSession(vars)
    ensures o.Final? ==> WellFormed(o.result) && o.result.source == RemoteSession && o.result.terminal == Some(t)
    ensures o.Continue? ==> o.value == t
  {
    if IsRemoteSession(vars) then Final(BaseResult(None, RemoteSession, Some(t))) else Continue(t)
  }

  /** `detect(vars, cwd)`: the layers in order, the first final outcome winning. */
  function Detect(vars: Vars, cwd: Path, host: Config.Host): (r: DetectionResult)
    ensures WellFormed(r)
    ensures r.source in {TerminalConfig, ConfigError, NoResolver}
            ==> EnvOverride.Detect(vars) == EnvOverride.Continue
                && TerminalId.Detect(vars).Identified? && !IsRemoteSession(vars)
                && r.terminal == Some(TerminalId.Detect(vars).terminal)
    ensures EnvOverride.Detect(vars) == EnvOverride.Continue && TerminalId.Detect(vars).Identified?
            && !IsRemoteSession(vars)
            ==> r == Config.Resolve(TerminalId.Detect(vars).terminal, vars, cwd, host)
  {
    match EnvLayer(vars)
    case Final(result) => result
    case Continue(_) =>
      match TerminalLayer(vars)
      case Final(result) => result
      case Continue(t) =>
        match SshGateLayer(vars, t)
        case Final(result) => result
        case Continue(t) => Config.Resolve(t, vars, cwd, host)
  }

  // ---------------------------------------------------------------------

  /** The override is final: whatever the terminal, SSH variables, working directory or host,
      NERD_FONT=1/true/yes gives EnvVar with Some(true) and no terminal, and 0/false/no gives
      ExplicitDisable with Some(false). */
  lemma OverrideIsFinal(vars: Vars, cwd: Path, host: Config.Host)
    ensures EnvOverride.Detect(vars) == EnvOverride.OverrideEnabled
            ==> Detect(vars, cwd, host) == BaseResult(Some(true), EnvVar, None)
    ensures EnvOverride.Detect(vars) == EnvOverride.OverrideDisabled
            ==> Detect(vars, cwd, host) == BaseResult(Some(false), ExplicitDisable, None)
  {
  }

  /** A bundled terminal is answered before the SSH gate: even in a remote session it gives
      BundledTerminal with Some(true). */
  lemma BundledBeforeSshGate(vars: Vars, cwd: Path, host: Config.Host)
    requires EnvOverride.Detect(vars) == EnvOverride.Continue
    requires TerminalId.Detect(vars).Bundled?
    ensures Detect(vars, cwd, host) == BaseResult(Some(true), BundledTerminal, Some(TerminalId.Detect(vars).terminal))
    ensures ExitCode(Detect(vars, cwd, host)) == 0
  {
  }

  /** With no terminal signal the answer is UnknownTerminal with no terminal. */
  lemma UnknownTerminalIsFinal(vars: Vars, cwd: Path, host: Config.Host)
    requires EnvOverride.Detect(vars) == EnvOverride.Continue
    requires TerminalId.Detect(vars).Undetermined?
    ensures Detect(vars, cwd, host) == BaseResult(None, UnknownTerminal, None)
  {
  }

  /** In a remote session an identified terminal is carried through and configuration is never
      resolved: the answer does not depend on the host or the working directory. */
  lemma RemoteSessionSkipsConfig(vars: Vars, cwd1: Path, cwd2: Path, host1: Config.Host, host2: Config.Host)
    requires EnvOverride.Detect(vars) == EnvOverride.Continue
    requires TerminalId.Detect(vars).Identified? && IsRemoteSession(vars)
    ensures Detect(vars, cwd1, host1) == BaseResult(None, RemoteSession, Some(TerminalId.Detect(vars).terminal))
    ensures Detect(vars, cwd1, host1) == Detect(vars, cwd2, host2)
  {
  }

  /** One non-empty SSH entry anywhere makes the session remote, even when a later entry for
      the same key is empty. */
  lemma AnySshEntryCounts(before: Vars, key: string, value: string, after: Vars)
    requires key in {"SSH_TTY", "SSH_CONNECTION"} && value != ""
    ensures IsRemoteSession(before + [(key, value)] + after + [(key, "")])
  {
    var all := before + [(key, value)] + after + [(key, "")];
    assert all[|before|] == (key, value);
  }

  /** Terminal identification only ever hands on Terminal.app or Kitty, so the Terminal.app
      resolver is the only one the pipeline can reach; Kitty ends as NoResolver. */
  lemma ReachableResolvers(vars: Vars, cwd: Path, host: Config.Host)
    ensures Detect(vars, cwd, host).source in {TerminalConfig, ConfigError}
            ==> Detect(vars, cwd, host).terminal == Some(TerminalApp)
    ensures Detect(vars, cwd, host).source == NoResolver ==> Detect(vars, cwd, host).terminal == Some(Kitty)
  {
  }

  /** A local Terminal.app session with no override is answered by the Terminal.app resolver,
      and a local Kitty session by NoResolver. */
  lemma LocalSessionReachesResolver(vars: Vars, cwd: Path, host: Config.Host)
    requires EnvOverride.Detect(vars) == EnvOverride.Continue && !IsRemoteSession(vars)
    ensures TerminalId.Detect(vars) == TerminalId.Identified(TerminalApp)
            ==> Detect(vars, cwd, host)
                == TerminalAppResolver.Resolve(vars, host.macos, host.readPlist, host.decodeArchive)
    ensures TerminalId.Detect(vars) == TerminalId.Identified(Kitty)
            ==> Detect(vars, cwd, host) == Config.NoResolverResult(Kitty)
  {
  }
}
