/**
 * The resolver dispatch (src/config/mod.rs): iTerm2, Terminal.app and Zed
 * have resolvers; every other terminal gets a NoResolver result.
 */
module Config {
  import opened Wrappers
  import opened Environment
  import opened Types
  import opened ConfigSupport
  import Plist
  import ITerm2Resolver
  import TerminalAppResolver
  import ZedResolver

  /**
   * Everything the dispatched resolvers learn from the machine: whether it is macOS (the
   * `cfg!(target_os = "macos")` split), the property-list reader, the keyed-archive decoder,
   * and Zed's project lookup and settings reader.
   */
  datatype Host = Host(
    macos: bool,
    readPlist: Path -> Result<Plist.PlistValue, string>,
    decodeArchive: seq<Plist.byte> -> Option<Plist.PlistValue>,
    findZedProject: (Path, Path, string) -> ProjectLookup<ZedResolver.ZedSettings>,
    readZedSettings: Path -> SettingsRead<ZedResolver.ZedSettings>)

  /** `no_resolver`: a known terminal without a resolver; nothing but the terminal is set. */
  function NoResolverResult(t: Terminal): (r: DetectionResult)
    ensures WellFormed(r) && r.source == NoResolver && r.terminal == Some(t) && r.detected.None?
    ensures r.font.None? && r.configPath.None? && r.profile.None? && r.errorReason.None?
    ensures ExitCode(r) == 4
  {
    DetectionResult(None, NoResolver, Some(t), None, None, None, None, Certain)
  }

  /** The terminals the dispatcher has a resolver for. */
  predicate HasResolver(t: Terminal) {
    t.ITerm2? || t.TerminalApp? || t.Zed?
  }

  /** `config::resolve`: route the terminal to its resolver. */
  function Resolve(t: Terminal, vars: Vars, cwd: Path, host: Host): (r: DetectionResult)
    ensures WellFormed(r) && r.terminal == Some(t)
    ensures HasResolver(t) <==> r.source == TerminalConfig || r.source == ConfigError
    ensures !HasResolver(t) ==> r == NoResolverResult(t)
    ensures t.ITerm2? ==> r == ITerm2Resolver.Resolve(vars, host.macos, host.readPlist)
    ensures t.TerminalApp?
            ==> r == TerminalAppResolver.Resolve(vars, host.macos, host.readPlist, host.decodeArchive)
    ensures t.Zed? ==> r == ZedResolver.Resolve(vars, cwd, host.findZedProject, host.readZedSettings)
  {
    match t
    case ITerm2 => ITerm2Resolver.Resolve(vars, host.macos, host.readPlist)
    case TerminalApp => TerminalAppResolver.Resolve(vars, host.macos, host.readPlist, host.decodeArchive)
    case Zed => ZedResolver.Resolve(vars, cwd, host.findZedProject, host.readZedSettings)
    case _ => NoResolverResult(t)
  }

  // ---------------------------------------------------------------------

  /** Only Zed looks at the working directory. */
  lemma OnlyZedReadsCwd(t: Terminal, vars: Vars, cwd1: Path, cwd2: Path, host: Host)
    requires !t.Zed?
    ensures Resolve(t, vars, cwd1, host) == Resolve(t, vars, cwd2, host)
  {
  }

  /** Terminals without a resolver, `Unknown(name)` included, never touch the host. */
  lemma NoResolverIgnoresHost(t: Terminal, vars: Vars, cwd: Path, host1: Host, host2: Host)
    requires !HasResolver(t)
    ensures Resolve(t, vars, cwd, host1) == Resolve(t, vars, cwd, host2)
  {
  }
}
