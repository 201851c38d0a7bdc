/**
 * The Terminal.app resolver (src/config/terminal_app.rs): HOME (first
 * occurrence), the preferences plist under it, the default profile's
 * settings, and the font decoded from its keyed archive.
 */
module TerminalAppResolver {
  import opened Wrappers
  import opened Environment
  import opened Types
  import opened ConfigSupport
  import opened Plist

  const PLIST_RELATIVE := "Library/Preferences/com.apple.Terminal.plist"
  const NOT_MACOS := "Terminal.app resolver is only supported on macOS"
  const MISSING_PROFILE := "missing Default Window Settings"
  const MISSING_WINDOW_SETTINGS := "missing Window Settings dictionary"

  /** `profile_settings.get(key).and_then(font_name_from_keyed_archive)`. */
  function ArchivedFont(settings: Dictionary, key: string, decode: seq<byte> -> Option<PlistValue>)
    : Option<string>
  {
    if key in settings then FontNameFromKeyedArchive(settings[key], decode) else None
  }

  /** `root["Window Settings"][profile]`, when both levels are dictionaries. */
  function ProfileSettings(root: Dictionary, profile: string): (r: Option<Dictionary>)
    ensures r.Some? <==> DictAt(root, "Window Settings").Some?
                         && DictAt(DictAt(root, "Window Settings").value, profile).Some?
    ensures r.Some? ==> r == DictAt(DictAt(root, "Window Settings").value, profile)
  {
    match DictAt(root, "Window Settings")
    case None => None
    case Some(settings) => DictAt(settings, profile)
  }

  /** How `resolve_font` ends once it holds a descriptor name, or none: no name is a missing
      descriptor, an empty name is refused, any other name is the font. */
  predicate DescriptorOutcome(font: Option<string>, profile: string, r: Result<string, string>) {
    match font
    case None => r == Failure("missing font descriptor for profile " + profile)
    case Some(f) => if f == "" then r == Failure("empty font descriptor for profile " + profile) else r == Success(f)
  }

  /** `resolve_font`: the profile's settings dictionary, then the `Font` archive, falling back
      to `Normal Font` only when `Font` yields nothing; an empty name is refused. */
  function ResolveFont(root: Dictionary, profile: string, decode: seq<byte> -> Option<PlistValue>)
    : (r: Result<string, string>)
    ensures DictAt(root, "Window Settings").None? ==> r == Failure(MISSING_WINDOW_SETTINGS)
    ensures DictAt(root, "Window Settings").Some? && DictAt(DictAt(root, "Window Settings").value, profile).None?
            ==> r == Failure("missing profile settings for " + profile)
    ensures r.Success? ==> r.value != ""
    ensures r.Success? ==> exists key :: key in {"Font", "Normal Font"}
                              && ArchivedFont(DictAt(DictAt(root, "Window Settings").value, profile).value,
                                              key, decode) == Some(r.value)
    ensures ProfileSettings(root, profile).Some? ==>
              var primary := ArchivedFont(ProfileSettings(root, profile).value, "Font", decode);
              var fallback := ArchivedFont(ProfileSettings(root, profile).value, "Normal Font", decode);
              && (primary.Some? ==> DescriptorOutcome(primary, profile, r))
              && (primary.None? ==> DescriptorOutcome(fallback, profile, r))
  {
    match DictAt(root, "Window Settings")
    case None => Failure(MISSING_WINDOW_SETTINGS)
    case Some(settings) =>
      match DictAt(settings, profile)
      case None => Failure("missing profile settings for " + profile)
      case Some(profileSettings) =>
        var font := match ArchivedFont(profileSettings, "Font", decode)
                    case Some(f) => Some(f)
                    case None => ArchivedFont(profileSettings, "Normal Font", decode);
        match font
        case None => Failure("missing font descriptor for profile " + profile)
        case Some(f) =>
          if f == "" then Failure("empty font descriptor for profile " + profile) else Success(f)
  }

  /** The closure of `resolve_from_plist` after the root is loaded. Once the profile is known
      every failure carries it. */
  function ProfileFont(root: Dictionary, decode: seq<byte> -> Option<PlistValue>)
    : (r: Result<(string, string), (string, Option<string>)>)
    ensures NonEmpty(StringAt(root, "Default Window Settings")).None? ==> r == Failure((MISSING_PROFILE, None))
    ensures NonEmpty(StringAt(root, "Default Window Settings")).Some? && r.Failure?
            ==> r.error.1 == StringAt(root, "Default Window Settings") && r.error.1.value != ""
    ensures r.Success? ==> Some(r.value.0) == StringAt(root, "Default Window Settings")
    ensures r.Success? ==> ResolveFont(root, r.value.0, decode) == Success(r.value.1)
    ensures NonEmpty(StringAt(root, "Default Window Settings")).Some? ==>
              var profile := StringAt(root, "Default Window Settings").value;
              && (ResolveFont(root, profile, decode).Failure?
                  ==> r == Failure((ResolveFont(root, profile, decode).error, Some(profile))))
              && (ResolveFont(root, profile, decode).Success?
                  ==> r == Success((profile, ResolveFont(root, profile, decode).value)))
  {
    match NonEmpty(StringAt(root, "Default Window Settings"))
    case None => Failure((MISSING_PROFILE, None))
    case Some(profile) =>
      match ResolveFont(root, profile, decode)
      case Failure(reason) => Failure((reason, Some(profile)))
      case Success(font) => Success((profile, font))
  }

  /** `resolve_from_plist`, with the `cfg!(target_os = "macos")` split as `macos`. The font is
      reported exactly as decoded: it is not trimmed. */
  function ResolveFromPlist(path: Path, macos: bool, readPlist: Path -> Result<PlistValue, string>,
                            decode: seq<byte> -> Option<PlistValue>)
    : (r: DetectionResult)
    ensures WellFormed(r) && r.terminal == Some(TerminalApp) && r.configPath == Some(path)
    ensures !macos ==> r == ConfigErrorResult(TerminalApp, NOT_MACOS, None, Some(path))
    ensures r.source == TerminalConfig || r.source == ConfigError
    ensures r.source == TerminalConfig ==> r.font.value != "" && r.profile.Some? && r.profile.value != ""
    ensures macos && LoadRootDictionary(path, readPlist).Failure?
            ==> r == ConfigErrorResult(TerminalApp, LoadRootDictionary(path, readPlist).error, None, Some(path))
    ensures macos && LoadRootDictionary(path, readPlist).Success? ==>
              var outcome := ProfileFont(LoadRootDictionary(path, readPlist).value, decode);
              && (outcome.Failure?
                  ==> r == ConfigErrorResult(TerminalApp, outcome.error.0, outcome.error.1, Some(path)))
              && (outcome.Success?
                  ==> r == TerminalConfigResult(TerminalApp, outcome.value.1, Some(path), Some(outcome.value.0)))
  {
    if !macos then ConfigErrorResult(TerminalApp, NOT_MACOS, None, Some(path))
    else match LoadRootDictionary(path, readPlist)
      case Failure(reason) => ConfigErrorResult(TerminalApp, reason, None, Some(path))
      case Success(root) =>
        match ProfileFont(root, decode)
        case Failure((reason, profile)) => ConfigErrorResult(TerminalApp, reason, profile, Some(path))
        case Success((profile, font)) => TerminalConfigResult(TerminalApp, font, Some(path), Some(profile))
  }

  /** `resolve`: HOME (first occurrence, non-empty) decides the plist path. */
  function Resolve(vars: Vars, macos: bool, readPlist: Path -> Result<PlistValue, string>,
                   decode: seq<byte> -> Option<PlistValue>)
    : (r: DetectionResult)
    ensures WellFormed(r) && r.terminal == Some(TerminalApp)
    ensures r.source == TerminalConfig || r.source == ConfigError
    ensures NonEmpty(FirstValue(vars, HOME)).None?
            ==> r == ConfigErrorResult(TerminalApp, HOME_NOT_SET, None, None)
    ensures NonEmpty(FirstValue(vars, HOME)).Some?
            ==> r == ResolveFromPlist(Join(FirstValue(vars, HOME).value, PLIST_RELATIVE), macos, readPlist, decode)
    ensures NonEmpty(FirstValue(vars, HOME)).Some?
            ==> r.configPath == Some(Join(FirstValue(vars, HOME).value, PLIST_RELATIVE))
  {
    match NonEmpty(FirstValue(vars, HOME))
    case None => ConfigErrorResult(TerminalApp, HOME_NOT_SET, None, None)
    case Some(home) => ResolveFromPlist(Join(home, PLIST_RELATIVE), macos, readPlist, decode)
  }

  // ---------------------------------------------------------------------

  /** `Normal Font` is consulted only when the `Font` archive yields no name at all: a `Font`
      archive naming the empty string is refused even when `Normal Font` holds a usable name. */
  lemma FontArchiveFirst(root: Dictionary, profile: string, decode: seq<byte> -> Option<PlistValue>,
                         settings: Dictionary)
    requires ProfileSettings(root, profile) == Some(settings)
    ensures ArchivedFont(settings, "Font", decode).Some? && ArchivedFont(settings, "Font", decode).value != ""
            ==> ResolveFont(root, profile, decode) == Success(ArchivedFont(settings, "Font", decode).value)
    ensures ArchivedFont(settings, "Font", decode) == Some("")
            ==> ResolveFont(root, profile, decode) == Failure("empty font descriptor for profile " + profile)
    ensures ArchivedFont(settings, "Font", decode).None? && ArchivedFont(settings, "Normal Font", decode).Some?
            && ArchivedFont(settings, "Normal Font", decode).value != ""
            ==> ResolveFont(root, profile, decode) == Success(ArchivedFont(settings, "Normal Font", decode).value)
    ensures ArchivedFont(settings, "Font", decode).None? && ArchivedFont(settings, "Normal Font", decode).None?
            ==> ResolveFont(root, profile, decode) == Failure("missing font descriptor for profile " + profile)
    ensures ArchivedFont(settings, "Font", decode).None? && ArchivedFont(settings, "Normal Font", decode) == Some("")
            ==> ResolveFont(root, profile, decode) == Failure("empty font descriptor for profile " + profile)
  {
  }

  /** A font stored as a plain string instead of an archive is not a font descriptor. */
  lemma PlainStringFontRejected(root: Dictionary, profile: string, decode: seq<byte> -> Option<PlistValue>,
                                name: string)
    requires DictAt(root, "Window Settings").Some?
    requires DictAt(DictAt(root, "Window Settings").value, profile) == Some(map["Font" := PString(name)])
    ensures ResolveFont(root, profile, decode) == Failure("missing font descriptor for profile " + profile)
  {
    assert ArchivedFont(map["Font" := PString(name)], "Normal Font", decode).None?;
  }

  /** The decoded name is reported untrimmed: surrounding spaces stay in the result. */
  lemma FontNotTrimmed(root: Dictionary, bytes: seq<byte>, decode: seq<byte> -> Option<PlistValue>)
    requires StringAt(root, "Default Window Settings") == Some("Basic")
    requires DictAt(root, "Window Settings") == Some(map["Basic" := PDict(map["Font" := PData(bytes)])])
    requires decode(bytes) == Some(MinimalFontArchive(" Menlo "))
    ensures ProfileFont(root, decode) == Success(("Basic", " Menlo "))
  {
    MinimalArchiveRoundTrip(" Menlo ", bytes, decode);
    assert ArchivedFont(map["Font" := PData(bytes)], "Font", decode) == Some(" Menlo ");
  }
}
