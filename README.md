# has-nerd-font, modelled in Dafny

`has-nerd-font` answers one question: can the current terminal session render Nerd Font
glyphs? It takes a snapshot of the environment variables, an ordered list of
`(key, value)` pairs. It runs that snapshot through a short pipeline of layers, and the
first layer that reaches a decision ends the run:

1. **Explicit override** (`NERD_FONT`). A truthy or falsy value decides at once.
2. **Terminal identification** (`TERM_PROGRAM`, `TERM`, `WEZTERM_PANE`, `KITTY_PID`):
   - a terminal that ships its own Nerd Font glyphs decides "yes";
   - an environment that names no known terminal decides "unknown".
3. **Remote-session gate.** A non-empty `SSH_TTY` or `SSH_CONNECTION` stops before any
   local file is read.
4. **Configuration resolvers.** A resolver reads the terminal's own configuration and
   classifies the configured font with the name heuristic.

Every outcome is a `DetectionResult`. It has a fixed exit code and a one-line
explanation.

This project models that core as pure Dafny functions. The one exception is the
Alacritty resolver, which builds its candidate list and scans it in a loop; it is a
method with loop invariants.

Things the crate obtains from the operating system become explicit parameters:
- the file readers and the plist, JSON, JSON5 and TOML parsers are oracle functions;
- the compile-time platform test is a `macos` boolean.

## Modules

| file | module | models |
|---|---|---|
| wrappers.dfy | `Wrappers` | `Option`, `Result`, the "present and non-empty" filter |
| text.dfy | `Text` | Rust `str::trim`, ASCII lower-casing, `contains`, `ends_with` |
| environment.dfy | `Environment` | first-occurrence and last-occurrence lookups over the variable list |
| types.dfy | `Types` | `DetectionResult`, `Terminal`, `exit_code`, `explain`, and the result invariants |
| font.dfy | `Font` | `normalize_font_name`, `is_nerd_font` |
| env.dfy | `EnvOverride` | the `NERD_FONT` layer |
| terminal.dfy | `TerminalId` | terminal identification |
| lib.dfy | `Detection` | the layered pipeline |
| config.dfy | `Config` | dispatch to a configuration resolver |
| config_support.dfy | `ConfigSupport` | path joining, result builders, layered settings lookup |
| plist.dfy | `Plist` | property-list values and the NSKeyedArchiver font-name decoding |
| iterm2.dfy, terminal_app.dfy, zed.dfy, vscode.dfy, alacritty.dfy, hyper.dfy | `…Resolver` | one module per resolver |

## Model

| member | source | states |
|---|---|---|
| Environment.FirstValue | src/env.rs:8-10 | The value is absent exactly when the key is absent. Otherwise it is the value of an entry with that key, and no earlier entry has the key. |
| Environment.LastValue | src/lib.rs:15-19 | The value is absent exactly when the key is absent. Otherwise it is the value of an entry with that key, and no later entry has the key. |
| Environment.FirstOccurrenceWins | src/env.rs:8-10 | If `key` does not occur before an entry `(key, v)`, the forward lookup returns `v`, whatever follows. |
| Environment.LastOccurrenceWins | src/lib.rs:15-19 | If `key` does not occur after an entry `(key, v)`, the reverse lookup returns `v`, whatever precedes. |
| Environment.SingleOccurrence | src/lib.rs:15-19 | When a key occurs once, the first-occurrence and last-occurrence lookups agree. |
| Environment.LastValueAppend | src/lib.rs:15-19 | An appended entry becomes the last occurrence of its key. Every other key's lookup is unchanged. |
| Font.NormalizeFontName | src/font.rs:1-3 | The result is a slice of the input with only whitespace cut off on each side. It neither starts nor ends with whitespace. |
| Font.NormalizeIdempotent | src/font.rs:1-3 | Normalising twice equals normalising once. |
| Font.ClassificationIgnoresSurroundingWhitespace | src/font.rs:5-18 | Classifying a name gives the same answer as classifying its normalised form. |
| Font.NerdFontPhraseIsNerdFont | src/font.rs:5-18 | A name containing "Nerd Font" or "NerdFont" anywhere is a Nerd Font, surrounding whitespace included. |
| Font.TokenSuffixIffBoundary | src/font.rs:10-17 | Two statements are equivalent for an alphanumeric suffix. (1) Some token of the split-on-non-alphanumeric name ends with the suffix. (2) The suffix occurs followed by the end of the name or by a non-alphanumeric character. |
| Font.NerdTokenIffAbbreviation | src/font.rs:10-17 | A token ends in NF, NFM or NFP exactly when one of them ends at a token boundary of the name. |
| Font.AbbreviationRule | src/font.rs:5-18 | A name is a Nerd Font exactly when its normalised form either contains "Nerd Font" or "NerdFont", or has NF, NFM or NFP ending at a token boundary. |
| Font.AbbreviationStartsWithNF | src/font.rs:13-17 | Every accepted abbreviation starts with the two letters "NF". |
| Font.NoAbbreviationNoNerdFont | src/font.rs:5-18 | Matching is case-sensitive. A normalised name with no "NF", "Nerd Font" or "NerdFont" is not a Nerd Font. |
| Font.NotNerdWithoutCapitalN | src/font.rs:5-18 | A name without a capital 'N' is never a Nerd Font. |
| Font.FamilyNameExample | src/font.rs:5-18 | "JetBrainsMono Nerd Font" is classified as a Nerd Font. |
| Font.PostScriptNameExample | src/font.rs:5-18 | "JetBrainsMonoNFM-Regular", whose first token ends with NFM, is classified as a Nerd Font. |
| Font.ShortFamilyNameExample | src/font.rs:5-18 | "MonaspiceNe NF", whose last token is NF, is classified as a Nerd Font. |
| Font.PlainFontExamples | src/font.rs:5-18 | "Arial", "Fira Code", "Menlo" and the lower-case "Conf nf" are not Nerd Fonts. |
| Types.ExitCode | src/types.rs:65-78 | The code is between 0 and 6, and each code is pinned to its sources. 0 means an override, a bundled terminal, or a configured Nerd Font. 1 means ExplicitDisable, 2 UnknownTerminal, 3 RemoteSession and 4 NoResolver. 5 means a configuration error or an unknown configured status. 6 means a configured font that is not a Nerd Font. |
| Types.ExitCodeIgnoresDetected | src/types.rs:65-78 | For every source but TerminalConfig, the code depends on the source alone. |
| Types.ExitCodeOfWellFormed | src/types.rs:65-78 | On a well-formed result: 5 means exactly a configuration error, 6 exactly a non-Nerd configured font, and 0 exactly `detected == Some(true)`. |
| Types.ExplainEmbedsReason | src/types.rs:80-112 | A configuration error's explanation ends with its reason. |
| Types.ExplainTerminalConfig | src/types.rs:80-112 | For TerminalConfig results, the explanation depends on `detected` alone. |
| EnvOverride.Classify | src/env.rs:15-19 | Enabled exactly when the trimmed, lower-cased value is 1, true or yes. Disabled exactly when it is 0, false or no. |
| EnvOverride.Detect | src/env.rs:7-21 | Without a NERD_FONT entry the decision is Continue. A non-Continue decision implies the key is present. |
| EnvOverride.FirstEntryDecides | src/env.rs:7-21 | The first NERD_FONT entry decides. Later duplicates and entries with other keys are ignored. |
| EnvOverride.OtherKeysIrrelevant | src/env.rs:7-21 | Prepending entries with other keys never changes the decision. |
| EnvOverride.ClassifyIgnoresCase | src/env.rs:15 | Lower-casing the value never changes the decision. |
| EnvOverride.ClassifyIgnoresPadding | src/env.rs:15 | Surrounding whitespace never changes the decision. |
| EnvOverride.OverrideExamples | src/env.rs:15-19 | "  YeS  " enables and " FALSE " disables. |
| EnvOverride.ContinueExamples | src/env.rs:15-19 | The empty value, a blank value and "maybe" continue to the next layer. |
| TerminalId.Decide | src/terminal.rs:33-39 | The decision keeps the terminal. It is Bundled exactly for the terminals that ship Nerd Font glyphs. |
| TerminalId.FromTermProgram | src/terminal.rs:51-59 | A terminal is recognised exactly when the trimmed, lower-cased value is ghostty, wezterm or apple_terminal. Each value selects its own terminal: Ghostty, WezTerm, Terminal.app, each in both directions. |
| TerminalId.FromTerm | src/terminal.rs:61-68 | A terminal is recognised exactly when the trimmed, lower-cased value is xterm-ghostty or wezterm. xterm-ghostty selects exactly Ghostty and wezterm exactly WezTerm. |
| TerminalId.Detect | src/terminal.rs:9-31 | The signals rank in order. A recognised TERM_PROGRAM decides. Failing that, a recognised TERM decides. Failing that, a non-empty WEZTERM_PANE gives Bundled(WezTerm). Identified(Kitty) holds exactly when only KITTY_PID is set, and Undetermined exactly when no signal is present. Bundled only for Ghostty or WezTerm, Identified only for Terminal.app or Kitty. |
| TerminalId.TermProgramDecides | src/terminal.rs:9-31 | A recognised last TERM_PROGRAM entry decides, whatever TERM or KITTY_PID say. |
| TerminalId.UnrecognizedTermProgramFallsThrough | src/terminal.rs:9-31 | An unrecognised TERM_PROGRAM is ignored: detection is the same as without it, so TERM, WEZTERM_PANE and KITTY_PID decide. |
| TerminalId.TermOutranksMarkers | src/terminal.rs:16-28 | Without a recognised TERM_PROGRAM, a recognised last TERM decides whatever WEZTERM_PANE and KITTY_PID say. |
| TerminalId.SignalsIgnoreCaseAndPadding | src/terminal.rs:51-68 | Case and surrounding whitespace of TERM_PROGRAM and TERM never matter. |
| TerminalId.LastTermProgramWins | src/terminal.rs:41-45 | Of two TERM_PROGRAM entries, a recognised later one decides, whatever the earlier one was. |
| Detection.BaseResult | src/lib.rs:100-115 | The result carries the given detected, source and terminal. All other fields are empty, and confidence is Certain. |
| Detection.EnvLayer | src/lib.rs:60-72 | Final exactly when the override is not Continue. Its result is well formed, has no terminal, and detected is true exactly for Enabled. |
| Detection.TerminalLayer | src/lib.rs:74-86 | Continues exactly with an Identified terminal. Otherwise it finishes, with BundledTerminal exactly for Bundled. |
| Detection.IsRemoteSession | src/lib.rs:117-121 | True exactly when some entry is SSH_TTY or SSH_CONNECTION with a non-empty value. |
| Detection.SshGateLayer | src/lib.rs:88-98 | Final, as RemoteSession with the terminal kept, exactly in a remote session. Otherwise it passes the terminal on. |
| Detection.Detect | src/lib.rs:44-58 | The result is well formed. A configuration outcome (TerminalConfig, ConfigError, NoResolver) needs all three: no override, an Identified terminal, and a local session. When all three hold, the result is the dispatcher's result for that terminal. |
| Detection.OverrideIsFinal | src/lib.rs:45-47 | An override decides the result whatever the terminal, SSH state or configuration. |
| Detection.BundledBeforeSshGate | src/lib.rs:49-52 | A bundled terminal gives exit code 0 even in a remote session. |
| Detection.UnknownTerminalIsFinal | src/lib.rs:82-84 | With no terminal signal the result is UnknownTerminal. |
| Detection.RemoteSessionSkipsConfig | src/lib.rs:54-56 | In a remote session the result does not depend on the working directory or any file. |
| Detection.AnySshEntryCounts | src/lib.rs:117-121 | One non-empty SSH_TTY or SSH_CONNECTION entry anywhere makes the session remote, even if a later entry for the same key is empty. |
| Detection.LocalSessionReachesResolver | src/lib.rs:54-56 | With no override in a local session, an identified Terminal.app is answered by the Terminal.app resolver, and Kitty by NoResolver. |
| Detection.ReachableResolvers | src/lib.rs:44-58 | Through the pipeline, a configuration read happens only for Terminal.app, and NoResolver only for Kitty. |
| Config.NoResolverResult | src/config/mod.rs:18-29 | The result is NoResolver for the terminal, with every optional field empty and exit code 4. |
| Config.Resolve | src/config/mod.rs:9-16 | iTerm2, Terminal.app and Zed get their own resolver's result: iTerm2 and Terminal.app with the host's platform flag and plist readers, and Zed with the working directory. Only these three end as TerminalConfig or ConfigError. Every other terminal gets NoResolver. |
| Config.OnlyZedReadsCwd | src/config/mod.rs:9-16 | Only the Zed resolver depends on the working directory. |
| Config.NoResolverIgnoresHost | src/config/mod.rs:18-29 | A terminal without a resolver reads nothing from the host. |
| ConfigSupport.Join | src/config/alacritty.rs:42-52 | An absolute right-hand path replaces the base. Otherwise the result starts with the base and ends with the relative path. |
| ConfigSupport.ConfigErrorResult | src/config/iterm2.rs:104-119 | The result is a well-formed ConfigError with the given reason, profile and path, and exit code 5. |
| ConfigSupport.TerminalConfigResult | src/config/zed.rs:48-65 | The result is a well-formed TerminalConfig carrying the font. The exit code is 0 exactly for a Nerd Font, 6 otherwise. |
| ConfigSupport.FirstFont | src/config/zed.rs:81-103 | The font is the first present of: project terminal, user terminal, project editor, user editor. The flag records whether it came from the project. |
| ConfigSupport.LayeredSettingsResult | src/config/zed.rs:33-75 | Checks run in order: project read error, user read error, then "no settings file found". When a settings file exists and the effective font is present, the result is TerminalConfig with that font, normalised, at the file of the layer it came from. When none is present, the result is "no font configured". |
| ConfigSupport.TerminalFieldOutranksEditorField | src/config/zed.rs:81-103 | A terminal font field in either layer beats every editor font field. |
| ConfigSupport.ProjectLayerOutranksUser | src/config/zed.rs:81-103 | A project terminal font always wins. A project editor font wins only when neither layer sets a terminal font. |
| Plist.StringAt | src/config/iterm2.rs:24-27 | Present exactly when the key maps to a string, and then it is that string. |
| Plist.DictAt | src/config/terminal_app.rs:66-69 | Present exactly when the key maps to a dictionary, and then it is that dictionary. |
| Plist.ArrayAt | src/config/iterm2.rs:30-33 | Present exactly when the key maps to an array, and then it is that array. |
| Plist.LoadRootDictionary | src/plist.rs:3-11 | Succeeds exactly when the file parses to a dictionary. A read failure carries the parser's message behind a fixed prefix. A non-dictionary root has its own message. |
| Plist.UidIndex | src/plist.rs:33-38 | Present exactly for a UID value, and then it is that UID's index. |
| Plist.FontNameFromKeyedArchive | src/plist.rs:13-31 | The name is exactly the string at `objects[objects[root].NSName]`, in both directions. It is None for non-data values, archives that do not decode, and any step that does not fit. |
| Plist.MinimalArchiveRoundTrip | src/plist.rs:13-31 | Archiving a name in the minimal NSFont archive shape and decoding it gives the name back. |
| Plist.TwoStepResolution | src/plist.rs:13-31 | The name is found by following `$top.root` to the font object, then its `NSName` UID to the string. |
| Plist.OutOfRangeNameIsNone | src/plist.rs:25-30 | Any NSName UID pointing past the end of `$objects` yields no name. |
| Plist.NonDictionaryRootIsNone | src/plist.rs:25 | A root UID that is out of range or names a non-dictionary yields no name, whatever strings `$objects` holds. |
| ITerm2Resolver.FindBookmark | src/config/iterm2.rs:35-44 | The first bookmark whose `Guid` matches is returned. None means no bookmark matches. |
| ITerm2Resolver.BookmarkFont | src/config/iterm2.rs:21-71 | Errors are checked in source order: default GUID missing, bookmark list missing, then "missing bookmark for guid <guid>". For the found bookmark: a missing `Normal Font` and a blank one are refused with the bookmark's profile; otherwise the result is the profile and the normalised, non-empty `Normal Font`. |
| ITerm2Resolver.ResolveFromPlist | src/config/iterm2.rs:19-97 | Off macOS the result is the fixed platform error. On macOS a load failure is a ConfigError with the load's reason. A bookmark failure is a ConfigError with its reason and profile. A found font gives TerminalConfig with that font and profile. Every result carries the plist path. |
| ITerm2Resolver.Resolve | src/config/iterm2.rs:9-17 | A missing or empty HOME gives "HOME not set". Otherwise the result is the resolution of the plist path under HOME. A font is reported only on macOS and is never empty. |
| ITerm2Resolver.DefaultBookmarkChosen | src/config/iterm2.rs:21-71 | The first bookmark with the default GUID supplies the normalised font. |
| ITerm2Resolver.FirstMatchingBookmark | src/config/iterm2.rs:35-44 | The search returns the first matching bookmark. |
| ITerm2Resolver.BlankFontRefused | src/config/iterm2.rs:52-68 | A whitespace-only `Normal Font` is an error, naming the bookmark's profile. |
| ITerm2Resolver.GuidCheckedFirst | src/config/iterm2.rs:24-33 | A missing default GUID is reported before anything about bookmarks. |
| TerminalAppResolver.ResolveFont | src/config/terminal_app.rs:64-91 | Errors are checked in order: missing "Window Settings", then a missing profile. If the "Font" archive yields a name, that name decides: empty is refused, anything else is the font. Only if it yields none does "Normal Font" decide, the same way. If neither yields one, the descriptor is missing. |
| TerminalAppResolver.ProfileFont | src/config/terminal_app.rs:20-36 | A missing or empty "Default Window Settings" is its own error. Otherwise the result follows ResolveFont for that profile: its failure reason with the profile attached, or the profile and its font. |
| TerminalAppResolver.ResolveFromPlist | src/config/terminal_app.rs:20-62 | Off macOS the result is the platform error. On macOS a load failure is a ConfigError with the load's reason. A profile or font failure is a ConfigError with its reason and profile. Success gives TerminalConfig with the font and profile. Every result carries the plist path. |
| TerminalAppResolver.Resolve | src/config/terminal_app.rs:9-18 | A missing or empty HOME gives "HOME not set". Otherwise the result is the resolution of the preferences plist path under HOME. |
| TerminalAppResolver.FontArchiveFirst | src/config/terminal_app.rs:76-90 | A "Font" archive that yields a name decides, even the empty name, which is refused whatever "Normal Font" holds. Only when "Font" yields none does a non-empty "Normal Font" become the font. Neither gives "missing font descriptor", and an empty name gives "empty font descriptor". |
| TerminalAppResolver.PlainStringFontRejected | src/config/terminal_app.rs:64-91 | A plain-string "Font" is not a descriptor, and the profile reports a missing font descriptor. |
| TerminalAppResolver.FontNotTrimmed | src/config/terminal_app.rs:64-91 | The archived name is reported as decoded, without trimming. |
| ZedResolver.EffectiveFont | src/config/zed.rs:81-103 | The font is the first present of: project terminal, user terminal, project buffer, user buffer. |
| ZedResolver.Resolve | src/config/zed.rs:23-76 | A missing or empty HOME gives "HOME not set". Otherwise the result is the layered lookup over the project file and `~/.config/zed/settings.json`. |
| ZedResolver.UserPathUnderHome | src/config/zed.rs:29-30 | The user settings path is HOME joined with `.config/zed/settings.json`. |
| ZedResolver.ProjectTerminalFontWins | src/config/zed.rs:81-103 | A project `terminal.font_family` decides, and the project path is reported. |
| ZedResolver.UserTerminalBeatsProjectBuffer | src/config/zed.rs:81-103 | A user terminal font beats a project buffer font, and the user path is reported. |
| ZedResolver.BlankFontAccepted | src/config/zed.rs:48-65 | A whitespace-only font is not refused. It is reported as the empty font, detected false. |
| VscodeResolver.FindFork | src/config/vscode.rs:26-35 | The first known fork whose marker occurs in the lower-cased value is returned. None means no marker occurs. |
| VscodeResolver.ResolveAppDir | src/config/vscode.rs:41-56 | A missing or empty VSCODE_GIT_ASKPASS_NODE is its own error. Success happens exactly when the lower-cased value contains "code" or "codium". It is "Code" exactly when the value contains "code", and "VSCodium" exactly when it contains "codium" but not "code". Any other value is an error that carries the raw value. |
| VscodeResolver.UserSettingsPath | src/config/vscode.rs:59-68 | The path starts with HOME (for a relative application directory) and ends with `<app>/User/settings.json`. |
| VscodeResolver.EffectiveFont | src/config/vscode.rs:133-153 | The font is the first present of: project terminal, user terminal, project editor, user editor. |
| VscodeResolver.Resolve | src/config/vscode.rs:70-128 | HOME is checked first, then the fork. Otherwise the result is the layered lookup over the project file and the platform's user settings file. |
| VscodeResolver.CodiumSelectsVSCodium | src/config/vscode.rs:41-56 | "codium" selects VSCodium. |
| VscodeResolver.UpperCaseCodeSelectsCode | src/config/vscode.rs:41-56 | Example of case-insensitive matching: the path `/Applications/Visual Studio CODE.app` selects Code. |
| VscodeResolver.HomeCheckedBeforeFork | src/config/vscode.rs:70-79 | With neither variable set, the HOME error is reported. |
| VscodeResolver.UserPathPerPlatform | src/config/vscode.rs:59-68 | On macOS the path is under `Library/Application Support`; elsewhere it is under `.config`. |
| AlacrittyResolver.XdgConfigHome | src/config/alacritty.rs:34-37 | XDG_CONFIG_HOME is used only when it is absolute. |
| AlacrittyResolver.Candidates | src/config/alacritty.rs:42-52 | Candidates in order: two XDG-style paths, `~/.config/alacritty/alacritty.toml` when XDG is set, `~/.alacritty.toml`, and `/etc/alacritty/alacritty.toml`. |
| AlacrittyResolver.ResolveFromConfig | src/config/alacritty.rs:72-95 | A present `font.normal.family` gives TerminalConfig with the normalised family, the file's path and no profile. An absent one gives the ConfigError "no font configured" at that path. |
| AlacrittyResolver.CandidateOutcome | src/config/alacritty.rs:55-63 | A read error is a ConfigError with its reason at that path. A parsed file gives exactly the result of resolving its configuration at that path. |
| AlacrittyResolver.Resolve | src/config/alacritty.rs:27-70 | A missing or empty HOME gives "HOME not set". Otherwise the first candidate that exists (or fails to read) decides, and if none exists the result is "no config file found". |
| AlacrittyResolver.ScanCandidates | src/config/alacritty.rs:55-69 | The result is the outcome of the first candidate whose read is not "file absent", or "no config file found". |
| AlacrittyResolver.FourCandidatesWithoutXdg | src/config/alacritty.rs:42-52 | Without XDG there are exactly four candidates, spelled out under HOME. |
| AlacrittyResolver.RelativeXdgIgnored | src/config/alacritty.rs:34-37 | Any relative XDG_CONFIG_HOME is ignored, and the candidate list is the one without XDG. |
| AlacrittyResolver.FirstDecisiveCandidateWins | src/config/alacritty.rs:55-63 | The first candidate whose read is not "absent" decides the result. |
| HyperResolver.ConfigDir | src/config/hyper.rs:30-34 | A non-empty XDG_CONFIG_HOME (relative or absolute) gives `<xdg>/Hyper`. Otherwise the directory is `~/.config/Hyper`. |
| HyperResolver.ReadFailureReason | src/config/hyper.rs:36-59 | Not found gives "no config file found". Permission denied and other errors name the path. |
| HyperResolver.Resolve | src/config/hyper.rs:21-99 | HOME is checked first. Then the read: a failure is a ConfigError with its reason. Then the parse: a failure is a ConfigError naming the position. Then `config.fontFamily`: present gives TerminalConfig with the normalised family, absent gives "no font configured". Every result after the HOME check reports `<config dir>/hyper.json`. |
| HyperResolver.RelativeXdgUsed | src/config/hyper.rs:30-34 | Example: unlike Alacritty, the relative XDG_CONFIG_HOME `cfg` is used, giving `cfg/Hyper`. |
| HyperResolver.MissingFileIsError | src/config/hyper.rs:36-59 | For any HOME and no XDG_CONFIG_HOME, a missing `~/.config/Hyper/hyper.json` is the ConfigError "no config file found" at that path. |
| Text.NatToString | src/config/hyper.rs:66-71 | The line and column are written as decimal digits without a leading zero, and the digits denote the number. |
| HyperResolver.ParseReasonExample | src/config/hyper.rs:61-75 | A parse failure names the path, line and column. |
| Wrappers.NonEmpty | src/config/iterm2.rs:24-28 | Present exactly for a present, non-empty value, which is then unchanged. |

## Left out

- **Reading files and parsing.** These are oracle parameters of the functions that use
  them:
  - property-list files (`plist::Value::from_file`, `from_reader`);
  - configuration files (`std::fs::read_to_string`);
  - the JSON, JSON5 and TOML parsers (`serde_json`, `read_json5_settings`, `read_toml_settings`);
  - the upward search for a project settings file (`find_project_settings`).

  These helpers come from `src/config/mod.rs`'s parent scope, which is not part of this
  model.
- **`cfg!(target_os = "macos")`** is the `macos` boolean parameter.
- **The `var` helper.** The Zed, VS Code, Alacritty and Hyper resolvers import it from
  `super`. It is not defined in `src/config/mod.rs`; for those four resolvers the model
  takes it to be the last-occurrence lookup of `src/lib.rs`. The iTerm2 and Terminal.app
  resolvers define their own `var`, a first-occurrence lookup, and the model follows it.
- **Paths.** They follow Unix rules only: "absolute" means "starts with '/'", and a join
  inserts one '/' unless the base is empty or already ends with one. Windows prefixes and
  `..` normalisation are left out.
- **Property-list values.** Booleans, integers, reals and dates are one `PScalar` case,
  since no code path reads them. A UID's `as usize` conversion is assumed not to
  truncate.
- **`main.rs`** (command-line parsing, JSON output, process exit) and **`build.rs`** are
  left out. Serde serialisation of `DetectionResult` is left out too.
- **Types.Explain** has no postcondition. It is a fixed table; its properties are
  ExplainEmbedsReason and ExplainTerminalConfig.
- **The two signatures of `detect`.**
  - `src/lib.rs:56` passes only the variables to `config::resolve`.
  - `src/config/mod.rs:9` takes the variables and the working directory.
  - The model follows the resolver side: `Detection.Detect` takes `cwd` and hands it on.
- **Where the code was followed over the documented behaviour:**
  - The `NERD_FONT` override uses the first entry, and so do the iTerm2 and Terminal.app
    `HOME` lookups. Terminal identification and the other resolvers use the last entry.
  - An unrecognised `TERM_PROGRAM` does not become `Unknown(raw)`; it falls through to
    TERM, WEZTERM_PANE and KITTY_PID.
  - The Zed, VS Code, Alacritty and Hyper resolvers do not refuse an empty font; they
    classify it.
  - Only iTerm2, Terminal.app and Zed are dispatched by `config::resolve`. The VS Code,
    Alacritty and Hyper resolvers are modelled as written, but nothing reaches them.
    `Detection.ReachableResolvers` shows that only Terminal.app is reachable through the
    pipeline, because identification never yields iTerm2 or Zed.
