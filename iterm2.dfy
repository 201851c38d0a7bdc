/**
 * The iTerm2 resolver (src/config/iterm2.rs): HOME (first occurrence), the
 * preferences plist under it, then the default bookmark's "Normal Font".
 * Off macOS the resolver refuses with a fixed reason.
 */
module ITerm2Resolver {
  import opened Wrappers
  import opened Text
  import opened Environment
  import opened Types
  import opened ConfigSupport
  import opened Plist
  import Font

  const PLIST_RELATIVE := "Library/Preferences/com.googlecode.iterm2.plist"
  const NOT_MACOS := "iTerm2 resolver is only supported on macOS"
  const MISSING_GUID := "missing Default Bookmark Guid"
  const MISSING_BOOKMARKS := "missing New Bookmarks array"
  const MISSING_BOOKMARK_PREFIX := "missing bookmark for guid "
  const MISSING_FONT := "missing Normal Font for default bookmark"
  const EMPTY_FONT := "empty Normal Font for default bookmark"

  /** The bookmark entry `b` is a dictionary whose Guid string is `guid`. */
  predicate BookmarkMatches(b: PlistValue, guid: string) {
    b.PDict? && StringAt(b.entries, "Guid") == Some(guid)
  }

  /** `filter_map(as_dictionary).find(...)`: the first dictionary with the wanted Guid;
      entries that are not dictionaries are skipped. */
  function FindBookmark(bookmarks: seq<PlistValue>, guid: string): (r: Option<Dictionary>)
    ensures r.None? <==> forall i :: 0 <= i < |bookmarks| ==> !BookmarkMatches(bookmarks[i], guid)
    ensures r.Some? ==> exists i :: 0 <= i < |bookmarks| && bookmarks[i] == PDict(r.value)
                                    && BookmarkMatches(bookmarks[i], guid)
                                    && forall j :: 0 <= j < i ==> !BookmarkMatches(bookmarks[j], guid)
  {
    if bookmarks == [] then None
    else if BookmarkMatches(bookmarks[0], guid) then Some(bookmarks[0].entries)
    else
      var r := FindBookmark(bookmarks[1..], guid);
      assert r.Some? ==> exists i :: 0 <= i < |bookmarks[1..]| && bookmarks[1..][i] == PDict(r.value)
                                    && BookmarkMatches(bookmarks[1..][i], guid)
                                    && forall j :: 0 <= j < i ==> !BookmarkMatches(bookmarks[1..][j], guid);
      r
  }

  /** What the default bookmark yields: the profile is its non-empty Name; a missing Normal
      Font, or one that normalises to nothing, is refused with that profile; otherwise the
      normalised Normal Font is the answer. */
  predicate BookmarkOutcome(bookmark: Dictionary, r: Result<(Option<string>, string), (string, Option<string>)>) {
    var profile := NonEmpty(StringAt(bookmark, "Name"));
    match StringAt(bookmark, "Normal Font")
    case None => r == Failure((MISSING_FONT, profile))
    case Some(raw) =>
      if Font.NormalizeFontName(raw) == "" then r == Failure((EMPTY_FONT, profile))
      else r == Success((profile, Font.NormalizeFontName(raw)))
  }

  /** The closure of `resolve_from_plist` after the root is loaded: (profile, font) on
      success, (reason, profile) on failure. */
  function BookmarkFont(root: Dictionary): (r: Result<(Option<string>, string), (string, Option<string>)>)
    ensures NonEmpty(StringAt(root, "Default Bookmark Guid")).None?
            ==> r == Failure((MISSING_GUID, None))
    ensures NonEmpty(StringAt(root, "Default Bookmark Guid")).Some? && ArrayAt(root, "New Bookmarks").None?
            ==> r == Failure((MISSING_BOOKMARKS, None))
    ensures NonEmpty(StringAt(root, "Default Bookmark Guid")).Some? && ArrayAt(root, "New Bookmarks").Some?
            ==> var guid := StringAt(root, "Default Bookmark Guid").value;
                var bookmark := FindBookmark(ArrayAt(root, "New Bookmarks").value, guid);
                && (bookmark.None? ==> r == Failure((MISSING_BOOKMARK_PREFIX + guid, None)))
                && (bookmark.Some? ==> BookmarkOutcome(bookmark.value, r))
    ensures r.Success? ==> r.value.1 != "" && r.value.1 == Font.NormalizeFontName(r.value.1)
    ensures r.Failure? && r.error.1.Some? ==> r.error.1.value != ""
  {
    match NonEmpty(StringAt(root, "Default Bookmark Guid"))
    case None => Failure((MISSING_GUID, None))
    case Some(guid) =>
      match ArrayAt(root, "New Bookmarks")
      case None => Failure((MISSING_BOOKMARKS, None))
      case Some(bookmarks) =>
        match FindBookmark(bookmarks, guid)
        case None => Failure((MISSING_BOOKMARK_PREFIX + guid, None))
        case Some(bookmark) =>
          var profile := NonEmpty(StringAt(bookmark, "Name"));
          match StringAt(bookmark, "Normal Font")
          case None => Failure((MISSING_FONT, profile))
          case Some(raw) =>
            var font := Font.NormalizeFontName(raw);
            Font.NormalizeIdempotent(raw);
            if font == "" then Failure((EMPTY_FONT, profile)) else Success((profile, font))
  }

  /** `resolve_from_plist`, with the `cfg!(target_os = "macos")` split as `macos`. */
  function ResolveFromPlist(path: Path, macos: bool, readPlist: Path -> Result<PlistValue, string>)
    : (r: DetectionResult)
    ensures WellFormed(r) && r.terminal == Some(ITerm2) && r.configPath == Some(path)
    ensures !macos ==> r == ConfigErrorResult(ITerm2, NOT_MACOS, None, Some(path))
    ensures r.source == TerminalConfig || r.source == ConfigError
    ensures macos && LoadRootDictionary(path, readPlist).Failure?
            ==> r == ConfigErrorResult(ITerm2, LoadRootDictionary(path, readPlist).error, None, Some(path))
    ensures macos && LoadRootDictionary(path, readPlist).Success? ==>
              var outcome := BookmarkFont(LoadRootDictionary(path, readPlist).value);
              && (outcome.Failure? ==> r == ConfigErrorResult(ITerm2, outcome.error.0, outcome.error.1, Some(path)))
              && (outcome.Success? ==> r == TerminalConfigResult(ITerm2, outcome.value.1, Some(path), outcome.value.0))
  {
    if !macos then ConfigErrorResult(ITerm2, NOT_MACOS, None, Some(path))
    else match LoadRootDictionary(path, readPlist)
      case Failure(reason) => ConfigErrorResult(ITerm2, reason, None, Some(path))
      case Success(root) =>
        match BookmarkFont(root)
        case Failure((reason, profile)) => ConfigErrorResult(ITerm2, reason, profile, Some(path))
        case Success((profile, font)) => TerminalConfigResult(ITerm2, font, Some(path), profile)
  }

  /** `resolve`: HOME (first occurrence, non-empty) decides the plist path. */
  function Resolve(vars: Vars, macos: bool, readPlist: Path -> Result<PlistValue, string>)
    : (r: DetectionResult)
    ensures WellFormed(r) && r.terminal == Some(ITerm2)
    ensures r.source == TerminalConfig || r.source == ConfigError
    ensures NonEmpty(FirstValue(vars, HOME)).None? ==> r == ConfigErrorResult(ITerm2, HOME_NOT_SET, None, None)
    ensures NonEmpty(FirstValue(vars, HOME)).Some?
            ==> r == ResolveFromPlist(Join(FirstValue(vars, HOME).value, PLIST_RELATIVE), macos, readPlist)
    ensures NonEmpty(FirstValue(vars, HOME)).Some?
            ==> r.configPath == Some(Join(FirstValue(vars, HOME).value, PLIST_RELATIVE))
    ensures r.source == TerminalConfig ==> r.font.value != "" && macos
  {
    match NonEmpty(FirstValue(vars, HOME))
    case None => ConfigErrorResult(ITerm2, HOME_NOT_SET, None, None)
    case Some(home) => ResolveFromPlist(Join(home, PLIST_RELATIVE), macos, readPlist)
  }

  // ---------------------------------------------------------------------

  /** The chosen bookmark is the first dictionary with the default GUID; its profile is its
      non-empty Name and its font the normalised Normal Font. */
  lemma DefaultBookmarkChosen(root: Dictionary, guid: string, bookmarks: seq<PlistValue>, i: nat, raw: string)
    requires StringAt(root, "Default Bookmark Guid") == Some(guid) && guid != ""
    requires ArrayAt(root, "New Bookmarks") == Some(bookmarks)
    requires i < |bookmarks| && BookmarkMatches(bookmarks[i], guid)
    requires forall j :: 0 <= j < i ==> !BookmarkMatches(bookmarks[j], guid)
    requires StringAt(bookmarks[i].entries, "Normal Font") == Some(raw)
    requires Font.NormalizeFontName(raw) != ""
    ensures BookmarkFont(root)
            == Success((NonEmpty(StringAt(bookmarks[i].entries, "Name")), Font.NormalizeFontName(raw)))
  {
    FirstMatchingBookmark(bookmarks, guid, i);
  }

  /** A matching bookmark preceded by no other match is the one `FindBookmark` returns. */
  lemma {:induction false} FirstMatchingBookmark(bookmarks: seq<PlistValue>, guid: string, i: nat)
    requires i < |bookmarks| && BookmarkMatches(bookmarks[i], guid)
    requires forall j :: 0 <= j < i ==> !BookmarkMatches(bookmarks[j], guid)
    ensures FindBookmark(bookmarks, guid) == Some(bookmarks[i].entries)
  {
    if i > 0 {
      assert bookmarks[1..][i - 1] == bookmarks[i];
      FirstMatchingBookmark(bookmarks[1..], guid, i - 1);
    }
  }

  /** A whitespace-only Normal Font is refused with the profile still attached. */
  lemma BlankFontRefused(root: Dictionary, bookmark: Dictionary, raw: string)
    requires NonEmpty(StringAt(root, "Default Bookmark Guid")).Some?
    requires ArrayAt(root, "New Bookmarks").Some?
    requires FindBookmark(ArrayAt(root, "New Bookmarks").value,
                          StringAt(root, "Default Bookmark Guid").value) == Some(bookmark)
    requires StringAt(bookmark, "Normal Font") == Some(raw) && AllWhitespace(raw)
    ensures BookmarkFont(root) == Failure((EMPTY_FONT, NonEmpty(StringAt(bookmark, "Name"))))
  {
    assert raw == raw + [] + [];
    TrimPadded(raw, [], []);
  }

  /** A missing GUID is reported first, before anything about the bookmarks is looked at. */
  lemma GuidCheckedFirst(root: Dictionary, other: PlistValue)
    requires "Default Bookmark Guid" !in root
    ensures Resolve([(HOME, "/Users/a")], true, p => Success(PDict(root[ "New Bookmarks" := other ])))
            == ConfigErrorResult(ITerm2, MISSING_GUID, None, Some(Join("/Users/a", PLIST_RELATIVE)))
  {
    assert StringAt(root[ "New Bookmarks" := other ], "Default Bookmark Guid").None?;
  }
}
