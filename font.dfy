/**
 * The font-name heuristic (src/font.rs): whitespace normalisation and the
 * case-sensitive "is this a Nerd Font?" classifier.
 */
module Font {
  import opened Text

  /** `normalize_font_name`: the name with surrounding whitespace removed, case untouched. */
  function NormalizeFontName(font: string): (r: string)
    ensures exists i, j :: 0 <= i <= j <= |font| && r == font[i..j]
                           && AllWhitespace(font[..i]) && AllWhitespace(font[j..])
    ensures r == [] || (!IsWhitespace(r[0]) && !IsWhitespace(r[|r| - 1]))
  {
    TrimIsSlice(font);
    Trim(font)
  }

  /** Index of the first character that is not ASCII alphanumeric, or |s|. */
  function FirstSeparator(s: string): (i: nat)
    ensures i <= |s| && AllAlphanumeric(s[..i])
    ensures i < |s| ==> !IsAsciiAlphanumeric(s[i])
  {
    if s == [] || !IsAsciiAlphanumeric(s[0]) then 0 else 1 + FirstSeparator(s[1..])
  }

  /** `s.split(|ch| !ch.is_ascii_alphanumeric())`: every separator splits, so empty tokens appear. */
  function Tokens(s: string): (ts: seq<string>)
    ensures |ts| >= 1
    decreases |s|
  {
    var i := FirstSeparator(s);
    if i == |s| then [s] else [s[..i]] + Tokens(s[i + 1..])
  }

  predicate HasNerdSuffix(token: string) {
    EndsWith(token, "NF") || EndsWith(token, "NFM") || EndsWith(token, "NFP")
  }

  predicate HasNerdToken(ts: seq<string>) {
    exists j :: 0 <= j < |ts| && HasNerdSuffix(ts[j])
  }

  /** `is_nerd_font`. */
  predicate IsNerdFont(font: string) {
    var normalized := NormalizeFontName(font);
    || Contains(normalized, "Nerd Font")
    || Contains(normalized, "NerdFont")
    || HasNerdToken(Tokens(normalized))
  }

  // ---------------------------------------------------------------------
  // An independent reading of the token rule: an abbreviation counts when it
  // is followed by the end of the name or by a non-alphanumeric character.

  predicate SomeTokenEndsWith(ts: seq<string>, suffix: string) {
    exists j :: 0 <= j < |ts| && EndsWith(ts[j], suffix)
  }

  /** `suffix` ends at position `e` of `s`, and `e` is a token boundary. */
  predicate EndsAtBoundary(s: string, suffix: string, e: int) {
    |suffix| <= e <= |s| && s[e - |suffix|..e] == suffix
    && (e == |s| || !IsAsciiAlphanumeric(s[e]))
  }

  ghost predicate HasBoundaryEnd(s: string, suffix: string) {
    exists e :: EndsAtBoundary(s, suffix, e)
  }

  /** Inside a run of alphanumerics the only boundary is the end of the run. */
  lemma BoundaryInRun(s: string, suffix: string)
    requires AllAlphanumeric(s)
    ensures HasBoundaryEnd(s, suffix) <==> EndsWith(s, suffix)
  {
    if EndsWith(s, suffix) {
      assert EndsAtBoundary(s, suffix, |s|);
    }
    if e :| EndsAtBoundary(s, suffix, e) {
      assert e == |s|;
    }
  }

  /** A boundary before the first separator ends the first token. */
  lemma BoundaryBeforeSeparator(s: string, suffix: string, i: nat, e: int)
    requires i < |s| && AllAlphanumeric(s[..i]) && !IsAsciiAlphanumeric(s[i])
    requires EndsAtBoundary(s, suffix, e) && e <= i
    ensures EndsWith(s[..i], suffix)
  {
    assert e == i;
    assert s[..i][i - |suffix|..] == s[i - |suffix|..i];
  }

  /** A boundary after the first separator is a boundary of the rest of the string. */
  lemma BoundaryAfterSeparator(s: string, suffix: string, i: nat, e: int)
    requires AllAlphanumeric(suffix)
    requires i < |s| && !IsAsciiAlphanumeric(s[i])
    requires EndsAtBoundary(s, suffix, e) && e > i
    ensures EndsAtBoundary(s[i + 1..], suffix, e - i - 1)
  {
    var n := |suffix|;
    assert forall k :: e - n <= k < e ==> s[k] == s[e - n..e][k - (e - n)];
    assert e - n > i;
    var rest := s[i + 1..];
    var e' := e - i - 1;
    assert rest[e' - n..e'] == s[e - n..e];
    if e' < |rest| {
      assert rest[e'] == s[e];
    }
  }

  /** A boundary of the rest of the string is a boundary of the whole. */
  lemma BoundaryOfRest(s: string, suffix: string, i: nat, e': int)
    requires i < |s|
    requires EndsAtBoundary(s[i + 1..], suffix, e')
    ensures EndsAtBoundary(s, suffix, e' + i + 1)
  {
    var rest := s[i + 1..];
    var n := |suffix|;
    var e := e' + i + 1;
    assert s[e - n..e] == rest[e' - n..e'];
    if e < |s| {
      assert s[e] == rest[e'];
    }
  }

  lemma BoundarySplit(s: string, suffix: string, i: nat)
    requires AllAlphanumeric(suffix)
    requires i < |s| && AllAlphanumeric(s[..i]) && !IsAsciiAlphanumeric(s[i])
    ensures HasBoundaryEnd(s, suffix)
        <==> EndsWith(s[..i], suffix) || HasBoundaryEnd(s[i + 1..], suffix)
  {
    if EndsWith(s[..i], suffix) {
      assert s[i - |suffix|..i] == s[..i][i - |suffix|..];
      assert EndsAtBoundary(s, suffix, i);
    }
    var rest := s[i + 1..];
    if e' :| EndsAtBoundary(rest, suffix, e') {
      BoundaryOfRest(s, suffix, i, e');
    }
    if e :| EndsAtBoundary(s, suffix, e) {
      if e <= i {
        BoundaryBeforeSeparator(s, suffix, i, e);
      } else {
        BoundaryAfterSeparator(s, suffix, i, e);
      }
    }
  }

  lemma SomeTokenCons(t: string, ts: seq<string>, suffix: string)
    ensures SomeTokenEndsWith([t] + ts, suffix) <==> EndsWith(t, suffix) || SomeTokenEndsWith(ts, suffix)
  {
    var all := [t] + ts;
    if EndsWith(t, suffix) {
      assert EndsWith(all[0], suffix);
    }
    if SomeTokenEndsWith(all, suffix) {
      var j :| 0 <= j < |all| && EndsWith(all[j], suffix);
      if j > 0 {
        assert all[j] == ts[j - 1];
      }
    }
    if SomeTokenEndsWith(ts, suffix) {
      var j :| 0 <= j < |ts| && EndsWith(ts[j], suffix);
      assert all[j + 1] == ts[j];
    }
  }

  /** Some token of `s` ends with the all-alphanumeric `suffix` exactly when `suffix`
      occurs in `s` followed by the end of `s` or by a non-alphanumeric character. */
  lemma {:induction false} TokenSuffixIffBoundary(s: string, suffix: string)
    requires AllAlphanumeric(suffix)
    ensures SomeTokenEndsWith(Tokens(s), suffix) <==> HasBoundaryEnd(s, suffix)
    decreases |s|
  {
    var i := FirstSeparator(s);
    if i == |s| {
      assert s[..i] == s;
      BoundaryInRun(s, suffix);
      SomeTokenCons(s, [], suffix);
      assert Tokens(s) == [s] + [];
    } else {
      TokenSuffixIffBoundary(s[i + 1..], suffix);
      BoundarySplit(s, suffix, i);
      SomeTokenCons(s[..i], Tokens(s[i + 1..]), suffix);
    }
  }

  // ---------------------------------------------------------------------
  // Properties of the classifier

  /** Normalising twice is normalising once. */
  lemma NormalizeIdempotent(font: string)
    ensures NormalizeFontName(NormalizeFontName(font)) == NormalizeFontName(font)
  {
    TrimOfTrimmed(NormalizeFontName(font));
  }

  /** Surrounding whitespace never changes the classification. */
  lemma ClassificationIgnoresSurroundingWhitespace(font: string)
    ensures IsNerdFont(font) == IsNerdFont(NormalizeFontName(font))
  {
    NormalizeIdempotent(font);
  }

  /** The phrase "Nerd Font" (or "NerdFont") anywhere in the name, padding included, is decisive. */
  lemma NerdFontPhraseIsNerdFont(font: string)
    requires Contains(font, "Nerd Font") || Contains(font, "NerdFont")
    ensures IsNerdFont(font)
  {
    if Contains(font, "Nerd Font") {
      ContainsSurvivesTrim(font, "Nerd Font");
    } else {
      ContainsSurvivesTrim(font, "NerdFont");
    }
  }

  ghost predicate HasNerdAbbreviation(s: string) {
    HasBoundaryEnd(s, "NF") || HasBoundaryEnd(s, "NFM") || HasBoundaryEnd(s, "NFP")
  }

  lemma NerdTokenIffAbbreviation(s: string)
    ensures HasNerdToken(Tokens(s)) <==> HasNerdAbbreviation(s)
  {
    var ts := Tokens(s);
    TokenSuffixIffBoundary(s, "NF");
    TokenSuffixIffBoundary(s, "NFM");
    TokenSuffixIffBoundary(s, "NFP");
    if HasNerdToken(ts) {
      var j :| 0 <= j < |ts| && HasNerdSuffix(ts[j]);
      if EndsWith(ts[j], "NF") { assert SomeTokenEndsWith(ts, "NF"); }
      else if EndsWith(ts[j], "NFM") { assert SomeTokenEndsWith(ts, "NFM"); }
      else { assert SomeTokenEndsWith(ts, "NFP"); }
    }
    if SomeTokenEndsWith(ts, "NF") {
      var j :| 0 <= j < |ts| && EndsWith(ts[j], "NF");
      assert HasNerdSuffix(ts[j]);
    }
    if SomeTokenEndsWith(ts, "NFM") {
      var j :| 0 <= j < |ts| && EndsWith(ts[j], "NFM");
      assert HasNerdSuffix(ts[j]);
    }
    if SomeTokenEndsWith(ts, "NFP") {
      var j :| 0 <= j < |ts| && EndsWith(ts[j], "NFP");
      assert HasNerdSuffix(ts[j]);
    }
  }

  /** Without the phrase, a name is a Nerd Font exactly when "NF", "NFM" or "NFP" ends a token:
      it is followed by the end of the name or by a character that is not ASCII alphanumeric. */
  lemma AbbreviationRule(font: string)
    ensures var n := NormalizeFontName(font);
      IsNerdFont(font) <==>
        Contains(n, "Nerd Font") || Contains(n, "NerdFont") || HasNerdAbbreviation(n)
  {
    NerdTokenIffAbbreviation(NormalizeFontName(font));
  }

  /** Each abbreviation starts with the letters "NF". */
  lemma AbbreviationStartsWithNF(s: string, suffix: string, e: int)
    requires suffix == "NF" || suffix == "NFM" || suffix == "NFP"
    requires EndsAtBoundary(s, suffix, e)
    ensures OccursAt(s, "NF", e - |suffix|)
  {
    var start := e - |suffix|;
    assert s[start..start + 2] == s[start..e][..2];
  }

  /** Matching is case-sensitive and needs the letters "NF" side by side: a name whose
      normalised form contains none of "NF", "Nerd Font", "NerdFont" is not a Nerd Font. */
  lemma NoAbbreviationNoNerdFont(font: string)
    requires var n := NormalizeFontName(font);
      !Contains(n, "NF") && !Contains(n, "Nerd Font") && !Contains(n, "NerdFont")
    ensures !IsNerdFont(font)
  {
    var n := NormalizeFontName(font);
    AbbreviationRule(font);
    if e :| EndsAtBoundary(n, "NF", e) {
      AbbreviationStartsWithNF(n, "NF", e);
    }
    if e :| EndsAtBoundary(n, "NFM", e) {
      AbbreviationStartsWithNF(n, "NFM", e);
    }
    if e :| EndsAtBoundary(n, "NFP", e) {
      AbbreviationStartsWithNF(n, "NFP", e);
    }
  }

  /** A name with no capital 'N' at all is never a Nerd Font. */
  lemma NotNerdWithoutCapitalN(font: string)
    requires 'N' !in font
    ensures !IsNerdFont(font)
  {
    var n := NormalizeFontName(font);
    assert 'N' !in n;
    MissingCharNotContained(n, "NF", 'N');
    MissingCharNotContained(n, "Nerd Font", 'N');
    MissingCharNotContained(n, "NerdFont", 'N');
    NoAbbreviationNoNerdFont(font);
  }

  /** A family name carrying the phrase, as documented for the crate. */
  lemma FamilyNameExample()
    ensures IsNerdFont("JetBrainsMono Nerd Font")
  {
    var a := "JetBrainsMono Nerd Font";
    assert a[14..23] == "Nerd Font";
    assert OccursAt(a, "Nerd Font", 14);
    NerdFontPhraseIsNerdFont(a);
  }

  /** A PostScript name whose first token ends with "NFM". */
  lemma PostScriptNameExample()
    ensures IsNerdFont("JetBrainsMonoNFM-Regular")
  {
    var b := "JetBrainsMonoNFM-Regular";
    TrimOfTrimmed(b);
    assert b[13..16] == "NFM";
    assert EndsAtBoundary(b, "NFM", 16);
    AbbreviationRule(b);
  }

  /** A family name whose last token is "NF". */
  lemma ShortFamilyNameExample()
    ensures IsNerdFont("MonaspiceNe NF")
  {
    var c := "MonaspiceNe NF";
    TrimOfTrimmed(c);
    assert c[12..14] == "NF";
    assert EndsAtBoundary(c, "NF", 14);
    AbbreviationRule(c);
  }

  /** Plain family names, and a lower-case "nf" inside a word, are not Nerd Fonts. */
  lemma PlainFontExamples()
    ensures !IsNerdFont("Arial") && !IsNerdFont("Fira Code") && !IsNerdFont("Menlo")
    ensures !IsNerdFont("Conf nf")
  {
    PlainFontExample("Arial");
    PlainFontExample("Fira Code");
    PlainFontExample("Menlo");
    PlainFontExample("Conf nf");
  }

  lemma PlainFontExample(font: string)
    requires font in {"Arial", "Fira Code", "Menlo", "Conf nf"}
    ensures !IsNerdFont(font)
  {
    NotNerdWithoutCapitalN(font);
  }
}
