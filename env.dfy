/**
 * The explicit override layer (src/env.rs): the NERD_FONT variable can end
 * the whole pipeline with "enabled" or "disabled" before any other check.
 */
module EnvOverride {
  import opened Wrappers
  import opened Text
  import opened Environment

  datatype EnvDecision = OverrideEnabled | OverrideDisabled | Continue

  const OVERRIDE_KEY := "NERD_FONT"

  predicate IsTruthy(token: string) {
    token == "1" || token == "true" || token == "yes"
  }

  predicate IsFalsy(token: string) {
    token == "0" || token == "false" || token == "no"
  }

  /** The `match` on the normalised value. */
  function Classify(raw: string): (d: EnvDecision)
    ensures d == OverrideEnabled <==> IsTruthy(TrimLower(raw))
    ensures d == OverrideDisabled <==> IsFalsy(TrimLower(raw))
  {
    var normalized := TrimLower(raw);
    if IsTruthy(normalized) then OverrideEnabled
    else if IsFalsy(normalized) then OverrideDisabled
    else Continue
  }

  /** `env::detect`: the FIRST NERD_FONT entry decides (a forward `find_map`). */
  function Detect(vars: Vars): (d: EnvDecision)
    ensures !HasKey(vars, OVERRIDE_KEY) ==> d == Continue
    ensures d != Continue ==> HasKey(vars, OVERRIDE_KEY)
  {
    match FirstValue(vars, OVERRIDE_KEY)
    case None => Continue
    case Some(raw) => Classify(raw)
  }

  // ---------------------------------------------------------------------

  /** The first NERD_FONT entry decides; entries before it with other keys and every entry
      after it, later NERD_FONT duplicates included, are ignored. */
  lemma FirstEntryDecides(before: Vars, value: string, after: Vars)
    requires !HasKey(before, OVERRIDE_KEY)
    ensures Detect(before + [(OVERRIDE_KEY, value)] + after) == Classify(value)
  {
    FirstOccurrenceWins(before, OVERRIDE_KEY, value, after);
  }

  /** Entries whose key is not NERD_FONT never change the decision. */
  lemma OtherKeysIrrelevant(vars: Vars, others: Vars)
    requires !HasKey(others, OVERRIDE_KEY)
    ensures Detect(others + vars) == Detect(vars)
  {
    if HasKey(vars, OVERRIDE_KEY) {
      var i :| 0 <= i < |vars| && vars[i] == (OVERRIDE_KEY, FirstValue(vars, OVERRIDE_KEY).value)
               && forall j :: 0 <= j < i ==> vars[j].0 != OVERRIDE_KEY;
      assert others + vars == (others + vars[..i]) + [vars[i]] + vars[i + 1..];
      FirstOccurrenceWins(others + vars[..i], OVERRIDE_KEY, vars[i].1, vars[i + 1..]);
    } else {
      assert !HasKey(others + vars, OVERRIDE_KEY);
    }
  }

  /** Letter case of the value never matters. */
  lemma ClassifyIgnoresCase(raw: string)
    ensures Classify(AsciiLower(raw)) == Classify(raw)
  {
    TrimLowerIgnoresCase(raw);
  }

  /** Whitespace around the value never matters. */
  lemma ClassifyIgnoresPadding(left: string, raw: string, right: string)
    requires AllWhitespace(left) && AllWhitespace(right)
    ensures Classify(left + raw + right) == Classify(raw)
  {
    TrimLowerIgnoresPadding(left, raw, right);
  }

  /** A keyword with whitespace around it is matched as the keyword, lower-cased. */
  lemma PaddedKeyword(left: string, word: string, right: string)
    requires AllWhitespace(left) && AllWhitespace(right)
    requires word != [] && !IsWhitespace(word[0]) && !IsWhitespace(word[|word| - 1])
    ensures TrimLower(left + word + right) == AsciiLower(word)
  {
    TrimPadded(left, word, right);
  }

  /** The documented examples: padded mixed-case "YeS" enables, " FALSE " disables. */
  lemma OverrideExamples()
    ensures Classify("  YeS  ") == OverrideEnabled
    ensures Classify(" FALSE ") == OverrideDisabled
  {
    YesExample("  YeS  ");
    FalseExample(" FALSE ");
  }

  lemma YesExample(raw: string)
    requires raw in {"  YeS  "}
    ensures Classify(raw) == OverrideEnabled
  {
    assert raw == "  " + "YeS" + "  ";
    PaddedKeyword("  ", "YeS", "  ");
    LowerYeS("YeS");
  }

  lemma LowerYeS(w: string)
    requires w in {"YeS"}
    ensures AsciiLower(w) == "yes"
  {
    var l := AsciiLower(w);
    assert l[0] == 'y' && l[1] == 'e' && l[2] == 's';
  }

  lemma FalseExample(raw: string)
    requires raw in {" FALSE "}
    ensures Classify(raw) == OverrideDisabled
  {
    assert raw == " " + "FALSE" + " ";
    PaddedKeyword(" ", "FALSE", " ");
    LowerFALSE("FALSE");
  }

  lemma LowerFALSE(w: string)
    requires w in {"FALSE"}
    ensures AsciiLower(w) == "false"
  {
    var l := AsciiLower(w);
    assert l[0] == 'f' && l[1] == 'a' && l[2] == 'l' && l[3] == 's' && l[4] == 'e';
  }

  /** The empty value, a blank value and an unrecognised word leave the decision to later layers. */
  lemma ContinueExamples()
    ensures Classify("") == Continue && Classify("   ") == Continue && Classify("maybe") == Continue
  {
    BlankContinues("");
    BlankContinues("   ");
    MaybeContinues("maybe");
  }

  lemma MaybeContinues(raw: string)
    requires raw in {"maybe"}
    ensures Classify(raw) == Continue
  {
    TrimOfTrimmed(raw);
    LowerMaybe(raw);
  }

  lemma LowerMaybe(w: string)
    requires w in {"maybe"}
    ensures AsciiLower(w) == "maybe"
  {
    var l := AsciiLower(w);
    assert l[0] == 'm' && l[1] == 'a' && l[2] == 'y' && l[3] == 'b' && l[4] == 'e';
  }

  lemma BlankContinues(blank: string)
    requires AllWhitespace(blank)
    ensures Classify(blank) == Continue
  {
    assert blank == blank + "" + "";
    TrimPadded(blank, "", "");
  }
}
