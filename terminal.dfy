/**
 * Terminal identification (src/terminal.rs): a precedence chain over
 * TERM_PROGRAM, then TERM, then the WEZTERM_PANE and KITTY_PID markers.
 * Every lookup takes the LAST occurrence of its key.
 */
module TerminalId {
  import opened Wrappers
  import opened Text
  import opened Environment
  import opened Types

  /** Which way the terminal layer goes: finish as bundled, hand an identified terminal on,
      or finish as unknown. */
  datatype TerminalDecision =
    | Bundled(terminal: Terminal)
    | Identified(terminal: Terminal)
    | Undetermined

  const TERM_PROGRAM := "TERM_PROGRAM"
  const TERM := "TERM"
  const WEZTERM_PANE := "WEZTERM_PANE"
  const KITTY_PID := "KITTY_PID"

  /** `decide`: bundled exactly when the terminal ships Nerd Font glyphs. */
  function Decide(t: Terminal): (d: TerminalDecision)
    ensures !d.Undetermined? && d.terminal == t
    ensures d.Bundled? <==> IsBundled(t)
  {
    if IsBundled(t) then Bundled(t) else Identified(t)
  }

  /** `has_nonempty`: the last occurrence of `key` exists and is not empty. */
  predicate HasNonempty(vars: Vars, key: string) {
    LastValue(vars, key).Some? && LastValue(vars, key).value != ""
  }

  /** `from_term_program`: the three recognised TERM_PROGRAM values. */
  function FromTermProgram(value: string): (r: Option<Terminal>)
    ensures r.Some? <==> TrimLower(value) in {"ghostty", "wezterm", "apple_terminal"}
    ensures r == Some(Ghostty) <==> TrimLower(value) == "ghostty"
    ensures r == Some(WezTerm) <==> TrimLower(value) == "wezterm"
    ensures r == Some(TerminalApp) <==> TrimLower(value) == "apple_terminal"
  {
    match TrimLower(value)
    case "ghostty" => Some(Ghostty)
    case "wezterm" => Some(WezTerm)
    case "apple_terminal" => Some(TerminalApp)
    case _ => None
  }

  /** `from_term`: the two recognised TERM values. */
  function FromTerm(value: string): (r: Option<Terminal>)
    ensures r.Some? <==> TrimLower(value) in {"xterm-ghostty", "wezterm"}
    ensures r == Some(Ghostty) <==> TrimLower(value) == "xterm-ghostty"
    ensures r == Some(WezTerm) <==> TrimLower(value) == "wezterm"
  {
    match TrimLower(value)
    case "xterm-ghostty" => Some(Ghostty)
    case "wezterm" => Some(WezTerm)
    case _ => None
  }

  /** TERM_PROGRAM maps to a terminal (last occurrence, recognised value). */
  function ProgramSignal(vars: Vars): Option<Terminal> {
    match LastValue(vars, TERM_PROGRAM)
    case Some(v) => FromTermProgram(v)
    case None => None
  }

  /** TERM maps to a terminal (last occurrence, recognised value). */
  function TermSignal(vars: Vars): Option<Terminal> {
    match LastValue(vars, TERM)
    case Some(v) => FromTerm(v)
    case None => None
  }

  /** `terminal::detect`. */
  function Detect(vars: Vars): (d: TerminalDecision)
    ensures d.Undetermined? <==>
              ProgramSignal(vars).None? && TermSignal(vars).None?
              && !HasNonempty(vars, WEZTERM_PANE) && !HasNonempty(vars, KITTY_PID)
    ensures d.Bundled? ==> IsBundled(d.terminal) && d.terminal in {Ghostty, WezTerm}
    ensures d.Identified? ==> d.terminal in {TerminalApp, Kitty}
    ensures d.Identified? && d.terminal == Kitty <==>
              ProgramSignal(vars).None? && TermSignal(vars).None?
              && !HasNonempty(vars, WEZTERM_PANE) && HasNonempty(vars, KITTY_PID)
    ensures ProgramSignal(vars).Some? ==> d == Decide(ProgramSignal(vars).value)
    ensures ProgramSignal(vars).None? && TermSignal(vars).Some? ==> d == Decide(TermSignal(vars).value)
    ensures ProgramSignal(vars).None? && TermSignal(vars).None? && HasNonempty(vars, WEZTERM_PANE)
            ==> d == Bundled(WezTerm)
  {
    if ProgramSignal(vars).Some? then Decide(ProgramSignal(vars).value)
    else if TermSignal(vars).Some? then Decide(TermSignal(vars).value)
    else if HasNonempty(vars, WEZTERM_PANE) then Bundled(WezTerm)
    else if HasNonempty(vars, KITTY_PID) then Identified(Kitty)
    else Undetermined
  }

  // ---------------------------------------------------------------------

  /** A recognised TERM_PROGRAM decides outright, whatever TERM and the markers say. */
  lemma TermProgramDecides(vars: Vars, value: string, t: Terminal)
    requires FromTermProgram(value) == Some(t)
    ensures Detect(vars + [(TERM_PROGRAM, value)]) == Decide(t)
  {
    LastValueAppend(vars, TERM_PROGRAM, value, TERM_PROGRAM);
  }

  /** An unrecognised TERM_PROGRAM is no verdict: detection goes on exactly as if the
      variable were absent (no `Unknown(raw)` terminal is produced). */
  lemma UnrecognizedTermProgramFallsThrough(vars: Vars, value: string)
    requires !HasKey(vars, TERM_PROGRAM) && FromTermProgram(value).None?
    ensures Detect(vars + [(TERM_PROGRAM, value)]) == Detect(vars)
  {
    var all := vars + [(TERM_PROGRAM, value)];
    LastValueAppend(vars, TERM_PROGRAM, value, TERM);
    LastValueAppend(vars, TERM_PROGRAM, value, WEZTERM_PANE);
    LastValueAppend(vars, TERM_PROGRAM, value, KITTY_PID);
  }

  /** Matching ignores case and surrounding whitespace: padded, upper-case spellings of a
      recognised value select the same terminal. */
  lemma SignalsIgnoreCaseAndPadding(left: string, value: string, right: string)
    requires AllWhitespace(left) && AllWhitespace(right)
    ensures FromTermProgram(left + AsciiLower(value) + right) == FromTermProgram(value)
    ensures FromTerm(left + AsciiLower(value) + right) == FromTerm(value)
  {
    TrimLowerIgnoresPadding(left, AsciiLower(value), right);
    TrimLowerIgnoresCase(value);
  }

  /** The last TERM_PROGRAM entry wins: a recognised later value overrides any earlier one,
      recognised or not. */
  lemma LastTermProgramWins(vars: Vars, earlier: string, later: string, t: Terminal)
    requires FromTermProgram(later) == Some(t)
    ensures Detect(vars + [(TERM_PROGRAM, earlier)] + [(TERM_PROGRAM, later)]) == Decide(t)
  {
    TermProgramDecides(vars + [(TERM_PROGRAM, earlier)], later, t);
  }

  /** TERM outranks the WEZTERM_PANE and KITTY_PID markers: without a recognised
      TERM_PROGRAM, a recognised last TERM decides whatever the markers say. */
  lemma {:induction false} TermOutranksMarkers(vars: Vars, value: string, t: Terminal)
    requires ProgramSignal(vars).None?
    requires FromTerm(value) == Some(t)
    ensures Detect(vars + [(TERM, value)]) == Decide(t)
  {
    LastValueAppend(vars, TERM, value, TERM_PROGRAM);
    LastValueAppend(vars, TERM, value, TERM);
  }
}
