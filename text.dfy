/**
 * The handful of Rust `str` operations the crate relies on, over `seq<char>`:
 * `trim` (Unicode White_Space at both ends), `to_ascii_lowercase`,
 * `contains`, `starts_with`/`ends_with`, and `char::is_ascii_alphanumeric`.
 */
module Text {

  /** `char::is_whitespace`: the Unicode White_Space property. */
  predicate IsWhitespace(c: char) {
    var n := c as int;
    (9 <= n <= 13) || n == 32 || n == 0x85 || n == 0xA0 || n == 0x1680
    || (0x2000 <= n <= 0x200A) || n == 0x2028 || n == 0x2029 || n == 0x202F
    || n == 0x205F || n == 0x3000
  }

  predicate IsAsciiAlphanumeric(c: char) {
    ('0' <= c <= '9') || ('A' <= c <= 'Z') || ('a' <= c <= 'z')
  }

  predicate AllWhitespace(s: string) {
    forall i :: 0 <= i < |s| ==> IsWhitespace(s[i])
  }

  predicate AllAlphanumeric(s: string) {
    forall i :: 0 <= i < |s| ==> IsAsciiAlphanumeric(s[i])
  }

  /** Index of the first character at or after `k` that is not whitespace, or |s|. */
  function SkipLeading(s: string, k: nat): (r: nat)
    requires k <= |s|
    ensures k <= r <= |s|
    ensures forall m :: k <= m < r ==> IsWhitespace(s[m])
    ensures r < |s| ==> !IsWhitespace(s[r])
    decreases |s| - k
  {
    if k < |s| && IsWhitespace(s[k]) then SkipLeading(s, k + 1) else k
  }

  /** Index just past the last character before `k` that is not whitespace, or 0. */
  function SkipTrailing(s: string, k: nat): (r: nat)
    requires k <= |s|
    ensures r <= k
    ensures forall m :: r <= m < k ==> IsWhitespace(s[m])
    ensures 0 < r ==> !IsWhitespace(s[r - 1])
  {
    if 0 < k && IsWhitespace(s[k - 1]) then SkipTrailing(s, k - 1) else k
  }

  /** `trim_start`: drops the leading run of whitespace. */
  function TrimStart(s: string): (r: string)
    ensures |r| <= |s| && r == s[|s| - |r|..]
    ensures r == [] || !IsWhitespace(r[0])
    ensures AllWhitespace(s[..|s| - |r|])
  {
    s[SkipLeading(s, 0)..]
  }

  /** `trim_end`: drops the trailing run of whitespace. */
  function TrimEnd(s: string): (r: string)
    ensures |r| <= |s| && r == s[..|r|]
    ensures r == [] || !IsWhitespace(r[|r| - 1])
    ensures AllWhitespace(s[|r|..])
  {
    s[..SkipTrailing(s, |s|)]
  }

  /** `str::trim`. */
  function Trim(s: string): string {
    TrimEnd(TrimStart(s))
  }

  function AsciiLowerChar(c: char): char {
    if 'A' <= c <= 'Z' then (c as int + 32) as char else c
  }

  /** `str::to_ascii_lowercase`: only `A`..`Z` change. */
  function AsciiLower(s: string): (r: string)
    ensures |r| == |s|
    ensures forall i :: 0 <= i < |s| ==> r[i] == AsciiLowerChar(s[i])
  {
    seq(|s|, i requires 0 <= i < |s| => AsciiLowerChar(s[i]))
  }

  predicate StartsWith(s: string, prefix: string) {
    |prefix| <= |s| && s[..|prefix|] == prefix
  }

  predicate EndsWith(s: string, suffix: string) {
    |suffix| <= |s| && s[|s| - |suffix|..] == suffix
  }

  /** `sub` occurs in `s` starting at index `k`. */
  predicate OccursAt(s: string, sub: string, k: int) {
    0 <= k && k + |sub| <= |s| && s[k..k + |sub|] == sub
  }

  /** `str::contains` with a string pattern. */
  predicate Contains(s: string, sub: string) {
    exists k :: 0 <= k <= |s| - |sub| && OccursAt(s, sub, k)
  }

  /** Decimal rendering of a natural number, as `format!("{}")` prints a `usize`. */
  function NatToString(n: nat): (r: string)
    ensures |r| >= 1
    ensures forall i :: 0 <= i < |r| ==> '0' <= r[i] <= '9'
    ensures DecimalValue(r) == n
    ensures |r| > 1 ==> r[0] != '0'
  {
    var digit := ['0' + (n % 10) as char];
    if n < 10 then digit
    else
      var prefix := NatToString(n / 10);
      assert (prefix + digit)[..|prefix + digit| - 1] == prefix;
      prefix + digit
  }

  /** The number a string of decimal digits denotes, most significant digit first. */
  function DecimalValue(s: string): nat {
    if s == [] then 0
    else
      var d := s[|s| - 1] as int - '0' as int;
      DecimalValue(s[..|s| - 1]) * 10 + (if 0 <= d then d else 0)
  }

  /** `value.trim().to_ascii_lowercase()`: how environment values are matched against keywords. */
  function TrimLower(s: string): string {
    AsciiLower(Trim(s))
  }

  // ---------------------------------------------------------------------
  // Facts about these operations

  /** A string without whitespace at either end is its own trim. */
  lemma TrimOfTrimmed(s: string)
    requires s == [] || (!IsWhitespace(s[0]) && !IsWhitespace(s[|s| - 1]))
    ensures Trim(s) == s
  {
  }

  /** What `trim` keeps: one contiguous slice, with only whitespace cut off around it. */
  lemma TrimIsSlice(s: string)
    ensures exists i, j :: 0 <= i <= j <= |s| && Trim(s) == s[i..j]
                           && AllWhitespace(s[..i]) && AllWhitespace(s[j..])
    ensures Trim(s) == [] || (!IsWhitespace(Trim(s)[0]) && !IsWhitespace(Trim(s)[|Trim(s)| - 1]))
  {
    var t := TrimStart(s);
    var e := TrimEnd(t);
    TrimmedSlice(s, t, e);
    var i := |s| - |t|;
    assert 0 <= i <= i + |e| <= |s| && Trim(s) == s[i..i + |e|]
           && AllWhitespace(s[..i]) && AllWhitespace(s[i + |e|..]);
  }

  /** The slice arithmetic behind TrimIsSlice, for a trimmed prefix `t` and its trimmed end `e`. */
  lemma TrimmedSlice(s: string, t: string, e: string)
    requires t == TrimStart(s) && e == TrimEnd(t)
    ensures var i := |s| - |t|; 0 <= i <= i + |e| <= |s| && e == s[i..i + |e|]
    ensures AllWhitespace(s[..|s| - |t|]) && AllWhitespace(s[|s| - |t| + |e|..])
    ensures e == [] || (!IsWhitespace(e[0]) && !IsWhitespace(e[|e| - 1]))
  {
    SuffixPrefixSlice(s, t, e);
  }

  /** A prefix `e` of a suffix `t` of `s` is a slice of `s`, and what follows `e` in `t` is the tail of `s`. */
  lemma SuffixPrefixSlice(s: string, t: string, e: string)
    requires |t| <= |s| && t == s[|s| - |t|..]
    requires |e| <= |t| && e == t[..|e|]
    ensures var i := |s| - |t|; e == s[i..i + |e|] && s[i + |e|..] == t[|e|..]
    ensures e == [] || e[0] == t[0]
  {
    var i := |s| - |t|;
    assert s[i..][..|e|] == s[i..i + |e|];
  }

  lemma AsciiLowerIdempotent(s: string)
    ensures AsciiLower(AsciiLower(s)) == AsciiLower(s)
  {
  }

  /** The leading scan stops at the first non-whitespace character and nowhere else. */
  lemma SkipLeadingAt(s: string, k: nat, r: nat)
    requires k <= r <= |s|
    requires forall m :: k <= m < r ==> IsWhitespace(s[m])
    requires r < |s| ==> !IsWhitespace(s[r])
    ensures SkipLeading(s, k) == r
  {
  }

  /** The trailing scan stops just past the last non-whitespace character and nowhere else. */
  lemma SkipTrailingAt(s: string, k: nat, r: nat)
    requires r <= k <= |s|
    requires forall m :: r <= m < k ==> IsWhitespace(s[m])
    requires 0 < r ==> !IsWhitespace(s[r - 1])
    ensures SkipTrailing(s, k) == r
  {
  }

  lemma TrimStartPadded(pad: string, s: string)
    requires AllWhitespace(pad) && (s == [] || !IsWhitespace(s[0]))
    ensures TrimStart(pad + s) == s
  {
    var x := pad + s;
    forall m | 0 <= m < |pad| ensures IsWhitespace(x[m]) {
      assert x[m] == pad[m];
    }
    if |pad| < |x| {
      assert x[|pad|] == s[0];
    }
    SkipLeadingAt(x, 0, |pad|);
    assert x[|pad|..] == s;
  }

  lemma TrimEndPadded(s: string, pad: string)
    requires AllWhitespace(pad) && (s == [] || !IsWhitespace(s[|s| - 1]))
    ensures TrimEnd(s + pad) == s
  {
    var x := s + pad;
    forall m | |s| <= m < |x| ensures IsWhitespace(x[m]) {
      assert x[m] == pad[m - |s|];
    }
    if 0 < |s| {
      assert x[|s| - 1] == s[|s| - 1];
    }
    SkipTrailingAt(x, |x|, |s|);
    assert x[..|s|] == s;
  }

  /** Trimming removes exactly the whitespace padding around a core that has none at its ends. */
  lemma TrimPadded(left: string, core: string, right: string)
    requires AllWhitespace(left) && AllWhitespace(right)
    requires core == [] || (!IsWhitespace(core[0]) && !IsWhitespace(core[|core| - 1]))
    ensures Trim(left + core + right) == core
  {
    if core == [] {
      assert left + core + right == left + right;
      assert (left + right)[..|left|] == left;
      TrimStartPadded(left + right, []);
      assert left + right + [] == left + right;
      assert TrimEnd([]) == [];
    } else {
      assert left + core + right == left + (core + right);
      TrimStartPadded(left, core + right);
      TrimEndPadded(core, right);
    }
  }

  lemma AllWhitespaceConcat(a: string, b: string)
    requires AllWhitespace(a) && AllWhitespace(b)
    ensures AllWhitespace(a + b)
  {
    forall m | 0 <= m < |a + b| ensures IsWhitespace((a + b)[m]) {
      if m >= |a| { assert (a + b)[m] == b[m - |a|]; }
    }
  }

  /** Whitespace added around a string never changes its trim. */
  lemma TrimIgnoresPadding(left: string, s: string, right: string)
    requires AllWhitespace(left) && AllWhitespace(right)
    ensures Trim(left + s + right) == Trim(s)
  {
    var t := TrimStart(s);
    var e := TrimEnd(t);
    TrimmedSlice(s, t, e);
    var i, j := |s| - |t|, |s| - |t| + |e|;
    assert s[i..j] == e;
    TrimOfPaddedSlice(left, s, right, i, j);
  }

  lemma TrimOfPaddedSlice(left: string, s: string, right: string, i: nat, j: nat)
    requires AllWhitespace(left) && AllWhitespace(right)
    requires i <= j <= |s| && AllWhitespace(s[..i]) && AllWhitespace(s[j..])
    requires s[i..j] == [] || (!IsWhitespace(s[i..j][0]) && !IsWhitespace(s[i..j][j - i - 1]))
    ensures Trim(left + s + right) == s[i..j]
  {
    var l, core, r := left + s[..i], s[i..j], s[j..] + right;
    AllWhitespaceConcat(left, s[..i]);
    AllWhitespaceConcat(s[j..], right);
    assert s == s[..i] + core + s[j..];
    assert left + s + right == l + core + r;
    TrimPadded(l, core, r);
  }

  /** An occurrence of `sub` that starts and ends with non-whitespace survives `trim`. */
  lemma ContainsSurvivesTrim(s: string, sub: string)
    requires sub != [] && !IsWhitespace(sub[0]) && !IsWhitespace(sub[|sub| - 1])
    requires Contains(s, sub)
    ensures Contains(Trim(s), sub)
  {
    var t := TrimStart(s);
    var e := TrimEnd(t);
    TrimmedSlice(s, t, e);
    ContainsSurvivesWhitespaceCut(s, sub, |s| - |t|, |s| - |t| + |e|);
  }

  lemma ContainsSurvivesWhitespaceCut(s: string, sub: string, i: nat, j: nat)
    requires sub != [] && !IsWhitespace(sub[0]) && !IsWhitespace(sub[|sub| - 1])
    requires i <= j <= |s| && AllWhitespace(s[..i]) && AllWhitespace(s[j..])
    requires Contains(s, sub)
    ensures Contains(s[i..j], sub)
  {
    var k :| 0 <= k <= |s| - |sub| && OccursAt(s, sub, k);
    var n := |sub|;
    assert s[k] == sub[0] by { assert s[k..k + n][0] == s[k]; }
    assert s[k + n - 1] == sub[n - 1] by { assert s[k..k + n][n - 1] == s[k + n - 1]; }
    assert i <= k && k + n <= j;
    var t := s[i..j];
    assert t[k - i..k - i + n] == sub by {
      forall m | 0 <= m < n ensures t[k - i..k - i + n][m] == sub[m] {
        assert t[k - i + m] == s[k + m] == s[k..k + n][m];
      }
    }
    assert OccursAt(t, sub, k - i);
  }

  /** Every character of an occurrence of `sub` is a character of `s`. */
  lemma OccurrenceChars(s: string, sub: string, k: int, c: char)
    requires OccursAt(s, sub, k) && c in sub
    ensures c in s
  {
    var m :| 0 <= m < |sub| && sub[m] == c;
    assert s[k + m] == s[k..k + |sub|][m];
  }

  /** A string that lacks some character of `sub` does not contain `sub`. */
  lemma MissingCharNotContained(s: string, sub: string, c: char)
    requires c in sub && c !in s
    ensures !Contains(s, sub)
  {
    if Contains(s, sub) {
      var k :| 0 <= k <= |s| - |sub| && OccursAt(s, sub, k);
      OccurrenceChars(s, sub, k, c);
    }
  }
  /** A lower-case letter is never whitespace, so lower-casing and trimming commute. */
  lemma {:induction false} LowerTrimCommute(s: string)
    ensures AsciiLower(Trim(s)) == Trim(AsciiLower(s))
  {
    TrimStartLower(s);
    TrimEndLower(TrimStart(s));
  }

  /** Lower-casing never turns a character into whitespace or out of it. */
  lemma LowerKeepsWhitespace(c: char)
    ensures IsWhitespace(AsciiLowerChar(c)) == IsWhitespace(c)
  {
  }

  lemma TrimStartLower(s: string)
    ensures AsciiLower(TrimStart(s)) == TrimStart(AsciiLower(s))
  {
    var l := AsciiLower(s);
    var a := SkipLeading(s, 0);
    forall m | 0 <= m < |s| ensures IsWhitespace(l[m]) == IsWhitespace(s[m]) {
      LowerKeepsWhitespace(s[m]);
    }
    SkipLeadingAt(l, 0, a);
    assert AsciiLower(s[a..]) == l[a..];
  }

  lemma TrimEndLower(s: string)
    ensures AsciiLower(TrimEnd(s)) == TrimEnd(AsciiLower(s))
  {
    var l := AsciiLower(s);
    var b := SkipTrailing(s, |s|);
    forall m | 0 <= m < |s| ensures IsWhitespace(l[m]) == IsWhitespace(s[m]) {
      LowerKeepsWhitespace(s[m]);
    }
    SkipTrailingAt(l, |l|, b);
    assert AsciiLower(s[..b]) == l[..b];
  }

  /** Matching on `TrimLower` ignores the letter case of the value... */
  lemma TrimLowerIgnoresCase(s: string)
    ensures TrimLower(AsciiLower(s)) == TrimLower(s)
  {
    LowerTrimCommute(s);
    AsciiLowerIdempotent(Trim(s));
  }

  /** ...and any whitespace around it. */
  lemma TrimLowerIgnoresPadding(left: string, s: string, right: string)
    requires AllWhitespace(left) && AllWhitespace(right)
    ensures TrimLower(left + s + right) == TrimLower(s)
  {
    TrimIgnoresPadding(left, s, right);
  }

  /** A suffix of a suffix is a suffix. */
  lemma EndsWithTransitive(s: string, mid: string, suffix: string)
    requires EndsWith(s, mid) && EndsWith(mid, suffix)
    ensures EndsWith(s, suffix)
  {
    assert s[|s| - |suffix|..] == s[|s| - |mid|..][|mid| - |suffix|..];
  }
}
