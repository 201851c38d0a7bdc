/**
 * The environment snapshot: an ordered list of (key, value) pairs, never a
 * map, because duplicate keys are resolved by position. The crate uses two
 * lookups over it: a forward `find_map` (first occurrence) and a
 * `rev().find_map` (last occurrence).
 */
module Environment {
  import opened Wrappers

  type Vars = seq<(string, string)>

  predicate HasKey(vars: Vars, key: string) {
    exists i :: 0 <= i < |vars| && vars[i].0 == key
  }

  /** `vars.iter().find_map(|(k, v)| (k == key).then_some(v))`. */
  function FirstValue(vars: Vars, key: string): (r: Option<string>)
    ensures r.None? <==> !HasKey(vars, key)
    ensures r.Some? ==> exists i :: 0 <= i < |vars| && vars[i] == (key, r.value)
                                    && forall j :: 0 <= j < i ==> vars[j].0 != key
  {
    if vars == [] then None
    else if vars[0].0 == key then Some(vars[0].1)
    else FirstValue(vars[1..], key)
  }

  /** `vars.iter().rev().find_map(|(k, v)| (k == key).then_some(v))`. */
  function LastValue(vars: Vars, key: string): (r: Option<string>)
    ensures r.None? <==> !HasKey(vars, key)
    ensures r.Some? ==> exists i :: 0 <= i < |vars| && vars[i] == (key, r.value)
                                    && forall j :: i < j < |vars| ==> vars[j].0 != key
  {
    if vars == [] then None
    else if vars[|vars| - 1].0 == key then Some(vars[|vars| - 1].1)
    else LastValue(vars[..|vars| - 1], key)
  }

  /** Entries before the first occurrence of `key` never change the first-occurrence lookup,
      and nothing after it does either. */
  lemma {:induction false} FirstOccurrenceWins(before: Vars, key: string, value: string, after: Vars)
    requires !HasKey(before, key)
    ensures FirstValue(before + [(key, value)] + after, key) == Some(value)
  {
    if before != [] {
      assert (before + [(key, value)] + after)[1..] == before[1..] + [(key, value)] + after;
      assert before[0].0 != key;
      FirstOccurrenceWins(before[1..], key, value, after);
    }
  }

  /** Entries after the last occurrence of `key` never change the last-occurrence lookup,
      and nothing before it does either. */
  lemma {:induction false} LastOccurrenceWins(before: Vars, key: string, value: string, after: Vars)
    requires !HasKey(after, key)
    ensures LastValue(before + [(key, value)] + after, key) == Some(value)
  {
    if after != [] {
      var all := before + [(key, value)] + after;
      assert all[..|all| - 1] == before + [(key, value)] + after[..|after| - 1];
      assert after[|after| - 1].0 != key;
      LastOccurrenceWins(before, key, value, after[..|after| - 1]);
    }
  }

  /** With a single occurrence of `key`, both lookups agree. */
  lemma SingleOccurrence(vars: Vars, key: string, i: nat)
    requires i < |vars| && vars[i].0 == key
    requires forall j :: 0 <= j < |vars| && j != i ==> vars[j].0 != key
    ensures FirstValue(vars, key) == LastValue(vars, key) == Some(vars[i].1)
  {
    assert vars == vars[..i] + [(key, vars[i].1)] + vars[i + 1..];
    FirstOccurrenceWins(vars[..i], key, vars[i].1, vars[i + 1..]);
    LastOccurrenceWins(vars[..i], key, vars[i].1, vars[i + 1..]);
  }

  /** Appending an entry makes it the last occurrence of its own key and leaves every
      other key's last-occurrence lookup as it was. */
  lemma LastValueAppend(vars: Vars, key: string, value: string, other: string)
    ensures LastValue(vars + [(key, value)], key) == Some(value)
    ensures other != key ==> LastValue(vars + [(key, value)], other) == LastValue(vars, other)
  {
    var all := vars + [(key, value)];
    assert all[..|all| - 1] == vars;
  }
}
