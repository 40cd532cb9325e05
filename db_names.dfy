/** What every task manager does with the database names the workspace
    server lists: strip the environment suffix to get the name a scrub task
    is registered under, remember the real name behind it, and intersect
    the registered tasks with the names found. */
module DbNames {

  /** The `db_suffix` every task manager defaults to. */
  const DefaultSuffix := "_production"

  predicate EndsWith(s: string, suffix: string) {
    |suffix| <= |s| && s[|s| - |suffix|..] == suffix
  }

  /** `re.sub(suffix + '$', '', name)` for a suffix read literally: `$`
      matches at the end of the name and also just before a final newline,
      and at most one of the two places can follow a copy of the suffix. */
  function Normalise(name: string, suffix: string): string {
    if EndsWith(name, suffix) then name[..|name| - |suffix|]
    else if EndsWith(name, suffix + "\n") then name[..|name| - |suffix| - 1] + "\n"
    else name
  }

  /** A production database is known by its name without the suffix. */
  lemma NormaliseStrips(base: string, suffix: string)
    ensures Normalise(base + suffix, suffix) == base
  {
    assert (base + suffix)[|base|..] == suffix;
    assert (base + suffix)[..|base|] == base;
  }

  /** A name that does not end in the suffix is its own normal form. */
  lemma NormaliseKeepsOthers(name: string, suffix: string)
    requires !EndsWith(name, suffix) && !EndsWith(name, suffix + "\n")
    ensures Normalise(name, suffix) == name
  {
  }

  /** The suffix is stripped once, not repeatedly: normalising is not
      idempotent. */
  lemma NormaliseOnce()
    ensures Normalise("a_production_production", DefaultSuffix) == "a_production"
    ensures Normalise("a_production", DefaultSuffix) == "a"
  {
    assert EndsWith("a_production_production", DefaultSuffix);
    assert EndsWith("a_production", DefaultSuffix);
  }

  /** db_realnames after the loop of _discover_available_dbs: each listed
      name is entered under its normal form, the later entry overwriting
      the earlier. */
  function RealnamesOf(dbs: seq<string>, suffix: string): map<string, string>
    decreases |dbs|
  {
    if |dbs| == 0 then map[]
    else RealnamesOf(dbs[..|dbs| - 1], suffix)[Normalise(dbs[|dbs| - 1], suffix) := dbs[|dbs| - 1]]
  }

  /** The keys are exactly the normal forms of the listed names, and each
      maps to a listed name of that normal form. */
  lemma {:induction false} RealnamesKeys(dbs: seq<string>, suffix: string, k: string)
    ensures k in RealnamesOf(dbs, suffix) <==> exists i :: 0 <= i < |dbs| && Normalise(dbs[i], suffix) == k
    ensures k in RealnamesOf(dbs, suffix) ==>
      RealnamesOf(dbs, suffix)[k] in dbs && Normalise(RealnamesOf(dbs, suffix)[k], suffix) == k
    decreases |dbs|
  {
    if |dbs| > 0 {
      var init := dbs[..|dbs| - 1];
      RealnamesKeys(init, suffix, k);
      if exists i :: 0 <= i < |init| && Normalise(init[i], suffix) == k {
        var i :| 0 <= i < |init| && Normalise(init[i], suffix) == k;
        assert dbs[i] == init[i];
      }
      if exists i :: 0 <= i < |dbs| && Normalise(dbs[i], suffix) == k {
        var i :| 0 <= i < |dbs| && Normalise(dbs[i], suffix) == k;
        if i < |dbs| - 1 {
          assert init[i] == dbs[i];
        }
      }
      if k in RealnamesOf(init, suffix) {
        assert RealnamesOf(init, suffix)[k] in init;
      }
    }
  }

  /** Later wins: a name maps to the last listed name with that normal
      form. */
  lemma {:induction false} RealnamesLaterWins(dbs: seq<string>, suffix: string, i: nat)
    requires i < |dbs|
    requires forall j :: i < j < |dbs| ==> Normalise(dbs[j], suffix) != Normalise(dbs[i], suffix)
    ensures Normalise(dbs[i], suffix) in RealnamesOf(dbs, suffix)
    ensures RealnamesOf(dbs, suffix)[Normalise(dbs[i], suffix)] == dbs[i]
    decreases |dbs|
  {
    if i < |dbs| - 1 {
      var init := dbs[..|dbs| - 1];
      assert init[i] == dbs[i];
      RealnamesLaterWins(init, suffix, i);
    }
  }

  /** The loop of _discover_available_dbs, which enters one listed name at
      a time into db_realnames. */
  method FillRealnames(dbs: seq<string>, suffix: string) returns (m: map<string, string>)
    ensures m == RealnamesOf(dbs, suffix)
  {
    m := map[];
    for i := 0 to |dbs|
      invariant m == RealnamesOf(dbs[..i], suffix)
    {
      assert dbs[..i + 1][..i] == dbs[..i];
      m := m[Normalise(dbs[i], suffix) := dbs[i]];
    }
    assert dbs[..|dbs|] == dbs;
  }

  /** `list(set(scrub_functions) & set(db_realnames))`. Python leaves the
      order of the list open; here it is the catalogue's. */
  function ViableTasks(catalogue: seq<string>, realnames: map<string, string>): (r: seq<string>)
    ensures |r| <= |catalogue|
    ensures forall t :: t in r <==> t in catalogue && t in realnames
  {
    if |catalogue| == 0 then []
    else
      var rest := ViableTasks(catalogue[1..], realnames);
      assert forall t :: t in catalogue <==> t == catalogue[0] || t in catalogue[1..];
      if catalogue[0] in realnames then [catalogue[0]] + rest else rest
  }

  predicate Distinct(s: seq<string>) {
    forall i, j :: 0 <= i < j < |s| ==> s[i] != s[j]
  }

  /** Like the set it stands for, the list of viable tasks repeats no
      task. */
  lemma {:induction false} ViableTasksDistinct(catalogue: seq<string>, realnames: map<string, string>)
    requires Distinct(catalogue)
    ensures Distinct(ViableTasks(catalogue, realnames))
    decreases |catalogue|
  {
    if |catalogue| > 0 {
      ViableTasksDistinct(catalogue[1..], realnames);
      assert catalogue[0] !in catalogue[1..];
    }
  }
}
