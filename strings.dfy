/**
 * The JavaScript string tests the redirect classifier is built from:
 * `indexOf`, `includes` and `endsWith`, each characterised by where the
 * pattern occurs.
 */
module Strings {
  import opened Wrappers

  /** `pat` occurs in `s` starting at index `i`. */
  predicate OccursAt(s: string, pat: string, i: nat) {
    i + |pat| <= |s| && s[i..i + |pat|] == pat
  }

  /** `i` is the first occurrence of `pat` in `s` at or after `from`. */
  ghost predicate FirstFrom(s: string, pat: string, from: nat, i: nat) {
    && from <= i
    && OccursAt(s, pat, i)
    && forall j: nat :: from <= j < i ==> !OccursAt(s, pat, j)
  }

  /** `pat` does not occur in `s` at or after `from`. */
  ghost predicate NoneFrom(s: string, pat: string, from: nat) {
    forall j: nat :: from <= j ==> !OccursAt(s, pat, j)
  }

  /** `s.indexOf(pat, from)`, with `None` for -1. */
  function IndexOf(s: string, pat: string, from: nat): (r: Option<nat>)
    ensures r.Some? ==> FirstFrom(s, pat, from, r.value)
    ensures r.None? ==> NoneFrom(s, pat, from)
    decreases |s| - from
  {
    if from + |pat| > |s| then None
    else if s[from..from + |pat|] == pat then Some(from)
    else IndexOf(s, pat, from + 1)
  }

  /** `s.includes(pat)`. */
  function Contains(s: string, pat: string): (r: bool)
    ensures r <==> exists i: nat :: OccursAt(s, pat, i)
  {
    IndexOf(s, pat, 0).Some?
  }

  /** `s.endsWith(suffix)`. */
  function EndsWith(s: string, suffix: string): (r: bool)
    ensures r <==> exists prefix: string :: s == prefix + suffix
  {
    if |suffix| <= |s| && s[|s| - |suffix|..] == suffix then
      assert s == s[..|s| - |suffix|] + suffix;
      true
    else
      assert forall prefix: string :: s == prefix + suffix ==> s[|prefix|..] == suffix;
      false
  }

  /** `pats.some(p => s.includes(p))`. */
  function ContainsAny(s: string, pats: seq<string>): (r: bool)
    ensures r <==> exists k: nat, i: nat :: k < |pats| && OccursAt(s, pats[k], i)
  {
    if |pats| == 0 then false
    else Contains(s, pats[0]) || ContainsAny(s, pats[1..])
  }
}
