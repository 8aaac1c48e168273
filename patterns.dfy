/** The two regular-expression operations the account validators use, over
    a single character class: `re.fullmatch(r"[...]+", s)` and
    `re.search(r"[...]", s)`. */
module Patterns {
  import opened Wrappers

  /** `re.fullmatch(r"[cls]+", s)`, one repetition at a time: a first
      character of the class, then either the end or another match. */
  predicate FullMatchPlus(s: string, cls: char -> bool)
  {
    s != [] && cls(s[0]) && (|s| == 1 || FullMatchPlus(s[1..], cls))
  }

  /** `[cls]+` matches the whole string exactly when the string is non-empty
      and every character is in the class. */
  lemma {:induction false} FullMatchPlusAll(s: string, cls: char -> bool)
    ensures FullMatchPlus(s, cls) <==> s != [] && forall i :: 0 <= i < |s| ==> cls(s[i])
  {
    if |s| > 1 {
      FullMatchPlusAll(s[1..], cls);
      assert forall i :: 1 <= i < |s| ==> s[i] == s[1..][i - 1];
    }
  }

  /** `re.search(r"[cls]", s)`: the position of the leftmost match. */
  function Search(s: string, cls: char -> bool): (r: Option<nat>)
    ensures r.Some? ==> r.value < |s| && cls(s[r.value]) && forall j :: 0 <= j < r.value ==> !cls(s[j])
    ensures r.None? <==> forall i :: 0 <= i < |s| ==> !cls(s[i])
  {
    if s == [] then None
    else if cls(s[0]) then Some(0)
    else
      var r := Search(s[1..], cls);
      assert forall i :: 1 <= i < |s| ==> s[i] == s[1..][i - 1];
      if r.Some? then Some(r.value + 1) else None
  }
}
