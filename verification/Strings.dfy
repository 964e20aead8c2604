/** The parts of Go's strings package the other modules need. */
module Strings {
  import opened Common

  /** The first position of `c` at or after `from`, or the length. */
  function IndexFrom(s: string, c: char, from: nat): (n: nat)
    requires from <= |s|
    ensures from <= n <= |s| && forall k | from <= k < n :: s[k] != c
    ensures n < |s| ==> s[n] == c
    decreases |s| - from
  {
    if from == |s| || s[from] == c then from else IndexFrom(s, c, from + 1)
  }

  function IndexOf(s: string, c: char): (n: nat)
    ensures n <= |s| && forall k | 0 <= k < n :: s[k] != c
    ensures n < |s| ==> s[n] == c
  {
    IndexFrom(s, c, 0)
  }

  /** The last position of `c`, if there is one. */
  function LastIndexOf(s: string, c: char): (n: Option<nat>)
    ensures n.None? ==> forall k | 0 <= k < |s| :: s[k] != c
    ensures n.Some? ==> n.value < |s| && s[n.value] == c && forall k | n.value < k < |s| :: s[k] != c
  {
    if s == [] then None
    else if s[|s| - 1] == c then Some(|s| - 1)
    else LastIndexOf(s[..|s| - 1], c)
  }

  predicate Free(s: string, c: char) { forall k | 0 <= k < |s| :: s[k] != c }

  predicate Contains(s: string, part: string) {
    part == [] || (s != [] && (part <= s || Contains(s[1..], part)))
  }

  lemma {:induction false} ContainsIff(s: string, part: string)
    ensures Contains(s, part) <==> exists k :: 0 <= k <= |s| && part <= s[k..]
  {
    if part == [] || part <= s {
      assert part <= s[0..];
    } else if s != [] {
      ContainsIff(s[1..], part);
      if k :| 0 <= k <= |s[1..]| && part <= s[1..][k..] {
        assert s[1..][k..] == s[k + 1..];
      }
      if k :| 0 <= k <= |s| && part <= s[k..] {
        assert s[k..] == s[1..][k - 1..];
      }
    }
  }
}
