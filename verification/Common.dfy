/** Small definitions shared by the other modules. */
module Common {
  /** A value that may be absent: a NULL column, a missing map entry, a nil pointer. */
  datatype Option<+T> = None | Some(value: T)

  /** The value of a key, if it has one. */
  function Find<K, V>(m: map<K, V>, k: K): Option<V> {
    if k in m then Some(m[k]) else None
  }

  /** No element occurs at two positions. */
  ghost predicate Distinct<T>(s: seq<T>) {
    forall i, j :: 0 <= i < j < |s| ==> s[i] != s[j]
  }

  /** A sequence without repetitions fits into the set of its elements. */
  lemma {:induction false} DistinctFits<T>(s: seq<T>, universe: set<T>)
    requires Distinct(s)
    requires forall i :: 0 <= i < |s| ==> s[i] in universe
    ensures |s| <= |universe|
  {
    if s != [] {
      var rest := s[..|s| - 1];
      DistinctFits(rest, universe - {s[|s| - 1]});
    }
  }

  lemma DistinctConcat<T>(a: seq<T>, b: seq<T>)
    requires Distinct(a) && Distinct(b)
    requires forall x :: x in a ==> x !in b
    ensures Distinct(a + b)
  {
    var s := a + b;
    forall i, j | 0 <= i < j < |s| ensures s[i] != s[j] {
      assert i < |a| ==> s[i] == a[i] && s[i] in a;
      assert j >= |a| ==> s[j] == b[j - |a|] && s[j] in b;
    }
  }

  /** A further position at the end of an ascending list. */
  lemma OnePositionMore(at: seq<nat>, n: nat)
    requires forall k, m :: 0 <= k < m < |at| ==> at[k] < at[m]
    requires forall i :: i in at ==> i < n
    ensures forall k, m :: 0 <= k < m < |at + [n]| ==> (at + [n])[k] < (at + [n])[m]
    ensures forall i :: i in at + [n] <==> i in at || i == n
  {
    forall k | 0 <= k < |at| ensures at[k] < n {
      assert at[k] in at;
    }
  }

  /** The positions below n at which p holds, in order. */
  function Positions(n: nat, p: nat -> bool): (at: seq<nat>)
    ensures forall k, m :: 0 <= k < m < |at| ==> at[k] < at[m]
    ensures forall i: nat :: i in at <==> i < n && p(i)
  {
    if n == 0 then []
    else
      var front := Positions(n - 1, p);
      OnePositionMore(front, n - 1);
      if p(n - 1) then front + [n - 1] else front
  }
}
