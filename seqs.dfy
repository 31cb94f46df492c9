/**
 * Generic facts about columns (sequences): boolean-mask filtering, and the
 * fact that per-value counts over a complete, duplicate-free list of keys
 * add up to the number of rows.
 */
module Seqs {

  /** t can be obtained from s by deleting elements: the order of s is kept. */
  ghost predicate SubsequenceOf<T>(t: seq<T>, s: seq<T>)
    decreases |s|
  {
    if |t| == 0 then true
    else if |s| == 0 then false
    else if t[|t| - 1] == s[|s| - 1] then SubsequenceOf(t[..|t| - 1], s[..|s| - 1])
    else SubsequenceOf(t, s[..|s| - 1])
  }

  /**
   * Boolean-mask selection `s[mask]`: the elements for which keep holds,
   * in their original order and with their original multiplicity.
   */
  function Filter<T(==,!new)>(s: seq<T>, keep: T -> bool): (r: seq<T>)
    ensures SubsequenceOf(r, s)
    ensures forall x :: multiset(r)[x] == if keep(x) then multiset(s)[x] else 0
    ensures forall x :: x in r <==> x in s && keep(x)
    ensures |r| <= |s|
    ensures (forall i :: 0 <= i < |s| ==> keep(s[i])) ==> r == s
  {
    if |s| == 0 then []
    else
      var init, last := s[..|s| - 1], s[|s| - 1];
      assert s == init + [last];
      var rest := Filter(init, keep);
      if keep(last) then
        assert (rest + [last])[..|rest|] == rest;
        rest + [last]
      else
        rest
  }

  /** No key occurs twice. */
  predicate NoDuplicates<T(==)>(s: seq<T>)
  {
    forall i, j :: 0 <= i < j < |s| ==> s[i] != s[j]
  }

  /** The distinct values of s, each once (Series.unique). */
  function Distinct<T(==,!new)>(s: seq<T>): (r: seq<T>)
    ensures NoDuplicates(r)
    ensures forall x :: x in r <==> x in s
  {
    if |s| == 0 then []
    else
      var init, last := s[..|s| - 1], s[|s| - 1];
      assert s == init + [last];
      var d := Distinct(init);
      if last in d then d else d + [last]
  }

  /** The sum, over the given keys, of how often each key occurs in ms. */
  function TotalCount<T>(ms: multiset<T>, keys: seq<T>): nat
  {
    if |keys| == 0 then 0
    else TotalCount(ms, keys[..|keys| - 1]) + ms[keys[|keys| - 1]]
  }

  /** Adding one element x adds one to the total iff x is one of the keys. */
  lemma {:induction false} TotalCountAdd<T>(ms: multiset<T>, x: T, keys: seq<T>)
    requires NoDuplicates(keys)
    ensures TotalCount(ms + multiset{x}, keys) == TotalCount(ms, keys) + (if x in keys then 1 else 0)
  {
    if |keys| > 0 {
      var init, last := keys[..|keys| - 1], keys[|keys| - 1];
      assert keys == init + [last];
      TotalCountAdd(ms, x, init);
      assert x in keys <==> x in init || x == last;
      assert x == last ==> x !in init;
    }
  }

  /**
   * Counts of every value, taken over a duplicate-free list of keys that
   * covers every value of s, add up to |s|.
   */
  lemma {:induction false} CountsSumToLength<T>(s: seq<T>, keys: seq<T>)
    requires NoDuplicates(keys)
    requires forall x :: x in s ==> x in keys
    ensures TotalCount(multiset(s), keys) == |s|
  {
    if |s| == 0 {
      TotalCountEmpty(keys);
    } else {
      var init, last := s[..|s| - 1], s[|s| - 1];
      assert s == init + [last];
      CountsSumToLength(init, keys);
      TotalCountAdd(multiset(init), last, keys);
    }
  }

  lemma {:induction false} TotalCountEmpty<T>(keys: seq<T>)
    ensures TotalCount(multiset{}, keys) == 0
  {
    if |keys| > 0 {
      TotalCountEmpty(keys[..|keys| - 1]);
    }
  }
}
