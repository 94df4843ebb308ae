/**
 * `Array.prototype.find` by uid, as the admin pages use it: the first
 * element whose key equals the uid looked for.
 */
module Lookup {
  import opened Types

  /** Position `i` holds the first element of `xs` whose key is `k`. */
  predicate FirstMatch<T>(xs: seq<T>, key: T -> string, k: string, i: int) {
    && 0 <= i < |xs|
    && key(xs[i]) == k
    && forall j :: 0 <= j < i ==> key(xs[j]) != k
  }

  /** The position of the first element whose key is `k`, if any. */
  function Find<T>(xs: seq<T>, key: T -> string, k: string): (r: Option<nat>)
    ensures r.Some? ==> FirstMatch(xs, key, k, r.value)
    ensures r.None? <==> forall i :: 0 <= i < |xs| ==> key(xs[i]) != k
    decreases |xs|
  {
    if xs == [] then None
    else if key(xs[0]) == k then Some(0)
    else
      match Find(xs[1..], key, k)
      case None => None
      case Some(i) =>
        assert forall j :: 1 <= j <= i ==> xs[j] == xs[1..][j - 1];
        Some(i + 1)
  }

  /** There is only one first match. */
  lemma FirstMatchUnique<T>(xs: seq<T>, key: T -> string, k: string, i: int, j: int)
    requires FirstMatch(xs, key, k, i) && FirstMatch(xs, key, k, j)
    ensures i == j
  {
    assert !(i < j) && !(j < i);
  }

  /** Whether some element has key `k` does not depend on the order of `xs`. */
  lemma FoundOrderFree<T>(xs: seq<T>, ys: seq<T>, key: T -> string, k: string)
    requires multiset(xs) == multiset(ys)
    ensures Find(xs, key, k).None? <==> Find(ys, key, k).None?
  {
    forall i | 0 <= i < |xs| && key(xs[i]) == k
      ensures Find(ys, key, k).Some?
    {
      assert xs[i] in multiset(ys);
      var j :| 0 <= j < |ys| && ys[j] == xs[i];
    }
    forall j | 0 <= j < |ys| && key(ys[j]) == k
      ensures Find(xs, key, k).Some?
    {
      assert ys[j] in multiset(xs);
      var i :| 0 <= i < |xs| && xs[i] == ys[j];
    }
  }
}
