/** Stock notions shared by the models. */
module Sequences {

  datatype Option<+T> = None | Some(value: T)

  /** No element occurs twice. */
  predicate NoDup<T(==)>(s: seq<T>) {
    forall i, j :: 0 <= i < j < |s| ==> s[i] != s[j]
  }

  /** Of values set and cleared in turn, entry `k` decides what is there before entry `n`: it
      sets one, and from then on none is set or cleared. */
  ghost predicate Decides<T>(sets: seq<Option<T>>, clears: seq<bool>, k: nat, n: nat)
    requires n <= |sets| == |clears|
  {
    k < n && sets[k].Some? && forall l :: k <= l < n ==> !clears[l] && (l == k || sets[l].None?)
  }

  lemma {:induction false} LastCounts<T>(values: seq<Option<T>>, sets: seq<Option<T>>, clears: seq<bool>, n: nat, x: T)
    requires n <= |sets| == |clears| && |values| == |sets| + 1 && values[0] == None
    requires forall k :: 0 <= k < |sets| ==>
      values[k + 1] == if clears[k] then None else if sets[k].Some? then sets[k] else values[k]
    ensures values[n] == Some(x) <==> exists k: nat :: Decides(sets, clears, k, n) && sets[k] == Some(x)
  {
    if n > 0 {
      LastCounts(values, sets, clears, n - 1, x);
      if k: nat :| Decides(sets, clears, k, n - 1) && sets[k] == Some(x) {
        assert !clears[n - 1] && sets[n - 1].None? ==> Decides(sets, clears, k, n);
      }
      if !clears[n - 1] && sets[n - 1] == Some(x) {
        assert Decides(sets, clears, n - 1, n);
      }
      if k: nat :| Decides(sets, clears, k, n) && sets[k] == Some(x) && k < n - 1 {
        assert Decides(sets, clears, k, n - 1);
      }
    }
  }
}
