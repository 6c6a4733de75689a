/** Order-preserving selection from sequences, shared by the queue and the packet mux. */
module Sequences {

  datatype Option<+T> = None | Some(value: T)

  /** `sub` is obtained from `s` by deleting elements. */
  ghost predicate Subsequence<T>(sub: seq<T>, s: seq<T>) {
    exists at: seq<nat> :: Selects(at, sub, s)
  }

  /** `at` lists, in increasing order, the indices of `s` that `sub` keeps. */
  ghost predicate Selects<T>(at: seq<nat>, sub: seq<T>, s: seq<T>) {
    && |at| == |sub|
    && (forall i :: 0 <= i < |at| ==> at[i] < |s| && s[at[i]] == sub[i])
    && (forall i, j :: 0 <= i < j < |at| ==> at[i] < at[j])
  }

  function Filter<T>(keep: T -> bool, s: seq<T>): seq<T> {
    if s == [] then []
    else
      var init, last := s[..|s| - 1], s[|s| - 1];
      if keep(last) then Filter(keep, init) + [last] else Filter(keep, init)
  }

  lemma FilterAppend<T>(keep: T -> bool, s: seq<T>, x: T)
    ensures Filter(keep, s + [x]) == if keep(x) then Filter(keep, s) + [x] else Filter(keep, s)
  {
    assert (s + [x])[..|s|] == s;
  }

  lemma SubsequenceAppend<T>(sub: seq<T>, s: seq<T>, x: T)
    requires Subsequence(sub, s)
    ensures Subsequence(sub, s + [x])
    ensures Subsequence(sub + [x], s + [x])
  {
    var at: seq<nat> :| Selects(at, sub, s);
    assert Selects(at, sub, s + [x]);
    assert Selects(at + [|s|], sub + [x], s + [x]);
  }
}
