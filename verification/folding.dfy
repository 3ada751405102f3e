/** Left folds of a delta sequence over a state: the replay both builders
    perform, oldest delta first. */
module Folding {

  /** Applies `ds` to `init` in sequence order. Defined on the last delta so
      that it mirrors a fold that recurses to the oldest delta and applies
      deltas on the way back. */
  function FoldSeq<T, D>(init: T, ds: seq<D>, mutator: (T, D) -> T): T
    decreases |ds|
  {
    if |ds| == 0 then init
    else mutator(FoldSeq(init, ds[..|ds| - 1], mutator), ds[|ds| - 1])
  }

  /** Folding a concatenation is folding the second part over the result of
      the first: work done so far is never redone or discarded. */
  lemma {:induction false} FoldAppend<T, D>(init: T, xs: seq<D>, ys: seq<D>, mutator: (T, D) -> T)
    ensures FoldSeq(init, xs + ys, mutator) == FoldSeq(FoldSeq(init, xs, mutator), ys, mutator)
    decreases |ys|
  {
    if |ys| == 0 {
      assert xs + ys == xs;
    } else {
      var ys' := ys[..|ys| - 1];
      assert (xs + ys)[..|xs + ys| - 1] == xs + ys';
      assert (xs + ys)[|xs + ys| - 1] == ys[|ys| - 1];
      FoldAppend(init, xs, ys', mutator);
    }
  }

  /** Folding a single delta is one mutator call. */
  lemma FoldSingle<T, D>(init: T, d: D, mutator: (T, D) -> T)
    ensures FoldSeq(init, [d], mutator) == mutator(init, d)
  {
    assert [d][..0] == [];
  }
}
