/** The generic mutable builder: one owned state that every posted delta
    replaces with `mutator(state, delta)`, and a read-only `merge` that hands
    the current state to a constructor. Only the sequential semantics are
    modelled. */
module MutableBuilder {
  import opened Folding
  import opened TextExample

  /** The builder's one mutable field together with its fixed collaborators. */
  datatype Builder<!T, !D, P> = Builder(state: T, mutator: (T, D) -> T, construct: T -> P)

  /** The constructor: the state starts as exactly one initializer value. */
  function New<T, D, P>(initializer: () -> T, mutator: (T, D) -> T, construct: T -> P): (b: Builder<T, D, P>)
    ensures b.state == initializer()
    ensures b.mutator == mutator && b.construct == construct
  {
    Builder(initializer(), mutator, construct)
  }

  /** `apply(delta)`: the state becomes `mutator(state, delta)`; nothing else
      changes. */
  function Apply<T, D, P>(b: Builder<T, D, P>, delta: D): (r: Builder<T, D, P>)
    ensures r.state == b.mutator(b.state, delta)
    ensures r.mutator == b.mutator && r.construct == b.construct
  {
    b.(state := b.mutator(b.state, delta))
  }

  /** `merge()`: the constructor applied to the current state. Being a
      function of the builder, it changes nothing, and two merges with no
      apply in between are equal. */
  function Merge<T, D, P>(b: Builder<T, D, P>): P
  {
    b.construct(b.state)
  }

  /** Posts each delta of `ds` in order. */
  function ApplyAll<T, D, P>(b: Builder<T, D, P>, ds: seq<D>): (r: Builder<T, D, P>)
    ensures r.state == FoldSeq(b.state, ds, b.mutator)
    ensures r.mutator == b.mutator && r.construct == b.construct
    decreases |ds|
  {
    if |ds| == 0 then b else Apply(ApplyAll(b, ds[..|ds| - 1]), ds[|ds| - 1])
  }

  /** A sequence of applies is a left fold in posting order from the
      initializer's value, and merge sees exactly that fold. */
  lemma PostingIsLeftFold<T, D, P>(initializer: () -> T, mutator: (T, D) -> T, construct: T -> P, ds: seq<D>)
    ensures Merge(ApplyAll(New(initializer, mutator, construct), ds)) == construct(FoldSeq(initializer(), ds, mutator))
  {
  }

  /** Merging never clears state: applies made after a merge build on the
      state the merge observed. */
  lemma {:induction false} AppliesAfterMergeContinue<T, D, P>(b: Builder<T, D, P>, before: seq<D>, after: seq<D>)
    ensures var mid := ApplyAll(b, before);
            Merge(mid) == b.construct(FoldSeq(b.state, before, b.mutator))
            && ApplyAll(b, before + after).state == FoldSeq(mid.state, after, b.mutator)
  {
    FoldAppend(b.state, before, after, b.mutator);
  }

  /** Posting "Hi" then " World" to a builder over the empty string merges
      to "Hi World". */
  lemma AppendsInPostingOrder(construct: string -> string)
    ensures Merge(Apply(Apply(New(EmptyText, AppendText, construct), "Hi"), " World")) == construct("Hi World")
  {
    assert AppendText(AppendText(EmptyText(), "Hi"), " World") == "Hi World";
  }
}
