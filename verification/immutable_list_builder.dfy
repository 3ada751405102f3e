/** The persistent list builder: a persistent builder whose replay starts
    from the empty list and applies list operators. Its generators return
    `ListOp.Add` and `ListOp.AddAll`. */
module ImmutableListBuilder {
  import opened Folding
  import ListOp
  import IB = ImmutableBuilder

  type Builder<!E, R, P> = IB.Builder<seq<E>, seq<E> -> seq<E>, R, P>

  /** The initial list. */
  function EmptyList<E>(): seq<E> { [] }

  /** The root constructor, wired as intended: `build` goes through the root
      constructor and `done` through the parent constructor. */
  function NewRoot<E, R, P>(rootMake: seq<E> -> R, parentMake: seq<E> -> P): (b: Builder<E, R, P>)
    ensures IB.Deltas(b.head) == []
    ensures IB.Build(b) == rootMake([])
    ensures IB.Done(b) == parentMake([])
  {
    IB.NewRoot(EmptyList, ListOp.ApplyOp, parentMake, rootMake)
  }

  /** The root constructor as the source writes it: the root constructor
      lands in the generic builder's parent slot and the parent constructor
      in its root slot. With distinct root and parent result types that
      order does not compile; this member shows what it would do if both
      were one type `X`. */
  function NewRootAsWritten<E, X>(rootMake: seq<E> -> X, parentMake: seq<E> -> X): (b: Builder<E, X, X>)
    ensures IB.Deltas(b.head) == []
    ensures IB.Build(b) == parentMake([])
    ensures IB.Done(b) == rootMake([])
  {
    IB.NewRoot(EmptyList, ListOp.ApplyOp, rootMake, parentMake)
  }

  /** Posting one `genAdd` per element to a root: `build` and `done` see
      the elements in posting order. */
  lemma AddsInPostingOrder<E(!new), R, P>(rootMake: seq<E> -> R, parentMake: seq<E> -> P, es: seq<E>)
    ensures IB.Build(IB.DeriveAll(NewRoot(rootMake, parentMake), ListOp.Adds(es))) == rootMake(es)
    ensures IB.Done(IB.DeriveAll(NewRoot(rootMake, parentMake), ListOp.Adds(es))) == parentMake(es)
  {
    var root := NewRoot(rootMake, parentMake);
    assert IB.Replay(IB.DeriveAll(root, ListOp.Adds(es))) == ListOp.Run([], ListOp.Adds(es));
    ListOp.AddsAppendInOrder([], es);
    assert [] + es == es;
  }

  /** A clear in the chain discards everything posted before it: `build`
      sees only what was added after the last clear. */
  lemma ClearInChain<E(!new), R, P>(rootMake: seq<E> -> R, parentMake: seq<E> -> P,
                                    before: seq<seq<E> -> seq<E>>, es: seq<E>)
    ensures IB.Build(IB.DeriveAll(NewRoot(rootMake, parentMake), before + [ListOp.Clear()] + ListOp.Adds(es))) == rootMake(es)
  {
    var root := NewRoot(rootMake, parentMake);
    var ops := before + [ListOp.Clear()] + ListOp.Adds(es);
    assert IB.Replay(IB.DeriveAll(root, ops)) == ListOp.Run([], ops);
    ListOp.ClearDiscardsEarlier([], [], before, ListOp.Adds(es));
    var c: seq<seq<E> -> seq<E>> := [ListOp.Clear<E>()];
    FoldAppend([], c, ListOp.Adds(es), ListOp.ApplyOp<E>);
    FoldSingle([], ListOp.Clear<E>(), ListOp.ApplyOp<E>);
    ListOp.AddsAppendInOrder([], es);
    assert [] + es == es;
  }

  /** As written, `build` goes through the parent constructor. */
  lemma AsWrittenBuildUsesParent<E(!new), X>(rootMake: seq<E> -> X, parentMake: seq<E> -> X, es: seq<E>)
    ensures IB.Build(IB.DeriveAll(NewRootAsWritten(rootMake, parentMake), ListOp.Adds(es))) == parentMake(es)
  {
    var root := NewRootAsWritten(rootMake, parentMake);
    assert IB.Replay(IB.DeriveAll(root, ListOp.Adds(es))) == ListOp.Run([], ListOp.Adds(es));
    ListOp.AddsAppendInOrder([], es);
    assert [] + es == es;
  }

  /** Constructors that tell the slots apart. */
  function Length(l: seq<int>): int { |l| }

  function AlwaysZero(l: seq<int>): int { 0 }

  /** The discrepancy on a concrete chain: after adding 5, `build` as
      written answers 0 where the root constructor gives 1. */
  lemma AsWrittenBuildDiffers()
    ensures IB.Build(IB.DeriveAll(NewRootAsWritten(Length, AlwaysZero), ListOp.Adds([5]))) == 0
    ensures IB.Build(IB.DeriveAll(NewRoot(Length, AlwaysZero), ListOp.Adds([5]))) == 1
  {
    AsWrittenBuildUsesParent(Length, AlwaysZero, [5]);
    AddsInPostingOrder(Length, AlwaysZero, [5]);
  }
}
