/** The persistent map builder: a persistent builder whose state is a
    fresh map kernel replayed through the map mutator, and whose two
    constructors receive the kernel's merge. Its delta generators are
    those of `MapGenerators` and the single-key delta constructors. */
module ImmutableMapBuilder {
  import opened Wrappers
  import opened Folding
  import MK = MapKernel
  import MD = MapDelta
  import MapHelper
  import MS = MapSemantics
  import IB = ImmutableBuilder

  type Builder<!K, !V, R, P> = IB.Builder<MK.Kernel<K, V>, MD.Delta<K, V>, R, P>

  /** The root constructor, wired as intended: `build` goes through the
      root constructor and `done` through the parent constructor. */
  function NewRoot<K(!new), V, R, P>(rootMake: map<K, V> -> R, parentMake: map<K, V> -> P): (b: Builder<K, V, R, P>)
    ensures IB.Deltas(b.head) == []
    ensures IB.Build(b) == rootMake(map[])
    ensures IB.Done(b) == parentMake(map[])
  {
    MK.FreshIsEmpty<K, V>(MK.Fresh());
    IB.NewRoot(MK.Fresh, MapHelper.Mutate, MapHelper.AdaptConstructor(parentMake), MapHelper.AdaptConstructor(rootMake))
  }

  /** The root constructor as the source writes it: the adapted root
      constructor lands in the generic builder's parent-constructor slot
      and the parent constructor in its root slot. With distinct root and
      parent result types that order does not compile; this member shows
      what it would do if both were one type `X`. */
  function NewRootAsWritten<K(!new), V, X>(rootMake: map<K, V> -> X, parentMake: map<K, V> -> X): (b: Builder<K, V, X, X>)
    ensures IB.Deltas(b.head) == []
    ensures IB.Build(b) == parentMake(map[])
    ensures IB.Done(b) == rootMake(map[])
  {
    MK.FreshIsEmpty<K, V>(MK.Fresh());
    IB.NewRoot(MK.Fresh, MapHelper.Mutate, MapHelper.AdaptConstructor(rootMake), MapHelper.AdaptConstructor(parentMake))
  }

  /** Whatever chain of deltas is posted, `build` hands the root
      constructor, and `done` the parent constructor, the merge of a fresh
      kernel after replaying the chain oldest delta first; key by key that
      is the reference merge (`MapSemantics.ReplayMatchesReference`). */
  lemma {:induction false} ResultsFollowReference<K(!new), V, R, P>(rootMake: map<K, V> -> R, parentMake: map<K, V> -> P,
                                                                    ds: seq<MD.Delta<K, V>>)
    ensures IB.Build(IB.DeriveAll(NewRoot(rootMake, parentMake), ds)) == rootMake(MS.MergeAfter(ds))
    ensures IB.Done(IB.DeriveAll(NewRoot(rootMake, parentMake), ds)) == parentMake(MS.MergeAfter(ds))
  {
    var root := NewRoot(rootMake, parentMake);
    var b := IB.DeriveAll(root, ds);
    assert IB.Replay(root) == MK.Fresh();
    assert IB.Replay(b) == MS.Replay(MK.Fresh(), ds);
    MapHelper.AdaptedConstructorUsesMerge(rootMake, IB.Replay(b));
    MapHelper.AdaptedConstructorUsesMerge(parentMake, IB.Replay(b));
  }

  /** As written, `build` goes through the parent constructor for every
      chain. */
  lemma {:induction false} AsWrittenBuildUsesParent<K(!new), V, X>(rootMake: map<K, V> -> X, parentMake: map<K, V> -> X,
                                                                   ds: seq<MD.Delta<K, V>>)
    ensures IB.Build(IB.DeriveAll(NewRootAsWritten(rootMake, parentMake), ds)) == parentMake(MS.MergeAfter(ds))
    ensures IB.Done(IB.DeriveAll(NewRootAsWritten(rootMake, parentMake), ds)) == rootMake(MS.MergeAfter(ds))
  {
    var root := NewRootAsWritten(rootMake, parentMake);
    var b := IB.DeriveAll(root, ds);
    assert IB.Replay(root) == MK.Fresh();
    assert IB.Replay(b) == MS.Replay(MK.Fresh(), ds);
    MapHelper.AdaptedConstructorUsesMerge(rootMake, IB.Replay(b));
    MapHelper.AdaptedConstructorUsesMerge(parentMake, IB.Replay(b));
  }

  /** Two constructors that tell the slots apart: the root one counts keys,
      the parent one always answers zero. */
  function CountKeys(m: map<int, int>): int { |m| }

  function AlwaysZero(m: map<int, int>): int { 0 }

  /** The discrepancy on a concrete chain: after one value, `build` as
      written answers 0 where the root constructor gives 1, while the
      corrected wiring gives 1. */
  lemma AsWrittenBuildDiffers()
    ensures var ds := [MD.Values(map[7 := 1])];
            IB.Build(IB.DeriveAll(NewRootAsWritten(CountKeys, AlwaysZero), ds)) == 0
            && IB.Build(IB.DeriveAll(NewRoot(CountKeys, AlwaysZero), ds)) == 1
            && CountKeys(MS.MergeAfter(ds)) == 1
  {
    var ds := [MD.Values(map[7 := 1])];
    OneValueMerge();
    AsWrittenBuildUsesParent(CountKeys, AlwaysZero, ds);
    ResultsFollowReference(CountKeys, AlwaysZero, ds);
  }

  /** The chain of the example merges to its one value. */
  lemma OneValueMerge()
    ensures MS.MergeAfter([MD.Values(map[7 := 1])]) == map[7 := 1]
    ensures |map[7 := 1]| == 1
  {
    var f: MK.Kernel<int, int> := MK.Fresh();
    var m := map[7 := 1];
    FoldSingle(f, MD.Values(m), MapHelper.Mutate);
    var k := MK.Values(f, m);
    assert k == MK.Kernel(map[], m, {7}) by {
      assert map[] + m == m;
    }
    assert MK.Merge(k) == m by {
      assert (map[] - {7}) + m == m;
    }
  }

  /** Persistence at the map level: extending a builder never changes the
      map its own `build` and `done` see. */
  lemma {:induction false} ExtendingKeepsResults<K(!new), V, R, P>(rootMake: map<K, V> -> R, parentMake: map<K, V> -> P,
                                                                   ds: seq<MD.Delta<K, V>>, more: seq<MD.Delta<K, V>>)
    ensures var b := IB.DeriveAll(NewRoot(rootMake, parentMake), ds);
            IB.Deltas(IB.DeriveAll(b, more).head)[..|ds|] == ds
            && IB.Build(b) == rootMake(MS.MergeAfter(ds))
            && IB.Build(IB.DeriveAll(b, more)) == rootMake(MS.MergeAfter(ds + more))
            && IB.Done(b) == parentMake(MS.MergeAfter(ds))
            && IB.Done(IB.DeriveAll(b, more)) == parentMake(MS.MergeAfter(ds + more))
  {
    var root := NewRoot(rootMake, parentMake);
    var b := IB.DeriveAll(root, ds);
    IB.DescendantSharesPrefix(b, more);
    ResultsFollowReference(rootMake, parentMake, ds);
    FoldAppend(MK.Fresh(), ds, more, MapHelper.Mutate);
    MapHelper.AdaptedConstructorUsesMerge(rootMake, IB.Replay(IB.DeriveAll(b, more)));
    MapHelper.AdaptedConstructorUsesMerge(parentMake, IB.Replay(IB.DeriveAll(b, more)));
  }
}
