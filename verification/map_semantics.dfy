/** What a sequence of map deltas means, key by key, stated independently
    of the kernel: a key's default is the latest one registered since the
    last clear; its explicit status is decided by the latest value, remove,
    applicable update, reset or clear that names it; an explicit status
    wins over the default. The kernel's replay agrees with this reading,
    and the ordering rules of the kernel's contract follow from it. */
module MapSemantics {
  import opened Wrappers
  import opened Folding
  import MK = MapKernel
  import MD = MapDelta
  import MapHelper

  /** Replays deltas, oldest first, through the builders' mutator. */
  function Replay<K(!new), V>(k: MK.Kernel<K, V>, ops: seq<MD.Delta<K, V>>): MK.Kernel<K, V>
  {
    FoldSeq(k, ops, MapHelper.Mutate)
  }

  /** The merge a fresh kernel yields after `ops`. */
  function MergeAfter<K(!new), V>(ops: seq<MD.Delta<K, V>>): map<K, V>
  {
    MK.Merge(Replay(MK.Fresh(), ops))
  }

  /** A key's explicit status: never set since its last reset, removed, or
      set to a value. */
  datatype Explicit<V> = Unset | Removed | Set(value: V)

  /** The default registered for `x` by `ops`: the latest one since the
      last clear. */
  function DefaultOf<K(!new), V>(ops: seq<MD.Delta<K, V>>, x: K): Option<V>
    decreases |ops|
  {
    if |ops| == 0 then None
    else
      var pre := ops[..|ops| - 1];
      match ops[|ops| - 1]
      case Defaults(m) => if x in m then Some(m[x]) else DefaultOf(pre, x)
      case Clear => None
      case _ => DefaultOf(pre, x)
  }

  /** The explicit status `ops` give `x`: decided by the latest delta that
      names it. An update names `x` only when `x` is present at that
      point; it then sets the transform of the value it finds. */
  function ExplicitOf<K(!new), V>(ops: seq<MD.Delta<K, V>>, x: K): Explicit<V>
    decreases |ops|, 0
  {
    if |ops| == 0 then Unset
    else
      var pre := ops[..|ops| - 1];
      match ops[|ops| - 1]
      case Values(m) => if x in m then Set(m[x]) else ExplicitOf(pre, x)
      case Remove(ks) => if x in ks then Removed else ExplicitOf(pre, x)
      case Reset(ks) => if x in ks then Unset else ExplicitOf(pre, x)
      case ResetAll => Unset
      case Clear => Unset
      case Update(fs) =>
        if Some(x) in fs && Merged(pre, x).Some? then Set(fs[Some(x)](Merged(pre, x).value))
        else ExplicitOf(pre, x)
      case Defaults(_) => ExplicitOf(pre, x)
      case Nop => ExplicitOf(pre, x)
  }

  /** The reference merge at one key: an explicit status wins, otherwise the
      default shows. */
  function Merged<K(!new), V>(ops: seq<MD.Delta<K, V>>, x: K): Option<V>
    decreases |ops|, 1
  {
    match ExplicitOf(ops, x)
    case Set(v) => Some(v)
    case Removed => None
    case Unset => DefaultOf(ops, x)
  }

  /** The explicit status a kernel records for `x`. */
  function ExplicitIn<K(!new), V>(k: MK.Kernel<K, V>, x: K): Explicit<V>
  {
    if x in k.entries then Set(k.entries[x]) else if x in k.seen then Removed else Unset
  }

  /** `k` is the kernel `ops` describe, key by key. */
  ghost predicate Abstracts<K(!new), V>(k: MK.Kernel<K, V>, ops: seq<MD.Delta<K, V>>)
  {
    forall x :: Get(k.defaults, x) == DefaultOf(ops, x) && ExplicitIn(k, x) == ExplicitOf(ops, x)
  }

  lemma AbstractMerge<K(!new), V>(k: MK.Kernel<K, V>, ops: seq<MD.Delta<K, V>>, x: K)
    requires Abstracts(k, ops)
    ensures Get(MK.Merge(k), x) == Merged(ops, x)
  {
    MK.MergeAt(k, x);
  }

  /** Applying one delta keeps the kernel in step with the reference. */
  lemma StepAbstracts<K(!new), V>(k: MK.Kernel<K, V>, ops: seq<MD.Delta<K, V>>, d: MD.Delta<K, V>)
    requires Abstracts(k, ops)
    ensures Abstracts(MD.ApplyTo(d, k), ops + [d])
  {
    var ops' := ops + [d];
    assert ops'[..|ops'| - 1] == ops;
    assert ops'[|ops'| - 1] == d;
    var r := MD.ApplyTo(d, k);
    forall x
      ensures Get(r.defaults, x) == DefaultOf(ops', x) && ExplicitIn(r, x) == ExplicitOf(ops', x)
    {
      AbstractMerge(k, ops, x);
    }
  }

  /** Replaying from a fresh kernel always yields the kernel the reference
      describes. */
  lemma {:induction false} ReplayAbstracts<K(!new), V>(ops: seq<MD.Delta<K, V>>)
    ensures Abstracts(Replay(MK.Fresh(), ops), ops)
    decreases |ops|
  {
    if |ops| > 0 {
      var pre := ops[..|ops| - 1];
      assert ops == pre + [ops[|ops| - 1]];
      ReplayAbstracts(pre);
      StepAbstracts(Replay(MK.Fresh(), pre), pre, ops[|ops| - 1]);
    }
  }

  /** The kernel's merge after any delta sequence is the reference merge. */
  lemma ReplayMatchesReference<K(!new), V>(ops: seq<MD.Delta<K, V>>, x: K)
    ensures Get(MergeAfter(ops), x) == Merged(ops, x)
  {
    ReplayAbstracts(ops);
    AbstractMerge(Replay(MK.Fresh(), ops), ops, x);
  }

  /** Every replay from a fresh kernel keeps dom(entries) within `seen`. */
  lemma {:induction false} ReplayValid<K(!new), V>(k: MK.Kernel<K, V>, ops: seq<MD.Delta<K, V>>)
    requires MK.Valid(k)
    ensures MK.Valid(Replay(k, ops))
    decreases |ops|
  {
    if |ops| > 0 {
      ReplayValid(k, ops[..|ops| - 1]);
    }
  }

  /** Replaying a concatenation replays the second part on top of the first. */
  lemma ReplayAppend<K(!new), V>(k: MK.Kernel<K, V>, xs: seq<MD.Delta<K, V>>, ys: seq<MD.Delta<K, V>>)
    ensures Replay(k, xs + ys) == Replay(Replay(k, xs), ys)
  {
    FoldAppend(k, xs, ys, MapHelper.Mutate);
  }

  /** Replaying two deltas applies them in order. */
  lemma ReplayPair<K(!new), V>(k: MK.Kernel<K, V>, a: MD.Delta<K, V>, b: MD.Delta<K, V>)
    ensures Replay(k, [a, b]) == MD.ApplyTo(b, MD.ApplyTo(a, k))
  {
    var ab := [a, b];
    assert ab[..1] == [a];
    FoldSingle(k, a, MapHelper.Mutate);
    assert Replay(k, ab) == MapHelper.Mutate(Replay(k, [a]), b);
  }

  /** Two adjacent deltas whose effect is the same in either order can be
      swapped anywhere in a sequence. */
  lemma SwapAdjacent<K(!new), V>(k: MK.Kernel<K, V>, pre: seq<MD.Delta<K, V>>, a: MD.Delta<K, V>,
                                 b: MD.Delta<K, V>, post: seq<MD.Delta<K, V>>)
    requires MD.ApplyTo(b, MD.ApplyTo(a, Replay(k, pre))) == MD.ApplyTo(a, MD.ApplyTo(b, Replay(k, pre)))
    ensures Replay(k, pre + [a, b] + post) == Replay(k, pre + [b, a] + post)
  {
    ReplayAppend(k, pre + [a, b], post);
    ReplayAppend(k, pre + [b, a], post);
    ReplayAppend(k, pre, [a, b]);
    ReplayAppend(k, pre, [b, a]);
    ReplayPair(Replay(k, pre), a, b);
    ReplayPair(Replay(k, pre), b, a);
  }

  /** Posting defaults before or after a values, remove or reset delta gives
      the same state, wherever the pair sits in the sequence. */
  lemma DefaultsCommuteInSequence<K(!new), V>(k: MK.Kernel<K, V>, pre: seq<MD.Delta<K, V>>, m: map<K, V>,
                                              d: MD.Delta<K, V>, post: seq<MD.Delta<K, V>>)
    requires d.Values? || d.Remove? || d.Reset?
    ensures Replay(k, pre + [MD.Defaults(m), d] + post) == Replay(k, pre + [d, MD.Defaults(m)] + post)
  {
    var s := Replay(k, pre);
    match d {
      case Values(e) => MK.DefaultsCommute(s, m, e, {});
      case Remove(ks) => MK.DefaultsCommute(s, m, map[], ks);
      case Reset(ks) => MK.DefaultsCommute(s, m, map[], ks);
    }
    SwapAdjacent(k, pre, MD.Defaults(m), d, post);
  }

  /** A later defaults delta overrides an earlier one key by key, wherever
      the pair sits in the sequence. */
  lemma LaterDefaultsWinInSequence<K(!new), V>(k: MK.Kernel<K, V>, pre: seq<MD.Delta<K, V>>, m1: map<K, V>,
                                               m2: map<K, V>, post: seq<MD.Delta<K, V>>)
    ensures Replay(k, pre + [MD.Defaults(m1), MD.Defaults(m2)] + post) == Replay(k, pre + [MD.Defaults(m1 + m2)] + post)
  {
    ReplayAppend(k, pre + [MD.Defaults(m1), MD.Defaults(m2)], post);
    ReplayAppend(k, pre + [MD.Defaults(m1 + m2)], post);
    ReplayAppend(k, pre, [MD.Defaults(m1), MD.Defaults(m2)]);
    ReplayAppend(k, pre, [MD.Defaults(m1 + m2)]);
    var s := Replay(k, pre);
    ReplayPair(s, MD.Defaults(m1), MD.Defaults(m2));
    FoldSingle(s, MD.Defaults(m1 + m2), MapHelper.Mutate);
    MK.LaterDefaultsWin(s, m1, m2);
  }

  /** Inserting `Nop` anywhere in a delta sequence changes nothing. */
  lemma NopIsInert<K(!new), V>(k: MK.Kernel<K, V>, pre: seq<MD.Delta<K, V>>, post: seq<MD.Delta<K, V>>)
    ensures Replay(k, pre + [MD.Nop] + post) == Replay(k, pre + post)
  {
    ReplayAppend(k, pre + [MD.Nop], post);
    ReplayAppend(k, pre, [MD.Nop]);
    ReplayAppend(k, pre, post);
    var nop: seq<MD.Delta<K, V>> := [MD.Nop];
    assert nop[..0] == [];
  }

  /** `d` names `x` explicitly: it could change whether or how `x` is set. */
  predicate Touches<K(!new), V>(d: MD.Delta<K, V>, x: K)
  {
    match d
    case Values(m) => x in m
    case Remove(ks) => x in ks
    case Reset(ks) => x in ks
    case ResetAll => true
    case Clear => true
    case Update(fs) => Some(x) in fs
    case Defaults(_) => false
    case Nop => false
  }

  /** `d` can send `x` back to its default. */
  predicate Resets<K(!new), V>(d: MD.Delta<K, V>, x: K)
  {
    d.ResetAll? || d.Clear? || (d.Reset? && x in d.keys)
  }

  /** Deltas that do not name `x` leave its explicit status alone. */
  lemma {:induction false} ExplicitStable<K(!new), V>(ops: seq<MD.Delta<K, V>>, post: seq<MD.Delta<K, V>>, x: K)
    requires forall i :: 0 <= i < |post| ==> !Touches(post[i], x)
    ensures ExplicitOf(ops + post, x) == ExplicitOf(ops, x)
    decreases |post|
  {
    if |post| == 0 {
      assert ops + post == ops;
    } else {
      var post' := post[..|post| - 1];
      var all := ops + post;
      assert all[..|all| - 1] == ops + post';
      assert all[|all| - 1] == post[|post| - 1];
      ExplicitStable(ops, post', x);
    }
  }

  /** Between a remove and a value for the same key the later one wins: a
      removed key stays absent until a later delta names it. */
  lemma LastRemoveWins<K(!new), V>(ops: seq<MD.Delta<K, V>>, ks: set<K>, post: seq<MD.Delta<K, V>>, x: K)
    requires x in ks
    requires forall i :: 0 <= i < |post| ==> !Touches(post[i], x)
    ensures x !in MergeAfter(ops + [MD.Remove(ks)] + post)
  {
    var pre := ops + [MD.Remove(ks)];
    assert pre[..|pre| - 1] == ops;
    ExplicitStable(pre, post, x);
    ReplayMatchesReference(pre + post, x);
  }

  /** A value stays in the merge until a later delta names its key. */
  lemma LastValueWins<K(!new), V>(ops: seq<MD.Delta<K, V>>, m: map<K, V>, post: seq<MD.Delta<K, V>>, x: K)
    requires x in m
    requires forall i :: 0 <= i < |post| ==> !Touches(post[i], x)
    ensures Get(MergeAfter(ops + [MD.Values(m)] + post), x) == Some(m[x])
  {
    var pre := ops + [MD.Values(m)];
    assert pre[..|pre| - 1] == ops;
    ExplicitStable(pre, post, x);
    ReplayMatchesReference(pre + post, x);
  }

  /** Once a key has been explicitly set or removed, a default posted for
      it has no effect on the merge, whatever follows, as long as nothing
      resets the key. */
  lemma {:induction false} DefaultAfterExplicitIsInert<K(!new), V>(ops: seq<MD.Delta<K, V>>, m: map<K, V>,
                                                                   post: seq<MD.Delta<K, V>>, x: K)
    requires ExplicitOf(ops, x) != Unset
    requires forall i :: 0 <= i < |post| ==> !Resets(post[i], x)
    ensures Get(MergeAfter(ops + [MD.Defaults(m)] + post), x) == Get(MergeAfter(ops + post), x)
  {
    ExplicitIgnoresDefault(ops, m, post, x);
    ReplayMatchesReference(ops + [MD.Defaults(m)] + post, x);
    ReplayMatchesReference(ops + post, x);
  }

  lemma {:induction false} ExplicitIgnoresDefault<K(!new), V>(ops: seq<MD.Delta<K, V>>, m: map<K, V>,
                                                              post: seq<MD.Delta<K, V>>, x: K)
    requires ExplicitOf(ops, x) != Unset
    requires forall i :: 0 <= i < |post| ==> !Resets(post[i], x)
    ensures ExplicitOf(ops + [MD.Defaults(m)] + post, x) == ExplicitOf(ops + post, x)
    ensures ExplicitOf(ops + post, x) != Unset
    decreases |post|
  {
    var with := ops + [MD.Defaults(m)];
    if |post| == 0 {
      assert with + post == with && ops + post == ops;
      assert with[..|with| - 1] == ops;
    } else {
      var post' := post[..|post| - 1];
      var d := post[|post| - 1];
      var a := with + post;
      var b := ops + post;
      assert a[..|a| - 1] == with + post' && a[|a| - 1] == d;
      assert b[..|b| - 1] == ops + post' && b[|b| - 1] == d;
      ExplicitIgnoresDefault(ops, m, post', x);
    }
  }

  /** Two updates of one key compose in posting order. */
  lemma UpdatesCompose<K(!new), V>(ops: seq<MD.Delta<K, V>>, x: K, v: V, f: V -> V, g: V -> V)
    requires Get(MergeAfter(ops), x) == Some(v)
    ensures Get(MergeAfter(ops + [MD.NewUpdate(Some(x), f), MD.NewUpdate(Some(x), g)]), x) == Some(g(f(v)))
  {
    var one := ops + [MD.NewUpdate(Some(x), f)];
    var two := ops + [MD.NewUpdate(Some(x), f), MD.NewUpdate(Some(x), g)];
    assert two == one + [MD.NewUpdate(Some(x), g)];
    ReplayMatchesReference(ops, x);
    UpdateOfPresentKey(ops, x, v, f);
    UpdateOfPresentKey(one, x, f(v), g);
    ReplayMatchesReference(two, x);
  }

  /** In the reference, an update of a present key yields the transform of
      its value. */
  lemma UpdateOfPresentKey<K(!new), V>(ops: seq<MD.Delta<K, V>>, x: K, v: V, f: V -> V)
    requires Merged(ops, x) == Some(v)
    ensures Merged(ops + [MD.NewUpdate(Some(x), f)], x) == Some(f(v))
  {
    var one := ops + [MD.NewUpdate(Some(x), f)];
    assert one[..|one| - 1] == ops;
  }

  /** From a fresh kernel, defaults and values merge to their union with
      the values winning on shared keys, in either posting order. Disjoint
      defaults and values therefore merge to their plain union. */
  lemma DefaultsAndValuesUnite<K(!new), V>(d: map<K, V>, v: map<K, V>)
    ensures MergeAfter([MD.Defaults(d), MD.Values(v)]) == d + v
    ensures MergeAfter([MD.Values(v), MD.Defaults(d)]) == d + v
  {
    var f: MK.Kernel<K, V> := MK.Fresh();
    ReplayPair(f, MD.Defaults(d), MD.Values(v));
    ReplayPair(f, MD.Values(v), MD.Defaults(d));
    FreshPairKernel(d, v);
    UnionMerge(d, v);
  }

  /** From a fresh kernel, defaults and values in either order leave the
      same kernel. */
  lemma FreshPairKernel<K(!new), V>(d: map<K, V>, v: map<K, V>)
    ensures MD.ApplyTo(MD.Values(v), MD.ApplyTo(MD.Defaults(d), MK.Fresh())) == MK.Kernel(d, v, v.Keys)
    ensures MD.ApplyTo(MD.Defaults(d), MD.ApplyTo(MD.Values(v), MK.Fresh())) == MK.Kernel(d, v, v.Keys)
  {
    var e: map<K, V> := map[];
    assert e + d == d && e + v == v;
    assert MK.Defaults(MK.Fresh(), d) == MK.Kernel(d, e, {});
    assert MK.Values(MK.Fresh(), v) == MK.Kernel(e, v, v.Keys);
  }

  lemma UnionMerge<K(!new), V>(d: map<K, V>, v: map<K, V>)
    ensures MK.Merge(MK.Kernel(d, v, v.Keys)) == d + v
  {
    var r := MK.Merge(MK.Kernel(d, v, v.Keys));
    assert r.Keys == (d + v).Keys;
    forall x | x in r ensures r[x] == (d + v)[x] {
      MK.MergeAt(MK.Kernel(d, v, v.Keys), x);
    }
  }

  /** A clear at the end of any history leaves nothing, defaults included;
      a reset-all leaves exactly the defaults the history registered. */
  lemma ClearAndResetAllAtEnd<K(!new), V>(ops: seq<MD.Delta<K, V>>, x: K)
    ensures MergeAfter(ops + [MD.Clear]) == map[]
    ensures Get(MergeAfter(ops + [MD.ResetAll]), x) == DefaultOf(ops, x)
  {
    var k := Replay(MK.Fresh(), ops);
    assert Replay(MK.Fresh(), ops + [MD.Clear]) == MapHelper.Mutate(k, MD.Clear) by {
      var c := ops + [MD.Clear];
      assert c[..|c| - 1] == ops;
    }
    assert Replay(MK.Fresh(), ops + [MD.ResetAll]) == MapHelper.Mutate(k, MD.ResetAll) by {
      var r := ops + [MD.ResetAll];
      assert r[..|r| - 1] == ops;
    }
    assert Get(k.defaults, x) == DefaultOf(ops, x) by {
      ReplayAbstracts(ops);
    }
  }
}
