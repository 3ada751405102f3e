/** The mutable enum-keyed map builder: a mutable builder over an enum
    kernel, posting defaults, entries and removals. Map and collection
    inputs that are empty post `Nop`, which also spares them the enum
    copy's rejection of empty inputs. */
module MutableEnumMapBuilder {
  import opened Wrappers
  import opened Folding
  import MK = MapKernel
  import EK = EnumMapKernel
  import ED = EnumDelta
  import MD = MapDelta
  import EnumHelper
  import MS = MapSemantics
  import MB = MutableBuilder

  type Builder<!K, !V, P> = MB.Builder<MK.Kernel<K, V>, ED.Delta<K, V>, P>

  /** How every enum map builder is wired. */
  ghost predicate Wired<K(!new), V, P>(b: Builder<K, V, P>)
  {
    b.mutator == EnumHelper.Mutate && MK.Valid(b.state)
  }

  /** The map a merge hands to the constructor. */
  function Contents<K(!new), V, P>(b: Builder<K, V, P>): map<K, V>
  {
    EK.Merge(b.state)
  }

  /** The constructor: a fresh enum kernel; merging at once gives the
      constructor the empty map. */
  function New<K(!new), V, P>(make: map<K, V> -> P): (b: Builder<K, V, P>)
    ensures Wired(b)
    ensures Contents(b) == map[]
    ensures MB.Merge(b) == make(map[])
  {
    MB.New(EnumHelper.Initializer, EnumHelper.Mutate, EnumHelper.AdaptConstructor(make))
  }

  /** `apply` of a delta that may have been rejected at construction. */
  function Post<K(!new), V, P>(b: Builder<K, V, P>, d: Result<ED.Delta<K, V>>): (r: Result<Builder<K, V, P>>)
    requires Wired(b)
    ensures r.Failure? <==> d.Failure?
    ensures r.Success? ==> Wired(r.value) && r.value.construct == b.construct
    ensures r.Success? ==> r.value.state == ED.ApplyTo(d.value, b.state)
  {
    var delta :- d;
    Success(MB.Apply(b, delta))
  }

  /** `defaults(key, value)`. */
  function Defaults<K(!new), V, P>(b: Builder<K, V, P>, key: Option<K>, value: V): (r: Result<Builder<K, V, P>>)
    requires Wired(b)
    ensures r.Failure? <==> key.None?
    ensures r.Success? ==> Wired(r.value) && r.value.construct == b.construct
    ensures r.Success? && key.value !in b.state.seen ==> Get(Contents(r.value), key.value) == Some(value)
    ensures r.Success? ==> forall x :: x != key.value || x in b.state.seen ==> Get(Contents(r.value), x) == Get(Contents(b), x)
  {
    Post(b, ED.NewDefaults(key, value))
  }

  /** `defaults(Map)`: an empty map posts `Nop`. */
  function DefaultsMap<K(!new), V, P>(b: Builder<K, V, P>, m: map<Option<K>, V>): (r: Result<Builder<K, V, P>>)
    requires Wired(b)
    ensures r.Failure? <==> None in m
    ensures |m| == 0 ==> r.Success? && r.value.state == b.state
    ensures r.Success? ==> Wired(r.value) && r.value.construct == b.construct
    ensures r.Success? ==> forall x :: Some(x) in m && x !in b.state.seen ==> Get(Contents(r.value), x) == Some(m[Some(x)])
    ensures r.Success? ==> forall x :: Some(x) !in m || x in b.state.seen ==> Get(Contents(r.value), x) == Get(Contents(b), x)
  {
    Post(b, if |m| == 0 then Success(ED.Nop) else ED.NewDefaultsFrom(m))
  }

  /** `entries(key, value)`: the key merges to the value. */
  function Entries<K(!new), V, P>(b: Builder<K, V, P>, key: Option<K>, value: V): (r: Result<Builder<K, V, P>>)
    requires Wired(b)
    ensures r.Failure? <==> key.None?
    ensures r.Success? ==> Wired(r.value) && r.value.construct == b.construct
    ensures r.Success? ==> Get(Contents(r.value), key.value) == Some(value)
    ensures r.Success? ==> forall x :: x != key.value ==> Get(Contents(r.value), x) == Get(Contents(b), x)
  {
    Post(b, ED.NewEntries(key, value))
  }

  /** `entries(Map)`: an empty map posts `Nop`. */
  function EntriesMap<K(!new), V, P>(b: Builder<K, V, P>, m: map<Option<K>, V>): (r: Result<Builder<K, V, P>>)
    requires Wired(b)
    ensures r.Failure? <==> None in m
    ensures |m| == 0 ==> r.Success? && r.value.state == b.state
    ensures r.Success? ==> Wired(r.value) && r.value.construct == b.construct
    ensures r.Success? ==> forall x :: Some(x) in m ==> Get(Contents(r.value), x) == Some(m[Some(x)])
    ensures r.Success? ==> forall x :: Some(x) !in m ==> Get(Contents(r.value), x) == Get(Contents(b), x)
  {
    Post(b, if |m| == 0 then Success(ED.Nop) else ED.NewEntriesFrom(m))
  }

  /** `remove(key)`: the key is absent from the merge. */
  function Remove<K(!new), V, P>(b: Builder<K, V, P>, key: Option<K>): (r: Result<Builder<K, V, P>>)
    requires Wired(b)
    ensures r.Failure? <==> key.None?
    ensures r.Success? ==> Wired(r.value) && r.value.construct == b.construct
    ensures r.Success? ==> key.value !in Contents(r.value)
    ensures r.Success? ==> forall x :: x != key.value ==> Get(Contents(r.value), x) == Get(Contents(b), x)
  {
    Post(b, ED.NewRemove(key))
  }

  /** `remove(Collection)`: an empty collection posts `Nop`. */
  function RemoveAll<K(!new), V, P>(b: Builder<K, V, P>, keys: seq<Option<K>>): (r: Result<Builder<K, V, P>>)
    requires Wired(b)
    ensures r.Failure? <==> None in keys
    ensures |keys| == 0 ==> r.Success? && r.value.state == b.state
    ensures r.Success? ==> Wired(r.value) && r.value.construct == b.construct
    ensures r.Success? ==> forall x :: Some(x) in keys ==> x !in Contents(r.value)
    ensures r.Success? ==> forall x :: Some(x) !in keys ==> Get(Contents(r.value), x) == Get(Contents(b), x)
  {
    Post(b, if |keys| == 0 then Success(ED.Nop) else ED.NewRemoveAll(keys))
  }

  /** The hash-map deltas with the same effects, in the same order. */
  function Translate<K, V>(ds: seq<ED.Delta<K, V>>): (r: seq<MD.Delta<K, V>>)
    ensures |r| == |ds|
    ensures forall i :: 0 <= i < |ds| ==> r[i] == ED.ToMapDelta(ds[i])
  {
    seq(|ds|, i requires 0 <= i < |ds| => ED.ToMapDelta(ds[i]))
  }

  /** Replaying enum deltas through the enum mutator is replaying their
      hash-map counterparts through the map mutator. */
  lemma {:induction false} ReplayTranslates<K(!new), V>(k: MK.Kernel<K, V>, ds: seq<ED.Delta<K, V>>)
    ensures FoldSeq(k, ds, EnumHelper.Mutate) == MS.Replay(k, Translate(ds))
    decreases |ds|
  {
    if |ds| > 0 {
      var pre := ds[..|ds| - 1];
      var t := Translate(ds);
      assert t[..|t| - 1] == Translate(pre);
      ReplayTranslates(k, pre);
      ED.ActsLikeMapDelta(ds[|ds| - 1], FoldSeq(k, pre, EnumHelper.Mutate));
    }
  }

  /** Any sequence of accepted posts leaves the builder holding the
      reference merge of the corresponding hash-map deltas, so the ordering
      laws proved for the hash builder hold here too. */
  lemma PostingFollowsReference<K(!new), V, P>(make: map<K, V> -> P, ds: seq<ED.Delta<K, V>>, x: K)
    ensures Get(Contents(MB.ApplyAll(New(make), ds)), x) == MS.Merged(Translate(ds), x)
    ensures MB.Merge(MB.ApplyAll(New(make), ds)) == make(MS.MergeAfter(Translate(ds)))
  {
    var b := MB.ApplyAll(New(make), ds);
    ReplayTranslates(MK.Fresh(), ds);
    assert b.state == MS.Replay(MK.Fresh(), Translate(ds));
    MS.ReplayMatchesReference(Translate(ds), x);
    EnumHelper.AdaptedConstructorUsesMerge(make, b.state);
  }

  /** A key the reference merge leaves out is absent from the builder. */
  lemma AbsentFollowsReference<K(!new), V, P>(make: map<K, V> -> P, ds: seq<ED.Delta<K, V>>, x: K)
    requires x !in MS.MergeAfter(Translate(ds))
    ensures x !in Contents(MB.ApplyAll(New(make), ds))
  {
    MS.ReplayMatchesReference(Translate(ds), x);
    PostingFollowsReference(make, ds, x);
  }

  /** Translation distributes over concatenation. */
  lemma TranslateAppend<K, V>(xs: seq<ED.Delta<K, V>>, ys: seq<ED.Delta<K, V>>)
    ensures Translate(xs + ys) == Translate(xs) + Translate(ys)
  {
    var l := Translate(xs + ys);
    var r := Translate(xs) + Translate(ys);
    assert |l| == |r|;
    forall i | 0 <= i < |l| ensures l[i] == r[i] {
      if i < |xs| {
        assert (xs + ys)[i] == xs[i];
      } else {
        assert (xs + ys)[i] == ys[i - |xs|];
      }
    }
  }

  /** Translating a history with one delta spliced in splices in that
      delta's translation. */
  lemma TranslateSplice<K, V>(xs: seq<ED.Delta<K, V>>, d: ED.Delta<K, V>, ys: seq<ED.Delta<K, V>>)
    ensures Translate(xs + [d] + ys) == Translate(xs) + [ED.ToMapDelta(d)] + Translate(ys)
  {
    var l := Translate(xs + [d] + ys);
    var r := Translate(xs) + [ED.ToMapDelta(d)] + Translate(ys);
    assert |l| == |r|;
    forall i | 0 <= i < |l| ensures l[i] == r[i] {
      if i < |xs| {
        assert (xs + [d] + ys)[i] == xs[i];
      } else if i == |xs| {
        assert (xs + [d] + ys)[i] == d;
      } else {
        assert (xs + [d] + ys)[i] == ys[i - |xs| - 1];
      }
    }
  }

  /** Translated defaults name no key explicitly. */
  lemma TranslatedDefaultsTouchNothing<K(!new), V>(more: seq<ED.Delta<K, V>>, x: K)
    requires forall i :: 0 <= i < |more| ==> more[i].Defaults?
    ensures forall i :: 0 <= i < |Translate(more)| ==> !MS.Touches(Translate(more)[i], x)
  {
    var tail := Translate(more);
    forall i | 0 <= i < |tail| ensures !MS.Touches(tail[i], x) {
      assert tail[i] == MD.Defaults(more[i].entries);
    }
  }

  /** In the reference, a removed key stays absent through later defaults. */
  lemma RemovedStaysAbsentInReference<K(!new), V>(ds: seq<ED.Delta<K, V>>, x: K, more: seq<ED.Delta<K, V>>)
    requires forall i :: 0 <= i < |more| ==> more[i].Defaults?
    ensures x !in MS.MergeAfter(Translate(ds + [ED.Remove({x})] + more))
  {
    TranslateSplice(ds, ED.Remove({x}), more);
    TranslatedDefaultsTouchNothing(more, x);
    MS.LastRemoveWins(Translate(ds), {x}, Translate(more), x);
  }

  /** A default posted after a removal does not bring the key back, however
      many more defaults follow. */
  lemma DefaultAfterRemoveStaysAbsent<K(!new), V, P>(make: map<K, V> -> P, ds: seq<ED.Delta<K, V>>, x: K,
                                                      more: seq<ED.Delta<K, V>>)
    requires forall i :: 0 <= i < |more| ==> more[i].Defaults?
    ensures x !in Contents(MB.ApplyAll(New(make), ds + [ED.Remove({x})] + more))
  {
    RemovedStaysAbsentInReference(ds, x, more);
    AbsentFollowsReference(make, ds + [ED.Remove({x})] + more, x);
  }
}
