/** The mutable map builder: a mutable builder whose state is a map kernel,
    whose mutator applies map deltas, and whose constructor receives the
    kernel's merge. Each posting operation builds its delta, which is where
    a null key is rejected, and only then applies it; a rejected call
    leaves the builder as it was. */
module MutableMapBuilder {
  import opened Wrappers
  import opened Folding
  import MK = MapKernel
  import MD = MapDelta
  import MapHelper
  import MapGenerators
  import MS = MapSemantics
  import MB = MutableBuilder

  type Builder<!K, !V, P> = MB.Builder<MK.Kernel<K, V>, MD.Delta<K, V>, P>

  /** How every map builder is wired: the mutator is the map mutator and the
      state is a reachable kernel. */
  ghost predicate Wired<K(!new), V, P>(b: Builder<K, V, P>)
  {
    b.mutator == MapHelper.Mutate && MK.Valid(b.state)
  }

  /** The map a merge hands to the constructor. */
  function Contents<K(!new), V, P>(b: Builder<K, V, P>): map<K, V>
  {
    MK.Merge(b.state)
  }

  /** The constructor: a fresh kernel, the map mutator and the adapted
      constructor. Merging it straight away gives the constructor the
      empty map. */
  function New<K(!new), V, P>(make: map<K, V> -> P): (b: Builder<K, V, P>)
    ensures Wired(b)
    ensures Contents(b) == map[]
    ensures MB.Merge(b) == make(map[])
  {
    MB.New(MK.Fresh, MapHelper.Mutate, MapHelper.AdaptConstructor(make))
  }

  /** Whatever has been posted, a merge hands the constructor the kernel's
      merged map. */
  lemma MergeDeliversContents<K(!new), V, P>(b: Builder<K, V, P>, make: map<K, V> -> P)
    requires b.construct == MapHelper.AdaptConstructor(make)
    ensures MB.Merge(b) == make(Contents(b))
  {
    MapHelper.AdaptedConstructorUsesMerge(make, b.state);
  }

  /** `apply` of a delta that may have been rejected at construction. */
  function Post<K(!new), V, P>(b: Builder<K, V, P>, d: Result<MD.Delta<K, V>>): (r: Result<Builder<K, V, P>>)
    requires Wired(b)
    ensures r.Failure? <==> d.Failure?
    ensures r.Success? ==> Wired(r.value) && r.value.construct == b.construct
    ensures r.Success? ==> r.value.state == MD.ApplyTo(d.value, b.state)
  {
    var delta :- d;
    Success(MB.Apply(b, delta))
  }

  /** `doClear()`: everything is forgotten, defaults included. */
  function DoClear<K(!new), V, P>(b: Builder<K, V, P>): (r: Builder<K, V, P>)
    requires Wired(b)
    ensures Wired(r) && r.construct == b.construct
    ensures r.state == MK.Fresh()
    ensures Contents(r) == map[]
  {
    MB.Apply(b, MD.Clear)
  }

  /** `doDefaults(key, value)`: the default shows unless the key's default
      has been overridden; no other key changes. */
  function DoDefaults<K(!new), V, P>(b: Builder<K, V, P>, key: Option<K>, value: V): (r: Result<Builder<K, V, P>>)
    requires Wired(b)
    ensures r.Failure? <==> key.None?
    ensures r.Success? ==> Wired(r.value) && r.value.construct == b.construct
    ensures r.Success? ==> r.value.state.seen == b.state.seen
    ensures r.Success? ==> Get(r.value.state.defaults, key.value) == Some(value)
    ensures r.Success? ==> forall x :: x != key.value ==> Get(r.value.state.defaults, x) == Get(b.state.defaults, x)
    ensures r.Success? && key.value !in b.state.seen ==> Get(Contents(r.value), key.value) == Some(value)
    ensures r.Success? ==> forall x :: x != key.value || x in b.state.seen ==> Get(Contents(r.value), x) == Get(Contents(b), x)
  {
    Post(b, MD.NewDefaults(key, value))
  }

  /** `doDefaults(Map)`: an empty map posts `Nop`; a null key rejects the
      whole map. */
  function DoDefaultsMap<K(!new), V, P>(b: Builder<K, V, P>, m: map<Option<K>, V>): (r: Result<Builder<K, V, P>>)
    requires Wired(b)
    ensures r.Failure? <==> None in m
    ensures |m| == 0 ==> r.Success? && r.value.state == b.state
    ensures r.Success? ==> Wired(r.value) && r.value.construct == b.construct
    ensures r.Success? ==> r.value.state.seen == b.state.seen
    ensures r.Success? ==> forall x :: Some(x) in m && x !in b.state.seen ==> Get(Contents(r.value), x) == Some(m[Some(x)])
    ensures r.Success? ==> forall x :: Some(x) !in m || x in b.state.seen ==> Get(Contents(r.value), x) == Get(Contents(b), x)
  {
    Post(b, MapGenerators.DefaultsFrom(m))
  }

  /** `doRemove(key)`: the key is absent from the merge. */
  function DoRemove<K(!new), V, P>(b: Builder<K, V, P>, key: Option<K>): (r: Result<Builder<K, V, P>>)
    requires Wired(b)
    ensures r.Failure? <==> key.None?
    ensures r.Success? ==> Wired(r.value) && r.value.construct == b.construct
    ensures r.Success? ==> r.value.state.defaults == b.state.defaults
    ensures r.Success? ==> key.value !in Contents(r.value)
    ensures r.Success? ==> forall x :: x != key.value ==> Get(Contents(r.value), x) == Get(Contents(b), x)
  {
    Post(b, MD.NewRemove(key))
  }

  /** `doRemove(Collection)`: an empty collection posts `Nop`; a null member
      rejects the whole collection. */
  function DoRemoveAll<K(!new), V, P>(b: Builder<K, V, P>, keys: seq<Option<K>>): (r: Result<Builder<K, V, P>>)
    requires Wired(b)
    ensures r.Failure? <==> None in keys
    ensures |keys| == 0 ==> r.Success? && r.value.state == b.state
    ensures r.Success? ==> Wired(r.value) && r.value.construct == b.construct
    ensures r.Success? ==> r.value.state.defaults == b.state.defaults
    ensures r.Success? ==> forall x :: Some(x) in keys ==> x !in Contents(r.value)
    ensures r.Success? ==> forall x :: Some(x) !in keys ==> Get(Contents(r.value), x) == Get(Contents(b), x)
  {
    MapGenerators.RemoveFromRemovesListed(b.state, keys);
    Post(b, MapGenerators.RemoveFrom(keys))
  }

  /** `doReset()`: every value and removal is forgotten; the merge is
      exactly the registered defaults. */
  function DoReset<K(!new), V, P>(b: Builder<K, V, P>): (r: Builder<K, V, P>)
    requires Wired(b)
    ensures Wired(r) && r.construct == b.construct
    ensures r.state.defaults == b.state.defaults
    ensures Contents(r) == b.state.defaults
  {
    MB.Apply(b, MD.ResetAll)
  }

  /** `doReset(Collection)`: each listed key reverts to its default, or to
      absence; every other key keeps its value or removal. There is no
      empty-collection shortcut here. */
  function DoResetKeys<K(!new), V, P>(b: Builder<K, V, P>, keys: seq<Option<K>>): (r: Result<Builder<K, V, P>>)
    requires Wired(b)
    ensures r.Failure? <==> None in keys
    ensures r.Success? ==> Wired(r.value) && r.value.construct == b.construct
    ensures r.Success? ==> r.value.state.defaults == b.state.defaults
    ensures r.Success? ==> forall x :: Some(x) in keys ==> Get(Contents(r.value), x) == Get(b.state.defaults, x)
    ensures r.Success? ==> forall x :: Some(x) !in keys ==> Get(Contents(r.value), x) == Get(Contents(b), x)
  {
    Post(b, MD.NewResetAll(keys))
  }

  /** `doReset(key)`. */
  function DoResetKey<K(!new), V, P>(b: Builder<K, V, P>, key: Option<K>): (r: Result<Builder<K, V, P>>)
    requires Wired(b)
    ensures r.Failure? <==> key.None?
    ensures r.Success? ==> Wired(r.value) && r.value.construct == b.construct
    ensures r.Success? ==> r.value.state.defaults == b.state.defaults
    ensures r.Success? ==> Get(Contents(r.value), key.value) == Get(b.state.defaults, key.value)
    ensures r.Success? ==> forall x :: x != key.value ==> Get(Contents(r.value), x) == Get(Contents(b), x)
  {
    Post(b, MD.NewReset(key))
  }

  /** `doUpdates(key, f)`: a present key takes `f` of its current value; an
      absent or null key is skipped. It never fails. */
  function DoUpdate<K(!new), V, P>(b: Builder<K, V, P>, key: Option<K>, f: V -> V): (r: Builder<K, V, P>)
    requires Wired(b)
    ensures Wired(r) && r.construct == b.construct
    ensures r.state.defaults == b.state.defaults
    ensures key.Some? && key.value in Contents(b) ==> Get(Contents(r), key.value) == Some(f(Contents(b)[key.value]))
    ensures forall x :: key != Some(x) || x !in Contents(b) ==> Get(Contents(r), x) == Get(Contents(b), x)
  {
    MB.Apply(b, MD.NewUpdate(key, f))
  }

  /** `doUpdates(Map)`: an empty map posts `Nop`. */
  function DoUpdates<K(!new), V, P>(b: Builder<K, V, P>, fs: map<Option<K>, V -> V>): (r: Builder<K, V, P>)
    requires Wired(b)
    ensures Wired(r) && r.construct == b.construct
    ensures r.state.defaults == b.state.defaults
    ensures |fs| == 0 ==> r.state == b.state
    ensures forall x :: Some(x) in fs && x in Contents(b) ==> Get(Contents(r), x) == Some(fs[Some(x)](Contents(b)[x]))
    ensures forall x :: Some(x) !in fs || x !in Contents(b) ==> Get(Contents(r), x) == Get(Contents(b), x)
  {
    MB.Apply(b, MapGenerators.UpdatesFrom(fs))
  }

  /** `doValues(key, value)`: the key merges to the value. */
  function DoValues<K(!new), V, P>(b: Builder<K, V, P>, key: Option<K>, value: V): (r: Result<Builder<K, V, P>>)
    requires Wired(b)
    ensures r.Failure? <==> key.None?
    ensures r.Success? ==> Wired(r.value) && r.value.construct == b.construct
    ensures r.Success? ==> r.value.state.defaults == b.state.defaults
    ensures r.Success? ==> Get(Contents(r.value), key.value) == Some(value)
    ensures r.Success? ==> forall x :: x != key.value ==> Get(Contents(r.value), x) == Get(Contents(b), x)
  {
    Post(b, MD.NewValues(key, value))
  }

  /** `doValues(Map)`: an empty map posts `Nop`; a null key rejects the
      whole map. */
  function DoValuesMap<K(!new), V, P>(b: Builder<K, V, P>, m: map<Option<K>, V>): (r: Result<Builder<K, V, P>>)
    requires Wired(b)
    ensures r.Failure? <==> None in m
    ensures |m| == 0 ==> r.Success? && r.value.state == b.state
    ensures r.Success? ==> Wired(r.value) && r.value.construct == b.construct
    ensures r.Success? ==> r.value.state.defaults == b.state.defaults
    ensures r.Success? ==> forall x :: Some(x) in m ==> Get(Contents(r.value), x) == Some(m[Some(x)])
    ensures r.Success? ==> forall x :: Some(x) !in m ==> Get(Contents(r.value), x) == Get(Contents(b), x)
  {
    Post(b, MapGenerators.ValuesFrom(m))
  }

  /** Any sequence of accepted posts leaves the builder holding exactly the
      reference merge of the deltas posted, so every ordering law proved
      for delta sequences holds for the builder. */
  lemma {:induction false} PostingFollowsReference<K(!new), V, P>(make: map<K, V> -> P, ds: seq<MD.Delta<K, V>>, x: K)
    ensures Get(Contents(MB.ApplyAll(New(make), ds)), x) == MS.Merged(ds, x)
    ensures MB.Merge(MB.ApplyAll(New(make), ds)) == make(MS.MergeAfter(ds))
  {
    var b := MB.ApplyAll(New(make), ds);
    assert b.state == MS.Replay(MK.Fresh(), ds);
    MS.ReplayMatchesReference(ds, x);
    MergeDeliversContents(b, make);
  }

  /** Keys of the builder tests. */
  datatype TestKey = A | B | C

  /** The builder of the multiple-key reset example before the reset:
      defaults for A and B, values for B and C, then A removed. */
  function ResetExampleSetup<P>(make: map<TestKey, string> -> P): (b: Builder<TestKey, string, P>)
    ensures Wired(b) && b.construct == New(make).construct
    ensures Get(b.state.defaults, A) == Some("DA") && Get(b.state.defaults, C) == None
    ensures Get(Contents(b), B) == Some("VB")
  {
    var b1 := DoDefaults(New(make), Some(A), "DA").value;
    var b2 := DoDefaults(b1, Some(B), "DB").value;
    var b3 := DoValues(b2, Some(B), "VB").value;
    var b4 := DoValues(b3, Some(C), "VC").value;
    DoRemove(b4, Some(A)).value
  }

  /** Resetting A and C on any builder in that situation brings A back to
      its default, drops C, which has no default, and keeps B's value. */
  lemma ResetKeysFromSetup<P>(b: Builder<TestKey, string, P>)
    requires Wired(b)
    requires Get(b.state.defaults, A) == Some("DA") && Get(b.state.defaults, C) == None
    requires Get(Contents(b), B) == Some("VB")
    ensures var r := DoResetKeys(b, [Some(A), Some(C)]);
            r.Success? && Contents(r.value) == map[A := "DA", B := "VB"]
  {
    var keys := [Some(A), Some(C)];
    assert None !in keys by {
      assert |keys| == 2 && keys[0] != None && keys[1] != None;
    }
    var r := DoResetKeys(b, keys).value;
    var expected := map[A := "DA", B := "VB"];
    assert Get(Contents(r), A) == Some("DA") by {
      assert keys[0] == Some(A);
    }
    assert Get(Contents(r), C) == None by {
      assert keys[1] == Some(C);
    }
    assert Get(Contents(r), B) == Some("VB") by {
      assert Some(B) !in keys by {
        assert |keys| == 2 && keys[0] != Some(B) && keys[1] != Some(B);
      }
    }
    forall x ensures Get(Contents(r), x) == Get(expected, x) {
      match x {
        case A =>
        case B =>
        case C =>
      }
    }
    GetExtensional(Contents(r), expected);
  }

  /** The multiple-key reset example end to end. */
  lemma ResetKeysExample<P>(make: map<TestKey, string> -> P)
    ensures var r := DoResetKeys(ResetExampleSetup(make), [Some(A), Some(C)]);
            r.Success? && Contents(r.value) == map[A := "DA", B := "VB"]
  {
    ResetKeysFromSetup(ResetExampleSetup(make));
  }
}
