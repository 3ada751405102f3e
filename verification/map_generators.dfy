/** The delta generators shared by both map builders. A single-key request
    is exactly the matching delta constructor; a map or collection request
    posts the shared `Nop` when its input is empty, and the matching delta
    otherwise. */
module MapGenerators {
  import opened Wrappers
  import MK = MapKernel
  import opened MapDelta

  /** `defaults(Map)`. */
  function DefaultsFrom<K(!new), V>(m: map<Option<K>, V>): (r: Result<Delta<K, V>>)
    ensures |m| == 0 ==> r == Success(Nop)
    ensures r.Failure? <==> None in m
    ensures r.Success? && |m| > 0 ==> r.value.Defaults?
    ensures r.Success? && r.value.Defaults? ==> forall x :: x in r.value.entries <==> Some(x) in m
    ensures r.Success? && r.value.Defaults? ==> forall x :: x in r.value.entries ==> r.value.entries[x] == m[Some(x)]
  {
    if |m| == 0 then Success(Nop) else NewDefaultsFrom(m)
  }

  /** `remove(Collection)`. Its contract is `RemoveFromRemovesListed`,
      stated there against a kernel so that `V` is fixed. */
  function RemoveFrom<K(!new), V>(keys: seq<Option<K>>): Result<Delta<K, V>>
  {
    if |keys| == 0 then Success(Nop) else NewRemoveAll(keys)
  }

  /** `updates(Map)`: never fails, as `Update` checks no key. */
  function UpdatesFrom<K(!new), V>(fs: map<Option<K>, V -> V>): (r: Delta<K, V>)
    ensures |fs| == 0 ==> r == Nop
    ensures |fs| > 0 ==> r.Update? && r.mutations == fs
  {
    if |fs| == 0 then Nop else NewUpdateFrom(fs)
  }

  /** `values(Map)`. */
  function ValuesFrom<K(!new), V>(m: map<Option<K>, V>): (r: Result<Delta<K, V>>)
    ensures |m| == 0 ==> r == Success(Nop)
    ensures r.Failure? <==> None in m
    ensures r.Success? && |m| > 0 ==> r.value.Values?
    ensures r.Success? && r.value.Values? ==> forall x :: x in r.value.entries <==> Some(x) in m
    ensures r.Success? && r.value.Values? ==> forall x :: x in r.value.entries ==> r.value.entries[x] == m[Some(x)]
  {
    if |m| == 0 then Success(Nop) else NewValuesFrom(m)
  }

  /** Posting `Nop` for an empty input is only a shortcut: the delta the
      constructor would have built from the empty input has exactly the
      same effect on every kernel. The four lemmas below say so for each
      generator. */
  lemma DefaultsFromActsLikeConstructed<K(!new), V>(k: MK.Kernel<K, V>, m: map<Option<K>, V>)
    requires DefaultsFrom(m).Success?
    ensures ApplyTo(DefaultsFrom(m).value, k) == ApplyTo(NewDefaultsFrom(m).value, k)
  {
    if |m| == 0 {
      var d := NewDefaultsFrom(m).value;
      assert d.entries == map[];
      assert k.defaults + d.entries == k.defaults;
    }
  }

  lemma ValuesFromActsLikeConstructed<K(!new), V>(k: MK.Kernel<K, V>, m: map<Option<K>, V>)
    requires ValuesFrom(m).Success?
    ensures ApplyTo(ValuesFrom(m).value, k) == ApplyTo(NewValuesFrom(m).value, k)
  {
    if |m| == 0 {
      var d := NewValuesFrom(m).value;
      assert d.entries == map[];
      assert k.entries + d.entries == k.entries;
      assert k.seen + d.entries.Keys == k.seen;
    }
  }

  /** For removal the shortcut is also what keeps an empty collection from
      failing: the plain constructor rejects it, while the generated delta
      fails only on a null member and otherwise removes exactly the listed
      keys, that is, nothing for an empty collection. */
  lemma RemoveFromRemovesListed<K(!new), V>(k: MK.Kernel<K, V>, keys: seq<Option<K>>)
    ensures var r: Result<Delta<K, V>> := RemoveFrom(keys);
            (r.Failure? <==> None in keys)
            && (|keys| == 0 ==> r == Success(Nop))
            && (r.Success? ==> ApplyTo(r.value, k) == MK.Remove(k, NonNull(set o | o in keys)))
    ensures var c: Result<Delta<K, V>> := NewRemoveAll(keys);
            |keys| == 0 ==> c.Failure?
  {
    var r: Result<Delta<K, V>> := RemoveFrom(keys);
    if |keys| == 0 {
      assert NonNull(set o | o in keys) == {};
      assert MK.Remove(k, {}) == k;
    } else if r.Success? {
      assert r.value.keys == NonNull(set o | o in keys);
    }
  }

  lemma UpdatesFromActsLikeConstructed<K(!new), V>(k: MK.Kernel<K, V>, fs: map<Option<K>, V -> V>)
    ensures ApplyTo(UpdatesFrom(fs), k) == ApplyTo(NewUpdateFrom(fs), k)
  {
    if |fs| == 0 {
      assert Applicable(fs, MK.Merge(k)) == map[];
      MK.UpdatesNothing(k);
    }
  }
}
