/** The copies into enum-keyed collections that some deltas make on
    construction. Their failures are the deltas' failures: a null key, or
    an empty collection that is not already an enum collection, from which
    the copy cannot learn its key type. Inputs are taken to be plain
    collections, never enum sets or enum maps. */
module EnumCopies {
  import opened Wrappers

  /** `EnumSet.of(key)`. */
  function SetOf<K>(key: Option<K>): (r: Result<set<K>>)
    ensures r.Failure? <==> key.None?
    ensures r.Failure? ==> r.error == NullKey
    ensures r.Success? ==> r.value == {key.value}
  {
    if key.None? then Failure(NullKey) else Success({key.value})
  }

  /** `EnumSet.copyOf(collection)`: the emptiness check comes first. */
  function SetCopyOf<K(!new)>(keys: seq<Option<K>>): (r: Result<set<K>>)
    ensures r.Failure? <==> |keys| == 0 || None in keys
    ensures r.Failure? ==> (r.error == EmptyCopy <==> |keys| == 0)
    ensures r.Success? ==> forall x :: x in r.value <==> Some(x) in keys
  {
    if |keys| == 0 then Failure(EmptyCopy)
    else if None in keys then Failure(NullKey)
    else Success(NonNull(set o | o in keys))
  }

  /** `new EnumMap<>(map)`: the emptiness check comes first; values,
      null ones included, are copied as they are. */
  function MapCopyOf<K(!new), V>(m: map<Option<K>, V>): (r: Result<map<K, V>>)
    ensures r.Failure? <==> |m| == 0 || None in m
    ensures r.Failure? ==> (r.error == EmptyCopy <==> |m| == 0)
    ensures r.Success? ==> forall x :: x in r.value <==> Some(x) in m
    ensures r.Success? ==> forall x :: x in r.value ==> r.value[x] == m[Some(x)]
  {
    if |m| == 0 then Failure(EmptyCopy)
    else if None in m then Failure(NullKey)
    else Success(NonNullEntries(m))
  }

  /** `new EnumMap<>(Collections.singletonMap(key, value))`: never empty, so
      only a null key fails. */
  function SingletonMapCopy<K(!new), V>(key: Option<K>, value: V): (r: Result<map<K, V>>)
    ensures r.Failure? <==> key.None?
    ensures r.Failure? ==> r.error == NullKey
    ensures r.Success? ==> r.value == map[key.value := value]
  {
    var one := map[key := value];
    assert |one| == 1;
    var c := MapCopyOf(one);
    assert c.Success? ==> c.value == map[key.value := value];
    c
  }
}
