/** The deltas the enum-keyed builder posts: defaults, entries, removal and
    the shared `Nop`. Their contents are copied into enum collections on
    construction, which is where a null key (and an empty plain input) is
    rejected. */
module EnumDelta {
  import opened Wrappers
  import EnumCopies
  import MK = MapKernel
  import EK = EnumMapKernel
  import MD = MapDelta

  datatype Delta<K, V> =
    | Defaults(entries: map<K, V>)
    | Entries(entries: map<K, V>)
    | Remove(keys: set<K>)
    | Nop

  /** A single default. */
  function NewDefaults<K(!new), V>(key: Option<K>, value: V): (r: Result<Delta<K, V>>)
    ensures r.Failure? <==> key.None?
    ensures r.Success? ==> r.value == Defaults(map[key.value := value])
  {
    var m :- EnumCopies.SingletonMapCopy(key, value);
    Success(Defaults(m))
  }

  /** Defaults copied from a caller's map. */
  function NewDefaultsFrom<K(!new), V>(m: map<Option<K>, V>): (r: Result<Delta<K, V>>)
    ensures r.Failure? <==> |m| == 0 || None in m
    ensures r.Failure? && |m| > 0 ==> r.error == NullKey
    ensures r.Success? ==> r.value.Defaults? && forall x :: x in r.value.entries <==> Some(x) in m
    ensures r.Success? ==> forall x :: x in r.value.entries ==> r.value.entries[x] == m[Some(x)]
  {
    var c :- EnumCopies.MapCopyOf(m);
    Success(Defaults(c))
  }

  /** A single entry. */
  function NewEntries<K(!new), V>(key: Option<K>, value: V): (r: Result<Delta<K, V>>)
    ensures r.Failure? <==> key.None?
    ensures r.Success? ==> r.value == Entries(map[key.value := value])
  {
    var m :- EnumCopies.SingletonMapCopy(key, value);
    Success(Entries(m))
  }

  /** Entries copied from a caller's map. */
  function NewEntriesFrom<K(!new), V>(m: map<Option<K>, V>): (r: Result<Delta<K, V>>)
    ensures r.Failure? <==> |m| == 0 || None in m
    ensures r.Failure? && |m| > 0 ==> r.error == NullKey
    ensures r.Success? ==> r.value.Entries? && forall x :: x in r.value.entries <==> Some(x) in m
    ensures r.Success? ==> forall x :: x in r.value.entries ==> r.value.entries[x] == m[Some(x)]
  {
    var c :- EnumCopies.MapCopyOf(m);
    Success(Entries(c))
  }

  /** Removal of one key. */
  function NewRemove<K(!new), V>(key: Option<K>): Result<Delta<K, V>>
  {
    var ks :- EnumCopies.SetOf(key);
    Success(Remove(ks))
  }

  /** Removal of a collection of keys. */
  function NewRemoveAll<K(!new), V>(keys: seq<Option<K>>): Result<Delta<K, V>>
  {
    var ks :- EnumCopies.SetCopyOf(keys);
    Success(Remove(ks))
  }

  /** The enum removals fail exactly as the map ones do. Stated of a typed
      result `r`, as the keys alone do not fix `V`. */
  lemma NewRemoveChecksKey<K(!new), V>(key: Option<K>, r: Result<Delta<K, V>>)
    requires r == NewRemove(key)
    ensures r.Failure? <==> key.None?
    ensures r.Success? ==> r.value.Remove? && r.value.keys == {key.value}
  {
  }

  lemma NewRemoveAllChecksKeys<K(!new), V>(keys: seq<Option<K>>, r: Result<Delta<K, V>>)
    requires r == NewRemoveAll(keys)
    ensures r.Failure? <==> |keys| == 0 || None in keys
    ensures r.Failure? && |keys| > 0 ==> r.error == NullKey
    ensures r.Success? ==> r.value.Remove? && forall x :: x in r.value.keys <==> Some(x) in keys
  {
  }

  /** `applyTo(kernel)`: the kernel operation of the same name with exactly
      the stored contents; `Nop` does nothing. */
  function ApplyTo<K(!new), V>(d: Delta<K, V>, k: MK.Kernel<K, V>): (r: MK.Kernel<K, V>)
    ensures MK.Valid(k) ==> MK.Valid(r)
    ensures d.Nop? ==> r == k
  {
    match d
    case Defaults(m) => EK.Defaults(k, m)
    case Entries(m) => EK.Entries(k, m)
    case Remove(ks) => EK.Remove(k, ks)
    case Nop => k
  }

  /** The hash-map delta with the same effect. */
  function ToMapDelta<K, V>(d: Delta<K, V>): MD.Delta<K, V>
  {
    match d
    case Defaults(m) => MD.Defaults(m)
    case Entries(m) => MD.Values(m)
    case Remove(ks) => MD.Remove(ks)
    case Nop => MD.Nop
  }

  /** Each enum delta acts on a kernel exactly as its hash-map counterpart. */
  lemma ActsLikeMapDelta<K(!new), V>(d: Delta<K, V>, k: MK.Kernel<K, V>)
    ensures ApplyTo(d, k) == MD.ApplyTo(ToMapDelta(d), k)
  {
    match d {
      case Defaults(m) =>
      case Entries(m) =>
      case Remove(ks) =>
      case Nop =>
    }
  }
}
