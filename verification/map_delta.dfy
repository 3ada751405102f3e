/** The deltas of the map builders. Each is an immutable value built by a
    constructor that validates keys (`None` stands for a Java null key) and
    applied to a kernel by `ApplyTo`. `Update` is the exception: its
    constructors accept any key, null included. */
module MapDelta {
  import opened Wrappers
  import EnumCopies
  import MK = MapKernel

  /** One state transition of a map kernel. `Nop` is the shared
      do-nothing delta posted for empty inputs. */
  datatype Delta<K, !V> =
    | Defaults(entries: map<K, V>)
    | Values(entries: map<K, V>)
    | Remove(keys: set<K>)
    | Reset(keys: set<K>)
    | ResetAll
    | Clear
    | Update(mutations: map<Option<K>, V -> V>)
    | Nop

  /** `requireKeys`: fails exactly when the key set contains null and
      otherwise passes the keys through unchanged. */
  function RequireKeys<K(!new)>(s: set<Option<K>>): (r: Result<set<K>>)
    ensures r.Failure? <==> None in s
    ensures r.Success? ==> forall x :: x in r.value <==> Some(x) in s
  {
    if None in s then Failure(NullKey) else Success(NonNull(s))
  }

  /** A single default; a null key is rejected. */
  function NewDefaults<K(!new), V>(key: Option<K>, value: V): (r: Result<Delta<K, V>>)
    ensures r.Failure? <==> key.None?
    ensures r.Success? ==> r.value.Defaults? && r.value.entries == map[key.value := value]
  {
    if key.None? then Failure(NullKey) else Success(Defaults(map[key.value := value]))
  }

  /** Defaults copied from a caller's map. Only keys are validated: any null
      key rejects the whole map, while null values are kept. */
  function NewDefaultsFrom<K(!new), V>(m: map<Option<K>, V>): (r: Result<Delta<K, V>>)
    ensures r.Failure? <==> None in m
    ensures r.Success? ==> r.value.Defaults?
    ensures r.Success? ==> forall x :: (x in r.value.entries <==> Some(x) in m)
    ensures r.Success? ==> forall x :: x in r.value.entries ==> r.value.entries[x] == m[Some(x)]
  {
    var _ :- RequireKeys(m.Keys);
    Success(Defaults(NonNullEntries(m)))
  }

  /** A single value; a null key is rejected. */
  function NewValues<K(!new), V>(key: Option<K>, value: V): (r: Result<Delta<K, V>>)
    ensures r.Failure? <==> key.None?
    ensures r.Success? ==> r.value.Values? && r.value.entries == map[key.value := value]
  {
    if key.None? then Failure(NullKey) else Success(Values(map[key.value := value]))
  }

  /** Values copied from a caller's map; a null key rejects the whole map. */
  function NewValuesFrom<K(!new), V>(m: map<Option<K>, V>): (r: Result<Delta<K, V>>)
    ensures r.Failure? <==> None in m
    ensures r.Success? ==> r.value.Values?
    ensures r.Success? ==> forall x :: (x in r.value.entries <==> Some(x) in m)
    ensures r.Success? ==> forall x :: x in r.value.entries ==> r.value.entries[x] == m[Some(x)]
  {
    var _ :- RequireKeys(m.Keys);
    Success(Values(NonNullEntries(m)))
  }

  /** Removal of one key, held in an enum set; a null key is rejected. */
  function NewRemove<K(!new), V>(key: Option<K>): Result<Delta<K, V>>
  {
    var ks :- EnumCopies.SetOf(key);
    Success(Remove(ks))
  }

  /** The single-key removal fails exactly for null and otherwise names just
      that key. Stated of a typed result `r`, as the key alone does not fix
      `V`; the other key-only constructors below follow the same pattern. */
  lemma NewRemoveChecksKey<K(!new), V>(key: Option<K>, r: Result<Delta<K, V>>)
    requires r == NewRemove(key)
    ensures r.Failure? <==> key.None?
    ensures r.Success? ==> r.value.Remove? && r.value.keys == {key.value}
  {
  }

  /** Removal of a collection of keys, copied into an enum set so duplicates
      collapse. A null member is rejected, and so is an empty collection,
      whose copy cannot tell the key type. */
  function NewRemoveAll<K(!new), V>(keys: seq<Option<K>>): Result<Delta<K, V>>
  {
    var ks :- EnumCopies.SetCopyOf(keys);
    Success(Remove(ks))
  }

  lemma NewRemoveAllChecksKeys<K(!new), V>(keys: seq<Option<K>>, r: Result<Delta<K, V>>)
    requires r == NewRemoveAll(keys)
    ensures r.Failure? <==> |keys| == 0 || None in keys
    ensures r.Failure? && |keys| > 0 ==> r.error == NullKey
    ensures r.Success? ==> r.value.Remove? && forall x :: x in r.value.keys <==> Some(x) in keys
  {
  }

  /** Reset of one key; a null key is rejected. */
  function NewReset<K(!new), V>(key: Option<K>): Result<Delta<K, V>>
  {
    if key.None? then Failure(NullKey) else Success(Reset({key.value}))
  }

  lemma NewResetChecksKey<K(!new), V>(key: Option<K>, r: Result<Delta<K, V>>)
    requires r == NewReset(key)
    ensures r.Failure? <==> key.None?
    ensures r.Success? ==> r.value.Reset? && r.value.keys == {key.value}
  {
  }

  /** Reset of a collection of keys, copied into a set; a null member
      rejects the collection. */
  function NewResetAll<K(!new), V>(keys: seq<Option<K>>): Result<Delta<K, V>>
  {
    var ks :- RequireKeys(set o | o in keys);
    Success(Reset(ks))
  }

  lemma NewResetAllChecksKeys<K(!new), V>(keys: seq<Option<K>>, r: Result<Delta<K, V>>)
    requires r == NewResetAll(keys)
    ensures r.Failure? <==> None in keys
    ensures r.Success? ==> r.value.Reset? && forall x :: x in r.value.keys <==> Some(x) in keys
  {
  }

  /** A single update. No key check is made: a null key is stored as is. */
  function NewUpdate<K(!new), V>(key: Option<K>, f: V -> V): (r: Delta<K, V>)
    ensures r.Update? && key in r.mutations && r.mutations[key] == f
    ensures r.mutations.Keys == {key}
  {
    Update(map[key := f])
  }

  /** Updates copied from a caller's map, again without a key check. */
  function NewUpdateFrom<K(!new), V>(fs: map<Option<K>, V -> V>): (r: Delta<K, V>)
    ensures r.Update? && r.mutations.Keys == fs.Keys
    ensures forall o :: o in fs ==> r.mutations[o] == fs[o]
  {
    Update(fs)
  }

  /** The update transforms that can apply to a kernel whose merge is
      `merged`: those whose key is non-null and currently present. */
  function Applicable<K(!new), V>(fs: map<Option<K>, V -> V>, merged: map<K, V>): (r: map<K, V -> V>)
    ensures forall x :: x in r <==> Some(x) in fs && x in merged
    ensures forall x :: x in r ==> r[x] == fs[Some(x)]
  {
    map o | o in fs && o.Some? && o.value in merged :: o.value := fs[o]
  }

  /** `applyTo(kernel)`: each delta calls the kernel operation of the same
      name with exactly its stored contents; `Nop` calls nothing. An update
      skips keys absent from the current merge. */
  function ApplyTo<K(!new), V>(d: Delta<K, V>, k: MK.Kernel<K, V>): (r: MK.Kernel<K, V>)
    ensures MK.Valid(k) ==> MK.Valid(r)
    ensures d.Nop? ==> r == k
  {
    match d
    case Defaults(m) => MK.Defaults(k, m)
    case Values(m) => MK.Values(k, m)
    case Remove(ks) => MK.Remove(k, ks)
    case Reset(ks) => MK.Reset(k, ks)
    case ResetAll => MK.ResetAll(k)
    case Clear => MK.Clear(k)
    case Update(fs) => MK.Updates(k, Applicable(fs, MK.Merge(k)))
    case Nop => k
  }
}
