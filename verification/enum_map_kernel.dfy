/** The enum-keyed merge kernel. Its source is a separate class with the
    same three pieces of state as the hash kernel and the same code for the
    operations it has; `entries` plays the part of the hash kernel's
    `values`. Its state reuses the hash kernel's record. */
module EnumMapKernel {
  import opened Wrappers
  import MK = MapKernel

  /** The constructor: empty defaults, entries and seen set. */
  function New<K(!new), V>(): MK.Kernel<K, V>
  {
    MK.Kernel(map[], map[], {})
  }

  /** `defaults(m)`: `m` overlays the defaults; nothing else changes. */
  function Defaults<K(!new), V>(k: MK.Kernel<K, V>, m: map<K, V>): (r: MK.Kernel<K, V>)
    ensures r.entries == k.entries && r.seen == k.seen
    ensures r.defaults.Keys == k.defaults.Keys + m.Keys
    ensures forall x :: x in m ==> r.defaults[x] == m[x]
    ensures r == MK.Defaults(k, m)
  {
    MK.Kernel(k.defaults + m, k.entries, k.seen)
  }

  /** `entries(m)`: `m` overlays the entries and its keys join `seen`. */
  function Entries<K(!new), V>(k: MK.Kernel<K, V>, m: map<K, V>): (r: MK.Kernel<K, V>)
    ensures r.defaults == k.defaults
    ensures r.seen == k.seen + m.Keys
    ensures r.entries.Keys == k.entries.Keys + m.Keys
    ensures forall x :: x in m ==> r.entries[x] == m[x]
    ensures r == MK.Values(k, m)
  {
    MK.Kernel(k.defaults, k.entries + m, k.seen + m.Keys)
  }

  /** `merge()`: defaults not seen, overridden by entries. */
  function Merge<K(!new), V>(k: MK.Kernel<K, V>): (r: map<K, V>)
    ensures r.Keys == (k.defaults.Keys - k.seen) + k.entries.Keys
    ensures r == MK.Merge(k)
  {
    (k.defaults - k.seen) + k.entries
  }

  /** `remove(ks)`: the keys leave the entries and join `seen`. */
  function Remove<K(!new), V>(k: MK.Kernel<K, V>, ks: set<K>): (r: MK.Kernel<K, V>)
    ensures r.defaults == k.defaults
    ensures r.seen == k.seen + ks
    ensures r.entries.Keys == k.entries.Keys - ks
    ensures r == MK.Remove(k, ks)
  {
    MK.Kernel(k.defaults, k.entries - ks, k.seen + ks)
  }

  /** A new enum kernel is the fresh hash kernel. With the contracts of
      `Defaults`, `Entries`, `Merge` and `Remove`, the enum kernel is the
      hash kernel restricted to the operations it has, so every law proved
      for the hash kernel holds for it. */
  lemma NewIsFresh<K(!new), V>(k: MK.Kernel<K, V>)
    requires k == New()
    ensures k == MK.Fresh()
    ensures k.defaults == map[] && k.entries == map[] && k.seen == {}
  {
  }

  /** `entries` and `remove` keep dom(entries) within `seen`; `defaults`
      does not touch either. */
  lemma PreservesValid<K(!new), V>(k: MK.Kernel<K, V>, m: map<K, V>, ks: set<K>)
    requires MK.Valid(k)
    ensures MK.Valid(New<K, V>())
    ensures MK.Valid(Defaults(k, m)) && MK.Valid(Entries(k, m)) && MK.Valid(Remove(k, ks))
  {
  }
}
