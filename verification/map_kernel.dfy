/** The map merge kernel. It keeps registered defaults, explicitly set
    entries, and the set of keys whose default has been overridden; the
    merged map is the defaults minus the overridden keys, overlaid with the
    entries. `reset`, `resetAll`, `clear` and `updates` are called by the
    deltas but not defined by the kernel's source; their semantics here are
    the simplest ones the builders' tests fix. */
module MapKernel {
  import opened Wrappers

  /** Kernel state. */
  datatype Kernel<K, V> = Kernel(defaults: map<K, V>, entries: map<K, V>, seen: set<K>)

  /** The invariant every reachable kernel keeps: a key with an explicit
      entry has had its default overridden. */
  predicate Valid<K(!new), V>(k: Kernel<K, V>)
  {
    k.entries.Keys <= k.seen
  }

  /** The merged map: defaults restricted to keys not seen, overridden by
      entries. */
  function Merge<K(!new), V>(k: Kernel<K, V>): (r: map<K, V>)
    ensures r.Keys == (k.defaults.Keys - k.seen) + k.entries.Keys
    ensures forall x :: x in k.entries ==> x in r && r[x] == k.entries[x]
    ensures forall x :: x in k.defaults && x !in k.seen && x !in k.entries ==> x in r && r[x] == k.defaults[x]
  {
    (k.defaults - k.seen) + k.entries
  }

  /** One key of the merge: an entry wins, a seen key without an entry is
      absent, and an unseen key shows its default, if any. */
  lemma MergeAt<K(!new), V>(k: Kernel<K, V>, x: K)
    ensures Get(Merge(k), x) ==
            if x in k.entries then Some(k.entries[x])
            else if x in k.seen then None
            else Get(k.defaults, x)
  {
  }

  /** A new kernel: everything empty. */
  function Fresh<K(!new), V>(): Kernel<K, V>
  {
    Kernel(map[], map[], {})
  }

  /** A new kernel is empty and valid, and merges to the empty map. */
  lemma FreshIsEmpty<K(!new), V>(k: Kernel<K, V>)
    requires k == Fresh()
    ensures Valid(k)
    ensures Merge(k) == map[]
    ensures k.defaults == map[] && k.entries == map[] && k.seen == {}
  {
  }

  /** `defaults(m)`: later defaults override earlier ones; only `defaults`
      changes, so a key already seen keeps its merged value. */
  function Defaults<K(!new), V>(k: Kernel<K, V>, m: map<K, V>): (r: Kernel<K, V>)
    ensures r.entries == k.entries && r.seen == k.seen
    ensures forall x :: x in m ==> x in r.defaults && r.defaults[x] == m[x]
    ensures forall x :: x !in m ==> Get(r.defaults, x) == Get(k.defaults, x)
    ensures Valid(k) ==> Valid(r)
    ensures Valid(k) ==> forall x :: x in m && x !in k.seen ==> Get(Merge(r), x) == Some(m[x])
    ensures forall x :: x !in m || x in k.seen ==> Get(Merge(r), x) == Get(Merge(k), x)
  {
    Kernel(k.defaults + m, k.entries, k.seen)
  }

  /** `values(m)`: `m` overlays the entries and its keys join `seen`;
      defaults are untouched. Each key of `m` merges to its new value. */
  function Values<K(!new), V>(k: Kernel<K, V>, m: map<K, V>): (r: Kernel<K, V>)
    ensures r.defaults == k.defaults
    ensures r.seen == k.seen + m.Keys
    ensures forall x :: x in m ==> x in r.entries && r.entries[x] == m[x]
    ensures forall x :: x !in m ==> Get(r.entries, x) == Get(k.entries, x)
    ensures Valid(k) ==> Valid(r)
    ensures forall x :: x in m ==> Get(Merge(r), x) == Some(m[x])
    ensures forall x :: x !in m ==> Get(Merge(r), x) == Get(Merge(k), x)
  {
    Kernel(k.defaults, k.entries + m, k.seen + m.Keys)
  }

  /** `remove(ks)`: the keys leave the entries and join `seen`; defaults are
      untouched. Each removed key is absent from the merge. */
  function Remove<K(!new), V>(k: Kernel<K, V>, ks: set<K>): (r: Kernel<K, V>)
    ensures r.defaults == k.defaults
    ensures r.seen == k.seen + ks
    ensures r.entries.Keys == k.entries.Keys - ks
    ensures forall x :: x in r.entries ==> r.entries[x] == k.entries[x]
    ensures Valid(k) ==> Valid(r)
    ensures forall x :: x in ks ==> x !in Merge(r)
    ensures forall x :: x !in ks ==> Get(Merge(r), x) == Get(Merge(k), x)
  {
    Kernel(k.defaults, k.entries - ks, k.seen + ks)
  }

  /** `reset(ks)`: the keys leave both the entries and `seen`, so each one
      reverts to its current default, or to absence; other keys keep their
      value or removal. */
  function Reset<K(!new), V>(k: Kernel<K, V>, ks: set<K>): (r: Kernel<K, V>)
    ensures r.defaults == k.defaults
    ensures r.seen == k.seen - ks
    ensures r.entries.Keys == k.entries.Keys - ks
    ensures forall x :: x in r.entries ==> r.entries[x] == k.entries[x]
    ensures Valid(k) ==> Valid(r)
    ensures forall x :: x in ks ==> Get(Merge(r), x) == Get(k.defaults, x)
    ensures forall x :: x !in ks ==> Get(Merge(r), x) == Get(Merge(k), x)
  {
    Kernel(k.defaults, k.entries - ks, k.seen - ks)
  }

  /** `resetAll()`: every value and removal is forgotten; the merge is
      exactly the registered defaults. */
  function ResetAll<K(!new), V>(k: Kernel<K, V>): (r: Kernel<K, V>)
    ensures r.defaults == k.defaults
    ensures Valid(r)
    ensures Merge(r) == k.defaults
  {
    Kernel(k.defaults, map[], {})
  }

  /** `clear()`: defaults included, everything is forgotten. */
  function Clear<K(!new), V>(k: Kernel<K, V>): (r: Kernel<K, V>)
    ensures r == Fresh()
    ensures Merge(r) == map[]
  {
    Kernel(map[], map[], {})
  }

  /** `updates(fs)`: each key of `fs`, which must be present in the merge,
      is set to its transform applied to its current merged value. */
  function Updates<K(!new), V>(k: Kernel<K, V>, fs: map<K, V -> V>): (r: Kernel<K, V>)
    requires fs.Keys <= Merge(k).Keys
    ensures r.defaults == k.defaults
    ensures r.seen == k.seen + fs.Keys
    ensures Valid(k) ==> Valid(r)
    ensures forall x :: x in fs ==> x in r.entries && r.entries[x] == fs[x](Merge(k)[x])
    ensures forall x :: x in fs ==> Get(Merge(r), x) == Some(fs[x](Merge(k)[x]))
    ensures forall x :: x !in fs ==> Get(Merge(r), x) == Get(Merge(k), x)
    ensures forall x :: x !in fs ==> Get(r.entries, x) == Get(k.entries, x)
  {
    var merged := Merge(k);
    var updated := map x | x in fs :: fs[x](merged[x]);
    Kernel(k.defaults, k.entries + updated, k.seen + fs.Keys)
  }

  /** An update with no transforms changes nothing. */
  lemma UpdatesNothing<K(!new), V>(k: Kernel<K, V>)
    ensures Updates(k, map[]) == k
  {
    var none: map<K, V -> V> := map[];
    assert k.entries + map[] == k.entries;
    assert k.seen + none.Keys == k.seen;
  }

  /** The ordering rules of the kernel's contract, one kernel at a time:
      later defaults win over earlier ones. */
  lemma LaterDefaultsWin<K(!new), V>(k: Kernel<K, V>, m1: map<K, V>, m2: map<K, V>)
    ensures Defaults(Defaults(k, m1), m2) == Defaults(k, m1 + m2)
  {
    assert (k.defaults + m1) + m2 == k.defaults + (m1 + m2);
  }

  /** Defaults commute with values, remove and reset: the order of posting
      them does not change the state, hence not the merge. */
  lemma DefaultsCommute<K(!new), V>(k: Kernel<K, V>, d: map<K, V>, m: map<K, V>, ks: set<K>)
    ensures Values(Defaults(k, d), m) == Defaults(Values(k, m), d)
    ensures Remove(Defaults(k, d), ks) == Defaults(Remove(k, ks), d)
    ensures Reset(Defaults(k, d), ks) == Defaults(Reset(k, ks), d)
  {
  }

  /** Between values and remove on the same key, the later call decides:
      presence with the new value, or absence. */
  lemma ValuesRemoveLastWins<K(!new), V>(k: Kernel<K, V>, m: map<K, V>, ks: set<K>, x: K)
    requires x in m && x in ks
    ensures Get(Merge(Values(Remove(k, ks), m)), x) == Some(m[x])
    ensures x !in Merge(Remove(Values(k, m), ks))
  {
  }
}
