/** The enum-keyed builder's collaborators: a supplier of fresh kernels,
    the constructor adapter and the mutator. */
module EnumHelper {
  import MK = MapKernel
  import EK = EnumMapKernel
  import ED = EnumDelta

  /** `initializer(keyType)`: every call supplies a new, empty kernel. */
  function Initializer<K(!new), V>(): MK.Kernel<K, V>
  {
    EK.New()
  }

  /** The initializer gives a valid kernel that merges to the empty map. */
  lemma InitializerIsEmpty<K(!new), V>(k: MK.Kernel<K, V>)
    requires k == Initializer()
    ensures MK.Valid(k) && EK.Merge(k) == map[]
  {
  }

  /** `adaptConstructor(c)`: the constructor applied to the kernel's merge. */
  function AdaptConstructor<K(!new), V, X>(c: map<K, V> -> X): MK.Kernel<K, V> -> X
  {
    k => c(EK.Merge(k))
  }

  /** The adapted constructor only reads the kernel: it sees its merge. */
  lemma AdaptedConstructorUsesMerge<K(!new), V, X>(c: map<K, V> -> X, k: MK.Kernel<K, V>)
    ensures AdaptConstructor(c)(k) == c(EK.Merge(k))
    ensures AdaptConstructor(c)(k) == c(MK.Merge(k))
  {
  }

  /** `mutate(kernel, delta)`: the delta applied, the kernel returned. */
  function Mutate<K(!new), V>(k: MK.Kernel<K, V>, d: ED.Delta<K, V>): (r: MK.Kernel<K, V>)
    ensures r == ED.ApplyTo(d, k)
    ensures MK.Valid(k) ==> MK.Valid(r)
  {
    ED.ApplyTo(d, k)
  }
}
