/** The glue between the generic builders and the map kernel: the
    mutator that applies a delta and the adapter that turns a result
    constructor over maps into one over kernels. */
module MapHelper {
  import opened MapKernel
  import opened MapDelta

  /** `adaptConstructor(c)`: a constructor over kernels that passes the
      kernel's merge to `c`. Building a result reads the kernel only. */
  function AdaptConstructor<K(!new), V, X>(c: map<K, V> -> X): Kernel<K, V> -> X
  {
    k => c(Merge(k))
  }

  /** The adapted constructor applied to a kernel is `c` of its merge. */
  lemma AdaptedConstructorUsesMerge<K(!new), V, X>(c: map<K, V> -> X, k: Kernel<K, V>)
    ensures AdaptConstructor(c)(k) == c(Merge(k))
  {
  }

  /** `mutate(kernel, delta)`: applies the delta and hands back the kernel
      it was given, now carrying the delta's effect. */
  function Mutate<K(!new), V>(k: Kernel<K, V>, d: Delta<K, V>): (r: Kernel<K, V>)
    ensures r == ApplyTo(d, k)
    ensures Valid(k) ==> Valid(r)
  {
    ApplyTo(d, k)
  }
}
