/** Failure-compatible helper types shared by every module of the model.
    `Option` stands in for a Java reference that may be null, and `Result`
    for a call that either returns a value or throws. */
module Wrappers {

  /** A value that may be absent; `None` models a Java `null`. */
  datatype Option<+T> = None | Some(value: T)

  /** Why a delta constructor throws: a null key (a `NullPointerException`
      in the source), or an empty plain collection copied into an enum set
      or enum map, which then cannot tell its key type (an
      `IllegalArgumentException`). */
  datatype Fault = NullKey | EmptyCopy

  /** Either a constructed value or the error that stopped construction. */
  datatype Result<+T> = Success(value: T) | Failure(error: Fault) {
    predicate IsFailure() {
      Failure?
    }

    function PropagateFailure<U>(): Result<U>
      requires Failure?
    {
      Failure(error)
    }

    function Extract(): T
      requires Success?
    {
      value
    }
  }

  /** Map lookup that reports absence instead of requiring membership. */
  function Get<K, V>(m: map<K, V>, x: K): (r: Option<V>)
    ensures r.Some? <==> x in m
    ensures r.Some? ==> r.value == m[x]
  {
    if x in m then Some(m[x]) else None
  }

  /** The non-null members of a collection of possibly-null keys. */
  function NonNull<K(!new)>(s: set<Option<K>>): (r: set<K>)
    ensures forall x :: x in r <==> Some(x) in s
  {
    set o | o in s && o.Some? :: o.value
  }

  /** The entries of a map whose key is not null. */
  function NonNullEntries<K(!new), V>(m: map<Option<K>, V>): (r: map<K, V>)
    ensures forall x :: x in r <==> Some(x) in m
    ensures forall x :: x in r ==> r[x] == m[Some(x)]
  {
    map o | o in m && o.Some? :: o.value := m[o]
  }

  /** Maps that agree on every lookup are equal. */
  lemma GetExtensional<K, V>(m1: map<K, V>, m2: map<K, V>)
    requires forall x :: Get(m1, x) == Get(m2, x)
    ensures m1 == m2
  {
    forall x | x in m1 ensures x in m2 && m1[x] == m2[x] {
      assert Get(m1, x) == Get(m2, x);
    }
    forall x | x in m2 ensures x in m1 {
      assert Get(m1, x) == Get(m2, x);
    }
  }
}
