/** The generic persistent builder. Every posting operation returns a new
    builder that owns one new link and shares its predecessor's chain; a
    result is computed by replaying the whole chain, oldest delta first,
    over a freshly initialised state. */
module ImmutableBuilder {
  import opened Folding
  import opened TextExample

  /** A backward-linked, never-mutated delta history. `Root` is the empty
      chain of a root builder. */
  datatype Chain<D> = Root | Link(delta: D, previous: Chain<D>)

  /** The deltas of a chain, oldest first. */
  function Deltas<D>(c: Chain<D>): seq<D>
  {
    match c
    case Root => []
    case Link(d, p) => Deltas(p) + [d]
  }

  /** The source's fold: recurse to the oldest link, then apply each delta
      on the way back. It equals reversing the chain and left-folding. */
  function Fold<T, D>(initial: T, c: Chain<D>, mutator: (T, D) -> T): (r: T)
    ensures r == FoldSeq(initial, Deltas(c), mutator)
  {
    match c
    case Root => initial
    case Link(d, p) =>
      assert Deltas(c)[..|Deltas(c)| - 1] == Deltas(p);
      mutator(Fold(initial, p, mutator), d)
  }

  /** A builder: its chain head plus what every builder derived from it
      shares (initializer and mutator make up the replay; the two
      constructors turn the replayed state into results). */
  datatype Builder<!T, !D, R, P> = Builder(
    head: Chain<D>,
    initializer: () -> T,
    mutator: (T, D) -> T,
    parentConstructor: T -> P,
    rootConstructor: T -> R)

  /** The replayed state: a fresh initializer value folded through the chain. */
  function Replay<T, D, R, P>(b: Builder<T, D, R, P>): T
  {
    Fold(b.initializer(), b.head, b.mutator)
  }

  /** The root constructor: an empty chain over the given collaborators. */
  function NewRoot<T, D, R, P>(initializer: () -> T, mutator: (T, D) -> T,
                               parentConstructor: T -> P, rootConstructor: T -> R): (b: Builder<T, D, R, P>)
    ensures Deltas(b.head) == []
    ensures Replay(b) == initializer()
    ensures b.initializer == initializer && b.mutator == mutator
    ensures b.parentConstructor == parentConstructor && b.rootConstructor == rootConstructor
  {
    Builder(Root, initializer, mutator, parentConstructor, rootConstructor)
  }

  /** The derived-builder constructor: one new link on top of `previous`,
      everything else inherited. */
  function Derive<T, D, R, P>(previous: Builder<T, D, R, P>, delta: D): (b: Builder<T, D, R, P>)
    ensures Deltas(b.head) == Deltas(previous.head) + [delta]
    ensures Replay(b) == previous.mutator(Replay(previous), delta)
    ensures b.initializer == previous.initializer && b.mutator == previous.mutator
    ensures b.parentConstructor == previous.parentConstructor
    ensures b.rootConstructor == previous.rootConstructor
  {
    previous.(head := Link(delta, previous.head))
  }

  /** `build()`: the root constructor over the replay of exactly this
      builder's deltas, oldest first. */
  function Build<T, D, R, P>(b: Builder<T, D, R, P>): (r: R)
    ensures r == b.rootConstructor(FoldSeq(b.initializer(), Deltas(b.head), b.mutator))
  {
    b.rootConstructor(Replay(b))
  }

  /** `done()`: the parent constructor over the same replayed state. */
  function Done<T, D, R, P>(b: Builder<T, D, R, P>): (r: P)
    ensures r == b.parentConstructor(FoldSeq(b.initializer(), Deltas(b.head), b.mutator))
  {
    b.parentConstructor(Replay(b))
  }

  /** Derives once per delta of `ds`, in order, as a caller chaining posting
      operations does. */
  function DeriveAll<T, D, R, P>(b: Builder<T, D, R, P>, ds: seq<D>): (r: Builder<T, D, R, P>)
    ensures Deltas(r.head) == Deltas(b.head) + ds
    ensures Replay(r) == FoldSeq(Replay(b), ds, b.mutator)
    ensures r.initializer == b.initializer && r.mutator == b.mutator
    ensures r.parentConstructor == b.parentConstructor && r.rootConstructor == b.rootConstructor
    decreases |ds|
  {
    if |ds| == 0 then b
    else
      var prefix := DeriveAll(b, ds[..|ds| - 1]);
      assert Deltas(b.head) + ds == Deltas(b.head) + ds[..|ds| - 1] + [ds[|ds| - 1]];
      Derive(prefix, ds[|ds| - 1])
  }

  /** Persistence: however a builder is extended, its own result is the fold
      of the prefix it shares with every descendant, and each descendant's
      state is built on top of it. */
  lemma {:induction false} DescendantSharesPrefix<T, D, R, P>(b: Builder<T, D, R, P>, ds: seq<D>)
    ensures Deltas(DeriveAll(b, ds).head)[..|Deltas(b.head)|] == Deltas(b.head)
    ensures Build(b) == b.rootConstructor(FoldSeq(b.initializer(), Deltas(DeriveAll(b, ds).head)[..|Deltas(b.head)|], b.mutator))
    ensures Done(b) == b.parentConstructor(FoldSeq(b.initializer(), Deltas(DeriveAll(b, ds).head)[..|Deltas(b.head)|], b.mutator))
    ensures Replay(DeriveAll(b, ds)) == FoldSeq(Replay(b), ds, b.mutator)
  {
    var d := DeriveAll(b, ds);
    assert (Deltas(b.head) + ds)[..|Deltas(b.head)|] == Deltas(b.head);
  }

  /** The string-appending example: posting "Hi" then " World" to a root
      over the empty string yields "Hi World" through either constructor. */
  lemma AppendsInPostingOrder(parentConstructor: string -> string, rootConstructor: string -> string)
    ensures var b := Derive(Derive(NewRoot(EmptyText, AppendText, parentConstructor, rootConstructor), "Hi"), " World");
            Done(b) == parentConstructor("Hi World") && Build(b) == rootConstructor("Hi World")
  {
    var b := Derive(Derive(NewRoot(EmptyText, AppendText, parentConstructor, rootConstructor), "Hi"), " World");
    assert Replay(b) == AppendText(AppendText(EmptyText(), "Hi"), " World");
    assert AppendText(AppendText(EmptyText(), "Hi"), " World") == "Hi World";
  }
}
