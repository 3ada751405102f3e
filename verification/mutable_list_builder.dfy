/** The mutable list builder: a mutable builder whose state starts as the
    empty list and whose deltas are list operators. */
module MutableListBuilder {
  import opened Folding
  import ListOp
  import MB = MutableBuilder

  type Builder<!E, P> = MB.Builder<seq<E>, seq<E> -> seq<E>, P>

  /** The initial list. */
  function EmptyList<E>(): seq<E> { [] }

  /** How every list builder is wired: operators are applied to the list. */
  ghost predicate Wired<E, P>(b: Builder<E, P>)
  {
    b.mutator == ListOp.ApplyOp
  }

  /** The constructor: an empty list, handed to the constructor on merge. */
  function New<E, P>(make: seq<E> -> P): (b: Builder<E, P>)
    ensures Wired(b)
    ensures b.state == []
    ensures MB.Merge(b) == make([])
  {
    MB.New(EmptyList, ListOp.ApplyOp, make)
  }

  /** `doAdd(elem)`. */
  function DoAdd<E(!new), P>(b: Builder<E, P>, e: E): (r: Builder<E, P>)
    requires Wired(b)
    ensures Wired(r) && r.construct == b.construct
    ensures |r.state| == |b.state| + 1 && r.state[..|b.state|] == b.state && r.state[|b.state|] == e
  {
    MB.Apply(b, ListOp.Add(e))
  }

  /** `doAddAll(elems)`. */
  function DoAddAll<E(!new), P>(b: Builder<E, P>, es: seq<E>): (r: Builder<E, P>)
    requires Wired(b)
    ensures Wired(r) && r.construct == b.construct
    ensures |r.state| == |b.state| + |es| && r.state[..|b.state|] == b.state && r.state[|b.state|..] == es
  {
    MB.Apply(b, ListOp.AddAll(es))
  }

  /** `doClear()`. */
  function DoClear<E(!new), P>(b: Builder<E, P>): (r: Builder<E, P>)
    requires Wired(b)
    ensures Wired(r) && r.construct == b.construct
    ensures r.state == []
  {
    MB.Apply(b, ListOp.Clear())
  }

  /** `doAdd` once per element, in order. */
  function AddEach<E(!new), P>(b: Builder<E, P>, es: seq<E>): (r: Builder<E, P>)
    requires Wired(b)
    ensures Wired(r) && r.construct == b.construct
    ensures r.state == b.state + es
    decreases |es|
  {
    if |es| == 0 then b
    else
      var r := DoAdd(AddEach(b, es[..|es| - 1]), es[|es| - 1]);
      assert r.state == b.state + es[..|es| - 1] + [es[|es| - 1]];
      assert es[..|es| - 1] + [es[|es| - 1]] == es;
      r
  }

  /** Element-by-element adds and one `doAddAll` leave the same list. */
  lemma AddEachIsAddAll<E(!new), P>(b: Builder<E, P>, es: seq<E>)
    requires Wired(b)
    ensures AddEach(b, es).state == DoAddAll(b, es).state
  {
  }

  /** The addAll example: after adding "one" and "two", an addAll of "v1", "v2" merges to all four, in posting order. */
  lemma AddAllAfterAdds<P>(make: seq<string> -> P)
    ensures MB.Merge(DoAddAll(DoAdd(DoAdd(New(make), "one"), "two"), ["v1", "v2"])) == make(["one", "two", "v1", "v2"])
  {
    var b1 := DoAdd(DoAdd(New(make), "one"), "two");
    TwoAdds(make, "one", "two");
    var b2 := DoAddAll(b1, ["v1", "v2"]);
    assert b2.state == b2.state[..2] + b2.state[2..];
    assert b2.state == ["one", "two"] + ["v1", "v2"];
    assert ["one", "two"] + ["v1", "v2"] == ["one", "two", "v1", "v2"];
  }

  /** The add-more example: a third add after "one" and "two" lands last. */
  lemma AddMoreInOrder<P>(make: seq<string> -> P)
    ensures MB.Merge(DoAdd(DoAdd(DoAdd(New(make), "one"), "two"), "Value")) == make(["one", "two", "Value"])
  {
    TwoAdds(make, "one", "two");
    var b := DoAdd(DoAdd(DoAdd(New(make), "one"), "two"), "Value");
    assert b.state == b.state[..2] + [b.state[2]];
    assert ["one", "two"] + ["Value"] == ["one", "two", "Value"];
  }

  /** Two adds to a new builder leave exactly those two elements, in order. */
  lemma TwoAdds<E(!new), P>(make: seq<E> -> P, x: E, y: E)
    ensures DoAdd(DoAdd(New(make), x), y).state == [x, y]
  {
  }
}
