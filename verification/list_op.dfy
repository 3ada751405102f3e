/** The list operators both list builders post as deltas, and the mutator
    that applies one to the list state. */
module ListOp {
  import opened Folding

  /** `add(elem)`: appends one element and keeps the rest, in order. */
  function Add<E(!new)>(e: E): (op: seq<E> -> seq<E>)
    ensures forall l :: op(l) == l + [e]
  {
    l => l + [e]
  }

  /** `addAll(elems)`: appends the elements in order and keeps the rest. */
  function AddAll<E(!new)>(es: seq<E>): (op: seq<E> -> seq<E>)
    ensures forall l :: op(l) == l + es
  {
    l => l + es
  }

  /** `clear()`: the empty list, whatever came before. */
  function Clear<E>(): seq<E> -> seq<E>
  {
    l => []
  }

  /** `clear()` yields the empty list, whatever came before. */
  lemma ClearEmpties<E>(l: seq<E>)
    ensures Clear<E>()(l) == []
  {
  }

  /** The builders' mutator: the operator applied to the list. */
  function ApplyOp<E>(l: seq<E>, op: seq<E> -> seq<E>): seq<E>
  {
    op(l)
  }

  /** Posts operators in order, starting from `l`. */
  function Run<E>(l: seq<E>, ops: seq<seq<E> -> seq<E>>): seq<E>
  {
    FoldSeq<seq<E>, seq<E> -> seq<E>>(l, ops, ApplyOp<E>)
  }

  /** One `add` operator per element, in order. */
  function Adds<E(!new)>(es: seq<E>): (ops: seq<seq<E> -> seq<E>>)
    ensures |ops| == |es|
    ensures forall i :: 0 <= i < |es| ==> ops[i] == Add(es[i])
  {
    seq(|es|, i requires 0 <= i < |es| => Add(es[i]))
  }

  /** Posting one `add` per element appends all of them in posting order:
      the same list `addAll` gives at once. */
  lemma {:induction false} AddsAppendInOrder<E(!new)>(l: seq<E>, es: seq<E>)
    ensures Run(l, Adds(es)) == l + es
    ensures Run(l, Adds(es)) == AddAll(es)(l)
    decreases |es|
  {
    if |es| > 0 {
      var pre := es[..|es| - 1];
      var ops := Adds(es);
      assert ops[..|ops| - 1] == Adds(pre);
      AddsAppendInOrder(l, pre);
      var last := es[|es| - 1];
      assert es == pre + [last];
      assert ops[|ops| - 1] == Add(last);
      assert Run(l, ops) == ApplyOp(Run(l, ops[..|ops| - 1]), ops[|ops| - 1]);
      assert Add(last)(l + pre) == l + pre + [last];
    } else {
      assert l + es == l;
    }
  }

  /** A clear anywhere in a sequence of operators discards everything
      posted before it. */
  lemma ClearDiscardsEarlier<E(!new)>(l: seq<E>, l2: seq<E>, before: seq<seq<E> -> seq<E>>,
                                      after: seq<seq<E> -> seq<E>>)
    ensures Run(l, before + [Clear()] + after) == Run(l2, [Clear()] + after)
  {
    var c: seq<seq<E> -> seq<E>> := [Clear<E>()];
    FoldAppend(l, before + c, after, ApplyOp<E>);
    FoldAppend(l2, c, after, ApplyOp<E>);
    FoldAppend(l, before, c, ApplyOp<E>);
    FoldSingle(Run(l, before), Clear<E>(), ApplyOp<E>);
    FoldSingle(l2, Clear<E>(), ApplyOp<E>);
  }
}
