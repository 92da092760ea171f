/** The two list shapes the engine is built from: a loop that appends an item
    for some inputs and skips the others (the `try ... except: continue` and
    `if ...: append` loops), and nested loops that concatenate per-item
    results. */
module Seqs {
  import opened Wrappers

  /** Keep `f(x)` for every `x` where it is present, in input order. */
  function FilterMap<A(!new), B(!new)>(xs: seq<A>, f: A -> Option<B>): (r: seq<B>)
    ensures |r| <= |xs|
    ensures forall b :: b in r <==> exists x :: x in xs && f(x) == Some(b)
  {
    if |xs| == 0 then []
    else
      var rest := FilterMap(xs[1..], f);
      assert forall x :: x in xs <==> x == xs[0] || x in xs[1..];
      match f(xs[0])
      case Some(b) => [b] + rest
      case None => rest
  }

  /** Filtering a concatenation filters each part and keeps them in order. */
  lemma {:induction false} FilterMapAppend<A(!new), B(!new)>(xs: seq<A>, ys: seq<A>, f: A -> Option<B>)
    ensures FilterMap(xs + ys, f) == FilterMap(xs, f) + FilterMap(ys, f)
  {
    if |xs| == 0 {
      assert xs + ys == ys;
    } else {
      assert (xs + ys)[1..] == xs[1..] + ys;
      FilterMapAppend(xs[1..], ys, f);
    }
  }

  /** The number of inputs for which `f` yields a value. */
  function CountPresent<A(!new), B(!new)>(xs: seq<A>, f: A -> Option<B>): nat {
    if |xs| == 0 then 0 else (if f(xs[0]).Some? then 1 else 0) + CountPresent(xs[1..], f)
  }

  /** One output per input that yields a value. */
  lemma {:induction false} FilterMapLength<A(!new), B(!new)>(xs: seq<A>, f: A -> Option<B>)
    ensures |FilterMap(xs, f)| == CountPresent(xs, f)
  {
    if |xs| > 0 {
      FilterMapLength(xs[1..], f);
    }
  }

  /** `[f(x) for x in xs]`. */
  function Map<A, B>(xs: seq<A>, f: A -> B): (r: seq<B>)
    ensures |r| == |xs|
    ensures forall i | 0 <= i < |xs| :: r[i] == f(xs[i])
  {
    if |xs| == 0 then [] else [f(xs[0])] + Map(xs[1..], f)
  }

  /** The concatenation of `f(x)` over `xs`, in order. */
  function FlatMap<A(!new), B(!new)>(xs: seq<A>, f: A -> seq<B>): (r: seq<B>)
    ensures forall b :: b in r <==> exists x :: x in xs && b in f(x)
  {
    if |xs| == 0 then []
    else
      var rest := FlatMap(xs[1..], f);
      assert forall x :: x in xs <==> x == xs[0] || x in xs[1..];
      f(xs[0]) + rest
  }

  /** Flattening a concatenation flattens each part and keeps them in order. */
  lemma {:induction false} FlatMapAppend<A(!new), B(!new)>(xs: seq<A>, ys: seq<A>, f: A -> seq<B>)
    ensures FlatMap(xs + ys, f) == FlatMap(xs, f) + FlatMap(ys, f)
  {
    if |xs| == 0 {
      assert xs + ys == ys;
    } else {
      assert (xs + ys)[1..] == xs[1..] + ys;
      FlatMapAppend(xs[1..], ys, f);
    }
  }
}
