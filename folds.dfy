/**
 * The list combinators the compiler is written with: `Ramda.reduce` (a left
 * fold with an accumulator), `Ramda.find`, and the plain concatenation that
 * a string-building reduce amounts to.
 */
module Folds {
  import opened Config
  import opened Text

  /** `Ramda.reduce(f, accum, xs)`: feed the elements of `xs` to `f` from left to right. */
  function Reduce<A, B>(f: (B, A) -> B, accum: B, xs: seq<A>): B
    decreases |xs|
  {
    if xs == [] then accum else Reduce(f, f(accum, xs[0]), xs[1..])
  }

  /** Reference definition: the concatenation of `g(x)` over `xs`, in order. */
  function ConcatMap<A>(g: A -> string, xs: seq<A>): string
    decreases |xs|
  {
    if xs == [] then "" else g(xs[0]) + ConcatMap(g, xs[1..])
  }

  /** `Ramda.find(p, xs)`: the first element satisfying `p`, or nothing. */
  function Find<T>(p: T -> bool, xs: seq<T>): (r: Option<T>)
    ensures r.Some? <==> exists i :: 0 <= i < |xs| && p(xs[i])
    ensures r.Some? ==> r.value in xs && p(r.value)
    ensures r.Some? ==> exists i :: 0 <= i < |xs| && xs[i] == r.value && forall j :: 0 <= j < i ==> !p(xs[j])
    decreases |xs|
  {
    if xs == [] then None
    else if p(xs[0]) then Some(xs[0])
    else
      var r := Find(p, xs[1..]);
      assert forall i :: 1 <= i < |xs| ==> xs[i] == xs[1..][i - 1];
      r
  }

  /** Taking the last element off: `reduce` over `xs + [x]` is one more step of `f`. */
  lemma {:induction false} ReduceSnoc<A, B>(f: (B, A) -> B, accum: B, xs: seq<A>, x: A)
    ensures Reduce(f, accum, xs + [x]) == f(Reduce(f, accum, xs), x)
    decreases |xs|
  {
    if xs == [] {
      assert [x][1..] == [];
    } else {
      assert (xs + [x])[1..] == xs[1..] + [x];
      ReduceSnoc(f, f(accum, xs[0]), xs[1..], x);
    }
  }

  /**
   * A reducer that only appends `g(x)` to its accumulator folds to the
   * accumulator followed by the concatenation of `g` over the list.
   */
  lemma {:induction false} ReduceAppends<A>(f: (string, A) -> string, g: A -> string, accum: string, xs: seq<A>)
    requires forall acc, x :: f(acc, x) == acc + g(x)
    ensures Reduce(f, accum, xs) == accum + ConcatMap(g, xs)
    decreases |xs|
  {
    if xs != [] {
      ReduceAppends(f, g, accum + g(xs[0]), xs[1..]);
    }
  }

  /** Every part of a concatenation occurs in it. */
  lemma {:induction false} ConcatMapOccurs<A>(g: A -> string, xs: seq<A>, i: nat)
    requires i < |xs|
    ensures Occurs(g(xs[i]), ConcatMap(g, xs))
    decreases |xs|
  {
    if i == 0 {
      OccursAt("", g(xs[0]), ConcatMap(g, xs[1..]));
      assert "" + g(xs[0]) + ConcatMap(g, xs[1..]) == ConcatMap(g, xs);
    } else {
      ConcatMapOccurs(g, xs[1..], i - 1);
      OccursWithin(g(xs[i]), g(xs[0]), ConcatMap(g, xs[1..]), "");
      assert g(xs[0]) + ConcatMap(g, xs[1..]) + "" == ConcatMap(g, xs);
    }
  }

  lemma ConcatMapSingle<A>(g: A -> string, a: A)
    ensures ConcatMap(g, [a]) == g(a)
  {
    assert [a][1..] == [];
  }

  lemma ConcatMapPair<A>(g: A -> string, a: A, b: A)
    ensures ConcatMap(g, [a, b]) == g(a) + g(b)
  {
    assert [a, b][1..] == [b];
    ConcatMapSingle(g, b);
  }

  lemma ConcatMapTriple<A>(g: A -> string, a: A, b: A, c: A)
    ensures ConcatMap(g, [a, b, c]) == g(a) + g(b) + g(c)
  {
    assert [a, b, c][1..] == [b, c];
    ConcatMapPair(g, b, c);
  }
}
