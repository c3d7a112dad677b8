// Shared vocabulary: entities, optional values and finite sums over sequences.
module Wrappers {

  type Entity = string

  datatype Option<+T> = None | Some(value: T)

  /** The sum of f over the elements of xs. */
  ghost function Total<A>(xs: seq<A>, f: A -> nat): nat {
    if xs == [] then 0 else f(xs[0]) + Total(xs[1..], f)
  }

  /** Replacing one element changes a sum by the difference at that element. */
  lemma {:induction false} TotalUpdate<A>(xs: seq<A>, i: nat, x: A, f: A -> nat)
    requires i < |xs|
    ensures Total(xs[i := x], f) + f(xs[i]) == Total(xs, f) + f(x)
  {
    if i == 0 {
      assert xs[0 := x][1..] == xs[1..];
    } else {
      assert xs[i := x][1..] == xs[1..][i - 1 := x];
      TotalUpdate(xs[1..], i - 1, x, f);
    }
  }

  /** A sum is at least any one of its terms. */
  lemma {:induction false} TotalAtLeast<A>(xs: seq<A>, i: nat, f: A -> nat)
    requires i < |xs|
    ensures f(xs[i]) <= Total(xs, f)
  {
    if i > 0 {
      TotalAtLeast(xs[1..], i - 1, f);
    }
  }

  /** Term by term bounds add up. */
  lemma {:induction false} TotalBound<A>(xs: seq<A>, f: A -> nat, g: A -> nat)
    requires forall i :: 0 <= i < |xs| ==> f(xs[i]) <= g(xs[i])
    ensures Total(xs, f) <= Total(xs, g)
  {
    if xs != [] {
      assert forall i :: 0 <= i < |xs[1..]| ==> xs[1..][i] == xs[i + 1];
      TotalBound(xs[1..], f, g);
    }
  }

  /** The sum of a constant. */
  lemma {:induction false} TotalConst<A>(xs: seq<A>, f: A -> nat, c: nat)
    requires forall i :: 0 <= i < |xs| ==> f(xs[i]) == c
    ensures Total(xs, f) == c * |xs|
  {
    if xs != [] {
      assert forall i :: 0 <= i < |xs[1..]| ==> xs[1..][i] == xs[i + 1];
      TotalConst(xs[1..], f, c);
    }
  }

  /** Sums of sums. */
  lemma {:induction false} TotalPlus<A>(xs: seq<A>, f: A -> nat, g: A -> nat, h: A -> nat)
    requires forall i :: 0 <= i < |xs| ==> h(xs[i]) == f(xs[i]) + g(xs[i])
    ensures Total(xs, h) == Total(xs, f) + Total(xs, g)
  {
    if xs != [] {
      assert forall i :: 0 <= i < |xs[1..]| ==> xs[1..][i] == xs[i + 1];
      TotalPlus(xs[1..], f, g, h);
    }
  }

  /** Sums split over concatenation. */
  lemma {:induction false} TotalConcat<A>(xs: seq<A>, ys: seq<A>, f: A -> nat)
    ensures Total(xs + ys, f) == Total(xs, f) + Total(ys, f)
  {
    if xs == [] {
      assert xs + ys == ys;
    } else {
      assert (xs + ys)[1..] == xs[1..] + ys;
      TotalConcat(xs[1..], ys, f);
    }
  }

  lemma TotalOne<A>(x: A, f: A -> nat)
    ensures Total([x], f) == f(x)
  {
    assert [x][1..] == [];
  }

  lemma TotalCons<A>(x: A, xs: seq<A>, f: A -> nat)
    ensures Total([x] + xs, f) == f(x) + Total(xs, f)
  {
    assert ([x] + xs)[1..] == xs;
  }
}
