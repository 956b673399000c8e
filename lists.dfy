/**
 * `Array.prototype.filter` and what it promises: the kept elements are
 * exactly those the predicate accepts, in their original order.
 */
module Lists {

  /** `xs` is `ys` with some elements left out, the rest in order. */
  predicate IsSublist<T(==)>(xs: seq<T>, ys: seq<T>)
    decreases |ys|
  {
    if xs == [] then true
    else if ys == [] then false
    else (xs[0] == ys[0] && IsSublist(xs[1..], ys[1..])) || IsSublist(xs, ys[1..])
  }

  lemma {:induction false} SublistLength<T>(xs: seq<T>, ys: seq<T>)
    requires IsSublist(xs, ys)
    ensures |xs| <= |ys|
    decreases |ys|
  {
    if xs != [] {
      if xs[0] == ys[0] && IsSublist(xs[1..], ys[1..]) {
        SublistLength(xs[1..], ys[1..]);
      } else {
        SublistLength(xs, ys[1..]);
      }
    }
  }

  lemma {:induction false} SublistRefl<T>(xs: seq<T>)
    ensures IsSublist(xs, xs)
    decreases |xs|
  {
    if xs != [] {
      SublistRefl(xs[1..]);
    }
  }

  /** `xs.filter(keep)`. */
  function Filter<T(==,!new)>(xs: seq<T>, keep: T -> bool): (r: seq<T>)
    ensures IsSublist(r, xs)
    ensures forall x :: x in r <==> x in xs && keep(x)
    ensures forall k :: 0 <= k < |r| ==> keep(r[k])
    ensures forall x :: multiset(r)[x] == if keep(x) then multiset(xs)[x] else 0
    decreases |xs|
  {
    if xs == [] then []
    else
      var rest := Filter(xs[1..], keep);
      assert forall x :: x in xs <==> x == xs[0] || x in xs[1..];
      assert xs == [xs[0]] + xs[1..];
      assert multiset(xs) == multiset([xs[0]]) + multiset(xs[1..]);
      if keep(xs[0]) then
        assert ([xs[0]] + rest)[1..] == rest;
        [xs[0]] + rest
      else rest
  }

  /** A filter that keeps everything is the identity. */
  lemma {:induction false} FilterAll<T(!new)>(xs: seq<T>, keep: T -> bool)
    requires forall k :: 0 <= k < |xs| ==> keep(xs[k])
    ensures Filter(xs, keep) == xs
    decreases |xs|
  {
    if xs != [] {
      FilterAll(xs[1..], keep);
    }
  }

  /** `ys` is `xs` mapped through `f`, element by element. */
  ghost predicate IsMapped<A, B>(ys: seq<B>, xs: seq<A>, f: A --> B) {
    |ys| == |xs| && forall k :: 0 <= k < |xs| ==> f.requires(xs[k]) && ys[k] == f(xs[k])
  }

  /** Mapping commutes with putting one element in front. */
  lemma {:induction false} MappedCons<A, B>(x: A, xs: seq<A>, ys: seq<B>, f: A --> B)
    requires f.requires(x) && IsMapped(ys, xs, f)
    ensures IsMapped([f(x)] + ys, [x] + xs, f)
  {
    forall k | 1 <= k < |xs| + 1
      ensures f.requires(([x] + xs)[k]) && ([f(x)] + ys)[k] == f(([x] + xs)[k])
    {
      assert ([x] + xs)[k] == xs[k - 1] && ([f(x)] + ys)[k] == ys[k - 1];
    }
  }
}
