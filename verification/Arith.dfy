/** Abstract numbers. A kernel's result is stated over any `add` and `mul`; each
    theorem names the laws it needs, so that none silently assumes more of a
    rounded float than it must. */
module Arith {

  datatype Arith<!T> = Arith(zero: T, add: (T, T) -> T, mul: (T, T) -> T)

  /** What a ragged last tile needs: its padding only adds products of zeros. */
  ghost predicate PaddingIsNeutral<T(!new)>(a: Arith<T>) {
    forall x :: a.add(x, a.mul(a.zero, a.zero)) == x
  }

  /** What a tree reduction needs: terms may be regrouped and reordered, and the
      slots past the input add nothing. */
  ghost predicate IsCommutativeMonoid<T(!new)>(a: Arith<T>) {
    && (forall x, y, z :: a.add(a.add(x, y), z) == a.add(x, a.add(y, z)))
    && (forall x, y :: a.add(x, y) == a.add(y, x))
    && (forall x :: a.add(x, a.zero) == x)
  }

  /** The left fold `((0 + xs[0]) + xs[1]) + ...`: the order in which a single thread adds. */
  function SumOf<T>(a: Arith<T>, xs: seq<T>): T {
    if xs == [] then a.zero else a.add(SumOf(a, xs[..|xs| - 1]), xs[|xs| - 1])
  }

  lemma SumSnoc<T>(a: Arith<T>, xs: seq<T>, x: T)
    ensures SumOf(a, xs + [x]) == a.add(SumOf(a, xs), x)
  {
    assert (xs + [x])[..|xs|] == xs;
  }

  lemma Regroup<T(!new)>(a: Arith<T>, x: T, y: T, z: T)
    requires IsCommutativeMonoid(a)
    ensures a.add(a.add(x, y), z) == a.add(x, a.add(y, z))
  {
  }

  lemma {:induction false} SumConcat<T(!new)>(a: Arith<T>, xs: seq<T>, ys: seq<T>)
    requires IsCommutativeMonoid(a)
    ensures SumOf(a, xs + ys) == a.add(SumOf(a, xs), SumOf(a, ys))
    decreases |ys|
  {
    if ys == [] {
      assert xs + ys == xs;
    } else {
      hide IsCommutativeMonoid, SumOf;
      var n := |ys| - 1;
      var front, last := ys[..n], ys[n];
      SumConcat(a, xs, front);
      assert ys == front + [last] && xs + ys == (xs + front) + [last];
      SumSnoc(a, front, last);
      SumSnoc(a, xs + front, last);
      Regroup(a, SumOf(a, xs), SumOf(a, front), last);
    }
  }

  /** Adding pair by pair, then up, is adding everything up. */
  lemma {:induction false} SumPairwise<T(!new)>(a: Arith<T>, xs: seq<T>, ys: seq<T>, zs: seq<T>)
    requires IsCommutativeMonoid(a) && |xs| == |ys| == |zs|
    requires forall k | 0 <= k < |zs| :: zs[k] == a.add(xs[k], ys[k])
    ensures SumOf(a, zs) == SumOf(a, xs + ys)
    decreases |xs|
  {
    SumConcat(a, xs, ys);
    if xs != [] {
      var n := |xs| - 1;
      SumPairwise(a, xs[..n], ys[..n], zs[..n]);
      SumConcat(a, xs[..n], ys[..n]);
      Swap(a, SumOf(a, xs[..n]), SumOf(a, ys[..n]), xs[n], ys[n]);
    }
  }

  lemma Swap<T(!new)>(a: Arith<T>, x: T, y: T, u: T, v: T)
    requires IsCommutativeMonoid(a)
    ensures a.add(a.add(x, y), a.add(u, v)) == a.add(a.add(x, u), a.add(y, v))
  {
    calc {
      a.add(a.add(x, y), a.add(u, v));
      a.add(x, a.add(y, a.add(u, v)));
      { assert a.add(a.add(y, u), v) == a.add(y, a.add(u, v)); }
      a.add(x, a.add(a.add(u, y), v));
      { assert a.add(a.add(u, y), v) == a.add(u, a.add(y, v)); }
      a.add(x, a.add(u, a.add(y, v)));
      a.add(a.add(x, u), a.add(y, v));
    }
  }

  /** Zeros past the end add nothing. */
  lemma {:induction false} SumPadded<T(!new)>(a: Arith<T>, xs: seq<T>, zs: seq<T>)
    requires IsCommutativeMonoid(a) && |xs| <= |zs|
    requires forall k | 0 <= k < |zs| :: zs[k] == if k < |xs| then xs[k] else a.zero
    ensures SumOf(a, zs) == SumOf(a, xs)
    decreases |zs|
  {
    if |zs| == |xs| {
      assert zs == xs;
    } else {
      SumPadded(a, xs, zs[..|zs| - 1]);
    }
  }
}
