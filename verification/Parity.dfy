/** Parity: one slot's outputs on two backends are compared element by element, and the worst
    element decides. */
module Parity {
  import opened Options

  /** Exact numbers with the infinities and NaN; no rounding, one zero. */
  datatype Num = Fin(v: real) | Inf(positive: bool) | NaN

  function Neg(a: Num): Num {
    match a
    case Fin(v) => Fin(-v)
    case Inf(p) => Inf(!p)
    case NaN => NaN
  }

  function Add(a: Num, b: Num): Num {
    if a.NaN? || b.NaN? then NaN
    else if a.Inf? && b.Inf? then (if a == b then a else NaN)
    else if a.Inf? then a
    else if b.Inf? then b
    else Fin(a.v + b.v)
  }

  function Sub(a: Num, b: Num): Num {
    Add(a, Neg(b))
  }

  /** A finite number times another. */
  function Scale(r: real, b: Num): Num {
    match b
    case NaN => NaN
    case Inf(p) => if r == 0.0 then NaN else Inf(p == (r > 0.0))
    case Fin(v) => Fin(r * v)
  }

  function Abs(a: Num): Num {
    match a
    case Fin(v) => Fin(if v < 0.0 then -v else v)
    case Inf(_) => Inf(true)
    case NaN => NaN
  }

  /** Every comparison with NaN is false. */
  predicate Less(a: Num, b: Num) {
    match (a, b)
    case (Fin(v), Fin(w)) => v < w
    case (Fin(_), Inf(p)) => p
    case (Inf(p), Fin(_)) => !p
    case (Inf(p), Inf(q)) => !p && q
    case _ => false
  }

  predicate AtMost(a: Num, b: Num) {
    !a.NaN? && !b.NaN? && (Less(a, b) || a == b)
  }

  /** The larger; the other one when one is NaN. */
  function Max(a: Num, b: Num): Num {
    if a.NaN? then b else if b.NaN? then a else if Less(a, b) then b else a
  }

  datatype Diff = Diff(index: nat, x: Num, y: Num, err: Num, tol: Num) {
    predicate Passes() {
      AtMost(err, tol)
    }

    /** How far over its tolerance; a NaN counts as the furthest. */
    function Over(): (o: Num)
      ensures !o.NaN?
    {
      var o := Sub(err, tol);
      if o.NaN? then Inf(true) else o
    }
  }

  function Tolerance(x: Num, y: Num, atol: real, rtol: real): Num {
    Add(Fin(atol), Scale(rtol, Max(Abs(x), Abs(y))))
  }

  function DiffAt(a: seq<Num>, b: seq<Num>, atol: real, rtol: real, i: nat): Diff
    requires i < |a| && i < |b|
  {
    Diff(i, a[i], b[i], Abs(Sub(a[i], b[i])), Tolerance(a[i], b[i], atol, rtol))
  }

  function Magnitude(v: real): real {
    if v < 0.0 then -v else v
  }

  /** What passing means. Finite outputs pass when they differ by no more than `atol` and `rtol` of
      the larger one; */
  lemma FinitePassMeans(a: seq<Num>, b: seq<Num>, atol: real, rtol: real, i: nat)
    requires i < |a| && i < |b| && a[i].Fin? && b[i].Fin?
    ensures var (x, y) := (Magnitude(a[i].v), Magnitude(b[i].v));
      var tol := atol + rtol * (if x < y then y else x);
      && (DiffAt(a, b, atol, rtol, i).Passes() <==> Magnitude(a[i].v - b[i].v) <= tol)
      && DiffAt(a, b, atol, rtol, i).Over() == Fin(Magnitude(a[i].v - b[i].v) - tol)
  {
    var d := DiffAt(a, b, atol, rtol, i);
    assert d.err == Abs(Sub(a[i], b[i])) && d.tol == Tolerance(a[i], b[i], atol, rtol);
    hide *;
    FiniteTolerance(a[i].v, b[i].v, atol, rtol);
    FinitePasses(d, a[i].v, b[i].v, d.tol.v);
  }

  /** an infinity passes against anything but itself, if `rtol` is positive; a NaN never does. */
  lemma OtherPassMeans(a: seq<Num>, b: seq<Num>, atol: real, rtol: real, i: nat)
    requires i < |a| && i < |b| && !(a[i].Fin? && b[i].Fin?)
    ensures DiffAt(a, b, atol, rtol, i).Passes() <==> !a[i].NaN? && !b[i].NaN? && a[i] != b[i] && rtol > 0.0
  {
    var d := DiffAt(a, b, atol, rtol, i);
    if !a[i].NaN? && !b[i].NaN? {
      InfiniteTolerance(a[i], b[i], atol, rtol);
      hide Tolerance;
      InfinitePasses(d);
    }
  }

  lemma FinitePasses(d: Diff, x: real, y: real, tol: real)
    requires d.err == Abs(Sub(Fin(x), Fin(y))) && d.tol == Fin(tol)
    ensures d.Passes() <==> Magnitude(x - y) <= tol
    ensures d.Over() == Fin(Magnitude(x - y) - tol)
  {
  }

  lemma InfinitePasses(d: Diff)
    requires !d.x.NaN? && !d.y.NaN? && (d.x.Inf? || d.y.Inf?) && d.err == Abs(Sub(d.x, d.y)) && !d.tol.Fin?
    ensures d.Passes() <==> d.x != d.y && d.tol == Inf(true)
  {
  }

  lemma FiniteTolerance(x: real, y: real, atol: real, rtol: real)
    ensures var (p, q) := (Magnitude(x), Magnitude(y));
      Tolerance(Fin(x), Fin(y), atol, rtol) == Fin(atol + rtol * (if p < q then q else p))
  {
    var larger := Max(Abs(Fin(x)), Abs(Fin(y)));
    assert larger == Fin(if Magnitude(x) < Magnitude(y) then Magnitude(y) else Magnitude(x));
    hide Magnitude, Max, Abs;
  }

  lemma InfiniteTolerance(x: Num, y: Num, atol: real, rtol: real)
    requires !x.NaN? && !y.NaN? && (x.Inf? || y.Inf?)
    ensures Tolerance(x, y, atol, rtol) == if rtol == 0.0 then NaN else Inf(rtol > 0.0)
  {
    assert Max(Abs(x), Abs(y)) == Inf(true);
    hide Max, Abs;
  }

  function Min(m: nat, n: nat): nat {
    if m < n then m else n
  }

  /** The pairs both sides have. */
  function Pairs(a: seq<Num>, b: seq<Num>): (n: nat)
    ensures n <= |a| && n <= |b| && (n == |a| || n == |b|)
  {
    Min(|a|, |b|)
  }

  /** The first of the first `n` elements that none is further over than. */
  function WorstOf(a: seq<Num>, b: seq<Num>, atol: real, rtol: real, n: nat): Option<Diff>
    requires n <= Pairs(a, b)
  {
    if n == 0 then None
    else
      var d := DiffAt(a, b, atol, rtol, n - 1);
      match WorstOf(a, b, atol, rtol, n - 1)
      case None => Some(d)
      case Some(w) => Some(if Less(w.Over(), d.Over()) then d else w)
  }

  function Worst(a: seq<Num>, b: seq<Num>, atol: real, rtol: real): Option<Diff> {
    WorstOf(a, b, atol, rtol, Pairs(a, b))
  }

  predicate Finite(a: seq<Num>) {
    forall x | x in a :: !x.Inf?
  }

  predicate AllPass(a: seq<Num>, b: seq<Num>, atol: real, rtol: real, n: nat)
    requires n <= Pairs(a, b)
  {
    forall i | 0 <= i < n :: DiffAt(a, b, atol, rtol, i).Passes()
  }

  lemma LessIsOrder(o: Num, w: Num, d: Num)
    requires !o.NaN? && !w.NaN? && !d.NaN?
    ensures !Less(d, d)
    ensures !Less(w, o) && Less(w, d) ==> Less(o, d) && !Less(d, o)
  {
  }

  /** It is one of the elements; those before it are less far over, and none is further. */
  lemma {:induction false} WorstIsFirstFurthest(a: seq<Num>, b: seq<Num>, atol: real, rtol: real, n: nat)
    requires n <= Pairs(a, b)
    ensures
      var r := WorstOf(a, b, atol, rtol, n);
      && (r.None? <==> n == 0)
      && (r.Some? ==>
            && r.value.index < n && r.value == DiffAt(a, b, atol, rtol, r.value.index)
            && forall i | 0 <= i < n ::
                 var o := DiffAt(a, b, atol, rtol, i).Over();
                 !Less(r.value.Over(), o) && (i < r.value.index ==> Less(o, r.value.Over())))
  {
    hide Diff.Over, Less, Tolerance, Abs, Sub;
    if n > 0 {
      WorstIsFirstFurthest(a, b, atol, rtol, n - 1);
      var d := DiffAt(a, b, atol, rtol, n - 1);
      var before := WorstOf(a, b, atol, rtol, n - 1);
      forall i | 0 <= i < n - 1 && before.Some?
        ensures
          var o := DiffAt(a, b, atol, rtol, i).Over();
          Less(before.value.Over(), d.Over()) ==> Less(o, d.Over()) && !Less(d.Over(), o)
      {
        LessIsOrder(DiffAt(a, b, atol, rtol, i).Over(), before.value.Over(), d.Over());
      }
      assert !Less(d.Over(), d.Over()) by {
        LessIsOrder(d.Over(), d.Over(), d.Over());
      }
    }
  }

  /** Without infinities, passing is being no further over than 0. */
  lemma PassesByOver(a: seq<Num>, b: seq<Num>, atol: real, rtol: real, i: nat)
    requires i < |a| && i < |b| && !a[i].Inf? && !b[i].Inf?
    ensures
      var d := DiffAt(a, b, atol, rtol, i);
      && (d.Passes() <==> AtMost(d.Over(), Fin(0.0)))
      && (a[i].NaN? || b[i].NaN? ==> !d.Passes())
  {
  }

  /** Main result: when the outputs are finite or NaN, the worst element passes exactly when
      every element is within its tolerance, and a NaN anywhere makes it fail. */
  lemma WorstDecides(a: seq<Num>, b: seq<Num>, atol: real, rtol: real)
    requires |a| == |b| > 0 && Finite(a) && Finite(b)
    ensures Worst(a, b, atol, rtol).Some?
    ensures Worst(a, b, atol, rtol).value.Passes() <==> AllPass(a, b, atol, rtol, |a|)
    ensures NaN in a + b ==> !Worst(a, b, atol, rtol).value.Passes()
  {
    WorstIsFirstFurthest(a, b, atol, rtol, |a|);
    var w := Worst(a, b, atol, rtol).value;
    forall i | 0 <= i < |a|
      ensures w.Passes() ==> DiffAt(a, b, atol, rtol, i).Passes()
    {
      PassesByOver(a, b, atol, rtol, i);
      PassesByOver(a, b, atol, rtol, w.index);
    }
    if NaN in a + b {
      var k :| 0 <= k < |a + b| && (a + b)[k] == NaN;
      var i := if k < |a| then k else k - |a|;
      PassesByOver(a, b, atol, rtol, i);
    }
  }

  // ----------------------------------------------------------------------------
  // With infinities
  // ----------------------------------------------------------------------------

  /** Off by infinity, and allowed to be: within its tolerance, and yet counted as furthest. */
  predicate Runaway(d: Diff) {
    d.err == Inf(true) && d.tol == Inf(true)
  }

  predicate Furthest(d: Diff) {
    d.Over() == Inf(true)
  }

  /** Before any other furthest element stands one that is off by infinity and passes. */
  predicate Masked(a: seq<Num>, b: seq<Num>, atol: real, rtol: real)
    requires |a| == |b|
  {
    exists i | 0 <= i < |a| ::
      && Runaway(DiffAt(a, b, atol, rtol, i))
      && forall j | 0 <= j < i :: !Furthest(DiffAt(a, b, atol, rtol, j))
  }

  lemma PassesUnlessRunaway(d: Diff)
    ensures d.Passes() && !Runaway(d) && !(d.err == d.tol && d.err.Inf?) ==> AtMost(d.Over(), Fin(0.0))
    ensures !d.Passes() ==> Less(Fin(0.0), d.Over())
  {
  }

  /** On any outputs the worst element decides exactly unless it is masked: then it passes
      whatever the others are. */
  lemma WorstDecidesUnlessMasked(a: seq<Num>, b: seq<Num>, atol: real, rtol: real)
    requires |a| == |b| > 0
    ensures Worst(a, b, atol, rtol).Some?
    ensures Masked(a, b, atol, rtol) ==> Worst(a, b, atol, rtol).value.Passes()
    ensures !Masked(a, b, atol, rtol) ==> (Worst(a, b, atol, rtol).value.Passes() <==> AllPass(a, b, atol, rtol, |a|))
  {
    WorstIsFirstFurthest(a, b, atol, rtol, |a|);
    var w := Worst(a, b, atol, rtol).value;
    if Masked(a, b, atol, rtol) {
      var i :| 0 <= i < |a| && Runaway(DiffAt(a, b, atol, rtol, i))
               && forall j | 0 <= j < i :: !Furthest(DiffAt(a, b, atol, rtol, j));
      assert w.index == i;
    } else if w.Passes() {
      forall i | 0 <= i < |a|
        ensures DiffAt(a, b, atol, rtol, i).Passes()
      {
        PassesUnlessRunaway(DiffAt(a, b, atol, rtol, i));
        PassesUnlessRunaway(w);
      }
    }
  }

  /** Such outputs: an infinity against 1 hides the NaN after it. */
  lemma MaskedNaN()
    ensures
      var a, b := [Inf(true), NaN], [Fin(1.0), Fin(0.0)];
      && Worst(a, b, 0.0, 1.0).Some? && Worst(a, b, 0.0, 1.0).value.Passes() && !AllPass(a, b, 0.0, 1.0, 2)
  {
    var a, b := [Inf(true), NaN], [Fin(1.0), Fin(0.0)];
    assert Runaway(DiffAt(a, b, 0.0, 1.0, 0));
    WorstDecidesUnlessMasked(a, b, 0.0, 1.0);
    assert !DiffAt(a, b, 0.0, 1.0, 1).Passes();
  }
}
