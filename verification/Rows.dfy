/** Finite probability rows and the weighted sums taken over them.

A row holds one real weight per vocabulary entry.  Every sum is a function of an explicit
upper index, so that each fact about sums is one induction on that index.  Products of reals
go through `Times`, which the inductions hide: they only use the laws proved at the top. */
module Rows {

  type Token = nat
  type Row = seq<real>

  // ------------------------------------------------------------------ real arithmetic

  function Abs(x: real): real { if x < 0.0 then -x else x }

  function Min(x: real, y: real): real { if x < y then x else y }

  function Max(x: real, y: real): real { if x < y then y else x }

  function Times(x: real, y: real): real { x * y }

  function Ratio(x: real, y: real): real
    requires y != 0.0
  {
    x / y
  }

  lemma TimesSum(x: real, y: real, z: real)
    ensures Times(x, y + z) == Times(x, y) + Times(x, z)
    ensures Times(y + z, x) == Times(y, x) + Times(z, x)
  {}

  lemma TimesDifference(x: real, y: real, z: real)
    ensures Times(x, y - z) == Times(x, y) - Times(x, z)
    ensures Times(y - z, x) == Times(y, x) - Times(z, x)
  {}

  lemma TimesCommute(x: real, y: real)
    ensures Times(x, y) == Times(y, x)
  {}

  lemma TimesAssociate(x: real, y: real, z: real)
    ensures Times(x, Times(y, z)) == Times(Times(x, y), z)
  {}

  lemma TimesUnit(x: real)
    ensures Times(x, 1.0) == x && Times(1.0, x) == x
    ensures Times(x, 0.0) == 0.0 && Times(0.0, x) == 0.0
    ensures Times(x, -1.0) == -x && Times(-1.0, x) == -x
  {}

  lemma TimesMonotone(x: real, y: real, z: real)
    requires x >= 0.0 && y <= z
    ensures Times(x, y) <= Times(x, z) && Times(y, x) <= Times(z, x)
  {}

  lemma TimesStrict(x: real, y: real, z: real)
    requires x > 0.0 && y < z
    ensures Times(x, y) < Times(x, z)
  {}

  /** A positive factor can be cancelled. */
  lemma TimesCancel(x: real, y: real, z: real)
    requires x > 0.0
    ensures Times(x, y) <= Times(x, z) <==> y <= z
    ensures Times(x, y) == Times(x, z) <==> y == z
  {
    hide Times;
    if y < z {
      TimesStrict(x, y, z);
    } else if z < y {
      TimesStrict(x, z, y);
    }
  }

  lemma RatioTimes(x: real, y: real)
    requires y != 0.0
    ensures Times(Ratio(x, y), y) == x && Times(y, Ratio(x, y)) == x
  {}

  lemma RatioNonNegative(x: real, y: real)
    requires x >= 0.0 && y > 0.0
    ensures Ratio(x, y) >= 0.0
  {}

  // ------------------------------------------------------------------ sums

  /** The sum of the first n weights. */
  function Mass(p: Row, n: nat): real
    requires n <= |p|
  {
    if n == 0 then 0.0 else Mass(p, n - 1) + p[n - 1]
  }

  /** The average of the table f under the weights p, over the first n entries. */
  function Dot(p: Row, f: Row, n: nat): real
    requires n <= |p| && n <= |f|
  {
    if n == 0 then 0.0 else Dot(p, f, n - 1) + Times(p[n - 1], f[n - 1])
  }

  /** The L1 distance of two rows over their first n entries. */
  function Distance(p: Row, q: Row, n: nat): real
    requires n <= |p| && n <= |q|
  {
    if n == 0 then 0.0 else Distance(p, q, n - 1) + Abs(p[n - 1] - q[n - 1])
  }

  predicate NonNegative(p: Row) {
    forall i :: 0 <= i < |p| ==> p[i] >= 0.0
  }

  /** A probability distribution over a vocabulary of the given size. */
  predicate IsDistribution(p: Row, size: nat) {
    |p| == size && NonNegative(p) && Mass(p, size) == 1.0
  }

  lemma {:induction false} MassNonNegative(p: Row, n: nat)
    requires n <= |p| && NonNegative(p)
    ensures Mass(p, n) >= 0.0
    ensures forall i :: 0 <= i < n ==> p[i] <= Mass(p, n)
  {
    if n > 0 {
      MassNonNegative(p, n - 1);
    }
  }

  lemma {:induction false} MassZero(p: Row, n: nat)
    requires n <= |p| && forall i :: 0 <= i < n ==> p[i] == 0.0
    ensures Mass(p, n) == 0.0
  {
    if n > 0 {
      MassZero(p, n - 1);
    }
  }

  lemma {:induction false} MassBound(p: Row, d: real, n: nat)
    requires n <= |p|
    requires forall i :: 0 <= i < n ==> p[i] <= d
    ensures Mass(p, n) <= Times(d, n as real)
  {
    hide Times;
    if n == 0 {
      TimesUnit(d);
    } else {
      MassBound(p, d, n - 1);
      TimesSum(d, (n - 1) as real, 1.0);
      TimesUnit(d);
    }
  }

  lemma {:induction false} MassLinear(u: Row, v: Row, e: Row, c: real, n: nat)
    requires n <= |u| && n <= |v| && n <= |e|
    requires forall i :: 0 <= i < n ==> e[i] == u[i] + Times(c, v[i])
    ensures Mass(e, n) == Mass(u, n) + Times(c, Mass(v, n))
  {
    hide Times;
    if n == 0 {
      TimesUnit(c);
    } else {
      MassLinear(u, v, e, c, n - 1);
      TimesSum(c, Mass(v, n - 1), v[n - 1]);
    }
  }

  lemma {:induction false} DotConstant(p: Row, f: Row, c: real, n: nat)
    requires n <= |p| && n <= |f|
    requires forall i :: 0 <= i < n ==> f[i] == c
    ensures Dot(p, f, n) == Times(c, Mass(p, n))
  {
    hide Times;
    if n == 0 {
      TimesUnit(c);
    } else {
      DotConstant(p, f, c, n - 1);
      TimesSum(c, Mass(p, n - 1), p[n - 1]);
      TimesCommute(p[n - 1], c);
    }
  }

  lemma LinearTerm(w: real, a: real, x: real, b: real, y: real)
    ensures Times(w, Times(a, x) + Times(b, y)) == Times(a, Times(w, x)) + Times(b, Times(w, y))
  {
    hide Times;
    TimesSum(w, Times(a, x), Times(b, y));
    TimesAssociate(w, a, x);
    TimesAssociate(a, w, x);
    TimesCommute(w, a);
    TimesAssociate(w, b, y);
    TimesAssociate(b, w, y);
    TimesCommute(w, b);
  }

  /** Averaging is linear in the table. */
  lemma {:induction false} DotLinear(p: Row, f: Row, g: Row, h: Row, a: real, b: real, n: nat)
    requires n <= |p| && n <= |f| && n <= |g| && n <= |h|
    requires forall i :: 0 <= i < n ==> h[i] == Times(a, f[i]) + Times(b, g[i])
    ensures Dot(p, h, n) == Times(a, Dot(p, f, n)) + Times(b, Dot(p, g, n))
  {
    hide Times;
    if n == 0 {
      TimesUnit(a);
      TimesUnit(b);
    } else {
      DotLinear(p, f, g, h, a, b, n - 1);
      LinearTerm(p[n - 1], a, f[n - 1], b, g[n - 1]);
      TimesSum(a, Dot(p, f, n - 1), Times(p[n - 1], f[n - 1]));
      TimesSum(b, Dot(p, g, n - 1), Times(p[n - 1], g[n - 1]));
    }
  }

  /** Averaging is linear in the weights. */
  lemma {:induction false} DotLinearWeights(u: Row, v: Row, e: Row, c: real, f: Row, n: nat)
    requires n <= |u| && n <= |v| && n <= |e| && n <= |f|
    requires forall i :: 0 <= i < n ==> e[i] == u[i] + Times(c, v[i])
    ensures Dot(e, f, n) == Dot(u, f, n) + Times(c, Dot(v, f, n))
  {
    hide Times;
    if n == 0 {
      TimesUnit(c);
    } else {
      DotLinearWeights(u, v, e, c, f, n - 1);
      TimesSum(f[n - 1], u[n - 1], Times(c, v[n - 1]));
      TimesAssociate(c, v[n - 1], f[n - 1]);
      TimesSum(c, Dot(v, f, n - 1), Times(v[n - 1], f[n - 1]));
    }
  }

  /** A table below another, up to a constant, has an average below, up to that constant. */
  lemma {:induction false} DotBelow(p: Row, f: Row, g: Row, d: real, n: nat)
    requires n <= |p| && n <= |f| && n <= |g| && NonNegative(p)
    requires forall i :: 0 <= i < n ==> f[i] <= g[i] + d
    ensures Dot(p, f, n) <= Dot(p, g, n) + Times(d, Mass(p, n))
  {
    hide Times;
    if n == 0 {
      TimesUnit(d);
    } else {
      DotBelow(p, f, g, d, n - 1);
      TimesMonotone(p[n - 1], f[n - 1], g[n - 1] + d);
      TimesSum(p[n - 1], g[n - 1], d);
      TimesSum(d, Mass(p, n - 1), p[n - 1]);
      TimesCommute(p[n - 1], d);
    }
  }

  /** Tables that are pointwise close have close averages. */
  lemma DotClose(p: Row, f: Row, g: Row, d: real, n: nat)
    requires n <= |p| && n <= |f| && n <= |g| && NonNegative(p)
    requires forall i :: 0 <= i < n ==> Abs(f[i] - g[i]) <= d
    ensures Abs(Dot(p, f, n) - Dot(p, g, n)) <= Times(d, Mass(p, n))
  {
    hide Times;
    DotBelow(p, f, g, d, n);
    DotBelow(p, g, f, d, n);
  }

  lemma WeightGap(p: real, q: real, x: real)
    requires Abs(x) <= 1.0
    ensures Abs(Times(p, x) - Times(q, x)) <= Abs(p - q)
  {
    hide Times;
    TimesDifference(x, p, q);
    TimesDifference(x, q, p);
    var d := Abs(p - q);
    TimesMonotone(d, x, 1.0);
    TimesMonotone(d, -1.0, x);
    TimesUnit(d);
  }

  /** Close weights have close averages of any table bounded by one. */
  lemma {:induction false} DotCloseWeights(p: Row, q: Row, f: Row, n: nat)
    requires n <= |p| && n <= |q| && n <= |f|
    requires forall i :: 0 <= i < n ==> Abs(f[i]) <= 1.0
    ensures Abs(Dot(p, f, n) - Dot(q, f, n)) <= Distance(p, q, n)
  {
    hide Times;
    if n > 0 {
      DotCloseWeights(p, q, f, n - 1);
      WeightGap(p[n - 1], q[n - 1], f[n - 1]);
    }
  }

  /** A row obtained from another by taking u away and adding c times v lies within the taken
      plus the added mass. */
  lemma {:induction false} DistanceOfShift(e: Row, p: Row, u: Row, v: Row, c: real, n: nat)
    requires n <= |e| && n <= |p| && n <= |u| && n <= |v|
    requires NonNegative(u) && NonNegative(v) && c >= 0.0
    requires forall i :: 0 <= i < n ==> e[i] - p[i] == Times(c, v[i]) - u[i]
    ensures Distance(e, p, n) <= Mass(u, n) + Times(c, Mass(v, n))
  {
    hide Times;
    if n == 0 {
      TimesUnit(c);
    } else {
      DistanceOfShift(e, p, u, v, c, n - 1);
      TimesSum(c, Mass(v, n - 1), v[n - 1]);
      TimesMonotone(c, 0.0, v[n - 1]);
      TimesUnit(c);
    }
  }

  lemma {:induction false} DistanceZero(p: Row, q: Row, n: nat)
    requires n <= |p| && n <= |q|
    requires forall i :: 0 <= i < n ==> p[i] == q[i]
    ensures Distance(p, q, n) == 0.0
  {
    if n > 0 {
      DistanceZero(p, q, n - 1);
    }
  }
}
