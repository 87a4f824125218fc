/** Rejection sampling of one position: acceptance against a floored draft probability,
the residual row with its fallback, and the law of the token that is finally emitted.

The two floors of the program are the same number.  Here it is the parameter eps, so that the
exact rule (eps == 0) and the program (eps == FLOOR) are two instances of one model. */
module Sampling {
  import opened Rows

  /** clamp_min(1e-8) and the residual-mass threshold. */
  const FLOOR: real := 0.00000001

  /** Temperatures below this threshold select the one-hot row of the largest logit. */
  const GREEDY_TEMPERATURE: real := 0.00001

  // ------------------------------------------------------------------ rows

  /** The first index of a largest entry. */
  function ArgMax(logits: Row): (best: nat)
    requires |logits| > 0
    ensures best < |logits|
    ensures forall i :: 0 <= i < |logits| ==> logits[i] <= logits[best]
    ensures forall i :: 0 <= i < best ==> logits[i] < logits[best]
    decreases |logits|
  {
    if |logits| == 1 then 0
    else
      var prev := ArgMax(logits[..|logits| - 1]);
      assert forall i :: 0 <= i < |logits| - 1 ==> logits[..|logits| - 1][i] == logits[i];
      if logits[|logits| - 1] > logits[prev] then |logits| - 1 else prev
  }

  function OneHot(size: nat, hot: nat): Row {
    seq(size, i => if i == hot then 1.0 else 0.0)
  }

  /** The probability with which a drafted token of target probability p and draft
      probability q is kept.  With a positive floor the divisor is never zero. */
  function AcceptProb(p: real, q: real, eps: real): real {
    var divisor := Max(q, eps);
    if divisor <= 0.0 then 1.0 else Min(Ratio(p, divisor), 1.0)
  }

  function Positive(x: real): real { Max(x, 0.0) }

  /** The positive part of target minus draft. */
  function Excess(p: Row, q: Row): Row
    requires |p| == |q|
  {
    seq(|p|, i requires 0 <= i < |p| => Positive(p[i] - q[i]))
  }

  function Scale(p: Row, divisor: real): Row
    requires divisor > 0.0
  {
    seq(|p|, i requires 0 <= i < |p| => Ratio(p[i], divisor))
  }

  /** sample_residual: the row the replacement token is drawn from. */
  function ResidualRow(p: Row, q: Row, eps: real): Row
    requires |p| == |q| && eps >= 0.0 && Mass(p, |p|) > 0.0
  {
    var excess := Excess(p, q);
    var chosen := if Mass(excess, |p|) <= eps then p else excess;
    Scale(chosen, Max(Mass(chosen, |p|), eps))
  }

  /** The probability that a token is drafted and kept. */
  function Keep(p: real, q: real, eps: real): real {
    Times(q, AcceptProb(p, q, eps))
  }

  function AcceptRow(p: Row, q: Row, eps: real): Row
    requires |p| == |q|
  {
    seq(|p|, i requires 0 <= i < |p| => AcceptProb(p[i], q[i], eps))
  }

  function KeptRow(p: Row, q: Row, eps: real): Row
    requires |p| == |q|
  {
    seq(|p|, i requires 0 <= i < |p| => Keep(p[i], q[i], eps))
  }

  function RejectRow(p: Row, q: Row, eps: real): Row
    requires |p| == |q|
  {
    seq(|p|, i requires 0 <= i < |p| => 1.0 - AcceptProb(p[i], q[i], eps))
  }

  /** Probability that the drafted token is rejected. */
  function RejectMass(p: Row, q: Row, eps: real): real
    requires |p| == |q|
  {
    Dot(q, RejectRow(p, q, eps), |p|)
  }

  /** Probability, per token, of being the one that leaves the position. */
  function EmittedRow(p: Row, q: Row, eps: real): Row
    requires |p| == |q| && eps >= 0.0 && Mass(p, |p|) > 0.0
  {
    var kept, residual, rejected := KeptRow(p, q, eps), ResidualRow(p, q, eps), RejectMass(p, q, eps);
    seq(|p|, i requires 0 <= i < |p| => kept[i] + Times(rejected, residual[i]))
  }

  // ------------------------------------------------------------------ one token

  lemma RatioAgainstOne(x: real, y: real)
    requires y > 0.0 && x >= 0.0
    ensures Ratio(x, y) >= 0.0
    ensures x >= y <==> Ratio(x, y) >= 1.0
  {
    hide Times, Ratio;
    RatioNonNegative(x, y);
    RatioTimes(x, y);
    TimesUnit(y);
    TimesCancel(y, 1.0, Ratio(x, y));
  }

  lemma AcceptBounds(p: real, q: real, eps: real)
    requires 0.0 <= p
    ensures 0.0 <= AcceptProb(p, q, eps) <= 1.0
  {
    hide Ratio;
    var divisor := Max(q, eps);
    if divisor > 0.0 {
      RatioAgainstOne(p, divisor);
    }
  }

  lemma KeepWithoutFloor(p: real, q: real, eps: real)
    requires 0.0 <= p && 0.0 <= q && 0.0 <= eps
    requires eps <= q || p >= eps || q == 0.0 || p == 0.0
    ensures Keep(p, q, eps) == Min(p, q)
  {
    hide Times, Ratio;
    var divisor := Max(q, eps);
    TimesUnit(q);
    if divisor > 0.0 {
      RatioAgainstOne(p, divisor);
      RatioTimes(p, divisor);
      if p == 0.0 {
        TimesUnit(divisor);
        TimesCancel(divisor, Ratio(p, divisor), 0.0);
      }
      if q == 0.0 {
        TimesUnit(AcceptProb(p, q, eps));
      }
    }
  }

  lemma KeepUnderFloor(p: real, q: real, eps: real)
    requires 0.0 < p < eps && 0.0 < q < eps
    ensures Times(eps, Keep(p, q, eps)) == Times(p, q)
  {
    hide Times, Ratio;
    var r := Ratio(p, eps);
    RatioAgainstOne(p, eps);
    RatioTimes(p, eps);
    TimesAssociate(eps, q, r);
    TimesCommute(eps, q);
    TimesAssociate(q, eps, r);
    TimesCommute(p, q);
  }

  lemma SquareBound(m: real, eps: real)
    ensures Times(eps, m) - Times(m, m) <= Times(eps, eps / 4.0)
  {
    var h := eps / 2.0 - m;
    assert h * h >= 0.0;
    assert h * h == eps * (eps / 4.0) - eps * m + m * m;
  }

  /** With m <= t below the floor, m - m*t/floor is positive and at most a quarter of the floor. */
  lemma QuarterBound(m: real, t: real, k: real, eps: real)
    requires 0.0 < m <= t < eps && Times(eps, k) == Times(m, t)
    ensures k < m <= k + eps / 4.0
  {
    hide Times;
    TimesMonotone(m, m, t);
    SquareBound(m, eps);
    TimesStrict(m, t, eps);
    TimesCommute(m, eps);
    TimesSum(eps, k, eps / 4.0);
    TimesCancel(eps, m, k);
    TimesCancel(eps, m, k + eps / 4.0);
  }

  /** A draw keeps a drafted token exactly when, scaled by the floored draft probability, it lies below
      the target probability. */
  lemma KeptIff(p: real, q: real, eps: real, draw: real)
    requires 0.0 <= p && eps > 0.0 && 0.0 <= draw < 1.0
    ensures draw < AcceptProb(p, q, eps) <==> Times(draw, Max(q, eps)) < p
  {
    hide Times, Ratio;
    var divisor := Max(q, eps);
    RatioTimes(p, divisor);
    RatioAgainstOne(p, divisor);
    TimesCommute(draw, divisor);
    TimesCancel(divisor, Ratio(p, divisor), draw);
    TimesUnit(divisor);
    TimesStrict(divisor, draw, 1.0);
  }

  /** The floor costs a token at most a quarter of itself, and costs it something exactly when
      both of the token's probabilities lie strictly between zero and the floor. */
  lemma KeepBounds(p: real, q: real, eps: real)
    requires 0.0 <= p && 0.0 <= q && 0.0 <= eps
    ensures 0.0 <= Keep(p, q, eps) <= Min(p, q) <= Keep(p, q, eps) + eps / 4.0
    ensures Keep(p, q, eps) < Min(p, q) <==> 0.0 < q < eps && 0.0 < p < eps
  {
    hide Times, AcceptProb;
    AcceptBounds(p, q, eps);
    TimesMonotone(q, 0.0, AcceptProb(p, q, eps));
    TimesUnit(q);
    if 0.0 < q < eps && 0.0 < p < eps {
      KeepUnderFloor(p, q, eps);
      TimesCommute(p, q);
      QuarterBound(Min(p, q), Max(p, q), Keep(p, q, eps), eps);
    } else {
      KeepWithoutFloor(p, q, eps);
    }
  }

  // ------------------------------------------------------------------ one position

  /** What the floor takes from the kept probability of each token. */
  function Shortfall(p: Row, q: Row, eps: real): Row
    requires |p| == |q|
  {
    seq(|p|, i requires 0 <= i < |p| => Min(p[i], q[i]) - Keep(p[i], q[i], eps))
  }

  /** Each target weight is split into a kept part, an excess and a shortfall. */
  ghost predicate Split(p: Row, kept: Row, excess: Row, short: Row, cap: real) {
    && |kept| == |p| && |excess| == |p| && |short| == |p|
    && NonNegative(kept) && NonNegative(excess) && NonNegative(short)
    && (forall i :: 0 <= i < |p| ==> short[i] <= cap)
    && (forall i :: 0 <= i < |p| ==> kept[i] + excess[i] + short[i] == p[i])
  }

  lemma PositionSplit(p: Row, q: Row, eps: real)
    requires NonNegative(p) && NonNegative(q) && |q| == |p| && 0.0 <= eps
    ensures Split(p, KeptRow(p, q, eps), Excess(p, q), Shortfall(p, q, eps), eps / 4.0)
  {
    hide Keep;
    forall i | 0 <= i < |p| {
      KeepBounds(p[i], q[i], eps);
    }
  }

  lemma {:induction false} SplitMass(p: Row, kept: Row, excess: Row, short: Row, cap: real, n: nat)
    requires Split(p, kept, excess, short, cap) && n <= |p|
    ensures Mass(kept, n) + Mass(excess, n) + Mass(short, n) == Mass(p, n)
  {
    if n > 0 {
      SplitMass(p, kept, excess, short, cap, n - 1);
    }
  }

  lemma {:induction false} RejectedIsNotKept(q: Row, reject: Row, kept: Row, n: nat)
    requires n <= |q| && n <= |reject| && n <= |kept|
    requires forall i :: 0 <= i < n ==> kept[i] + Times(q[i], reject[i]) == q[i]
    ensures Dot(q, reject, n) == Mass(q, n) - Mass(kept, n)
  {
    hide Times;
    if n > 0 {
      RejectedIsNotKept(q, reject, kept, n - 1);
    }
  }

  /** The rejected mass is the excess plus the shortfall. */
  lemma RejectMassIs(p: Row, q: Row, eps: real)
    requires IsDistribution(p, |p|) && IsDistribution(q, |p|) && eps >= 0.0
    ensures RejectMass(p, q, eps) == Mass(Excess(p, q), |p|) + Mass(Shortfall(p, q, eps), |p|)
  {
    hide Times, AcceptProb;
    PositionSplit(p, q, eps);
    forall i | 0 <= i < |p|
      ensures KeptRow(p, q, eps)[i] + Times(q[i], RejectRow(p, q, eps)[i]) == q[i]
    {
      TimesDifference(q[i], 1.0, AcceptProb(p[i], q[i], eps));
      TimesUnit(q[i]);
    }
    SplitMass(p, KeptRow(p, q, eps), Excess(p, q), Shortfall(p, q, eps), eps / 4.0, |p|);
    RejectedIsNotKept(q, RejectRow(p, q, eps), KeptRow(p, q, eps), |p|);
  }

  lemma {:induction false} ScaleMass(p: Row, divisor: real, n: nat)
    requires n <= |p| && divisor > 0.0
    ensures Times(divisor, Mass(Scale(p, divisor), n)) == Mass(p, n)
  {
    hide Times, Ratio;
    if n == 0 {
      TimesUnit(divisor);
    } else {
      ScaleMass(p, divisor, n - 1);
      RatioTimes(p[n - 1], divisor);
      TimesSum(divisor, Mass(Scale(p, divisor), n - 1), Scale(p, divisor)[n - 1]);
    }
  }

  lemma ScaleToOne(p: Row, mass: real)
    requires NonNegative(p) && mass > 0.0 && Mass(p, |p|) == mass
    ensures IsDistribution(Scale(p, mass), |p|)
    ensures forall i :: 0 <= i < |p| ==> Times(mass, Scale(p, mass)[i]) == p[i]
  {
    hide Times, Ratio;
    ScaleMass(p, mass, |p|);
    forall i | 0 <= i < |p|
      ensures Times(mass, Scale(p, mass)[i]) == p[i] && Scale(p, mass)[i] >= 0.0
    {
      RatioNonNegative(p[i], mass);
      RatioTimes(p[i], mass);
    }
    TimesUnit(mass);
    TimesCancel(mass, Mass(Scale(p, mass), |p|), 1.0);
  }

  lemma ScaleByOne(p: Row)
    ensures Scale(p, 1.0) == p
  {}

  lemma ExcessIsNonNegative(p: Row, q: Row)
    requires |p| == |q|
    ensures |Excess(p, q)| == |p| && NonNegative(Excess(p, q))
  {}

  /** The replacement row is a distribution: the target row when the excess mass is at most
      the floor, and otherwise the excess scaled to mass one. */
  lemma ResidualIsDistribution(p: Row, q: Row, eps: real)
    requires IsDistribution(p, |p|) && |q| == |p| && 0.0 <= eps <= 1.0
    ensures IsDistribution(ResidualRow(p, q, eps), |p|)
    ensures Mass(Excess(p, q), |p|) <= eps ==> ResidualRow(p, q, eps) == p
    ensures Mass(Excess(p, q), |p|) > eps ==>
              forall i :: 0 <= i < |p| ==>
                Times(Mass(Excess(p, q), |p|), ResidualRow(p, q, eps)[i]) == Excess(p, q)[i]
  {
    hide Times, Ratio, Mass, Excess, Scale;
    var excess := Excess(p, q);
    ExcessIsNonNegative(p, q);
    if Mass(excess, |p|) <= eps {
      ScaleByOne(p);
    } else {
      ScaleToOne(excess, Mass(excess, |p|));
    }
  }

  ghost predicate Emits(e: Row, kept: Row, rejected: real, residual: Row) {
    && |kept| == |e| && |residual| == |e|
    && forall i :: 0 <= i < |e| ==> e[i] == kept[i] + Times(rejected, residual[i])
  }

  /** A position: the parts of the target row, the replacement row and the emitted law. */
  ghost predicate Position(p: Row, kept: Row, excess: Row, short: Row, residual: Row, e: Row, rejected: real,
                           eps: real) {
    && IsDistribution(p, |p|) && IsDistribution(residual, |p|) && |e| == |p| && eps >= 0.0
    && Split(p, kept, excess, short, eps / 4.0)
    && Emits(e, kept, rejected, residual)
    && rejected == Mass(excess, |p|) + Mass(short, |p|)
    && (Mass(excess, |p|) <= eps ==> residual == p)
    && (Mass(excess, |p|) > eps ==>
          forall i :: 0 <= i < |p| ==> Times(Mass(excess, |p|), residual[i]) == excess[i])
  }

  lemma PositionOf(p: Row, q: Row, eps: real)
    requires IsDistribution(p, |p|) && IsDistribution(q, |p|) && 0.0 <= eps <= 1.0
    ensures Position(p, KeptRow(p, q, eps), Excess(p, q), Shortfall(p, q, eps), ResidualRow(p, q, eps),
                     EmittedRow(p, q, eps), RejectMass(p, q, eps), eps)
  {
    hide Times, Keep, Mass;
    RejectMassIs(p, q, eps);
    PositionSplit(p, q, eps);
    ResidualIsDistribution(p, q, eps);
  }

  lemma Reweigh(r: real, m: real, d: real, x: real, rejected: real)
    requires m > 0.0 && Times(m, r) == x && rejected == m + d
    ensures Times(rejected, r) == x + Times(Ratio(d, m), x)
  {
    hide Times, Ratio;
    TimesSum(r, m, d);
    TimesAssociate(Ratio(d, m), m, r);
    RatioTimes(d, m);
  }

  /** With an excess above the floor the law deviates by the shortfall, handed out in
      proportion to the excess; otherwise by excess and shortfall, handed out like the target. */
  lemma Deviation(p: Row, kept: Row, excess: Row, short: Row, residual: Row, e: Row, rejected: real, eps: real)
    requires Position(p, kept, excess, short, residual, e, rejected, eps)
    ensures var m, d := Mass(excess, |p|), Mass(short, |p|);
            forall i :: 0 <= i < |p| ==>
              e[i] - p[i] == if m > eps then Times(Ratio(d, m), excess[i]) - short[i]
                             else Times(rejected, p[i]) - (excess[i] + short[i])
  {
    hide Times, Ratio, Mass;
    var m, d := Mass(excess, |p|), Mass(short, |p|);
    if m > eps {
      forall i | 0 <= i < |p|
        ensures e[i] - p[i] == Times(Ratio(d, m), excess[i]) - short[i]
      {
        Reweigh(residual[i], m, d, excess[i], rejected);
      }
    }
  }

  function Sum(u: Row, v: Row): Row
    requires |u| == |v|
  {
    seq(|u|, i requires 0 <= i < |u| => u[i] + v[i])
  }

  lemma {:induction false} SumMass(u: Row, v: Row, n: nat)
    requires |u| == |v| && n <= |u|
    ensures Mass(Sum(u, v), n) == Mass(u, n) + Mass(v, n)
  {
    if n > 0 {
      SumMass(u, v, n - 1);
    }
  }

  /** The largest distance the floors can put between the emitted law of one position and the
      target row: (size/2 + 2) * eps. */
  function PositionError(size: nat, eps: real): real {
    2.0 * Times(eps / 4.0, size as real) + 2.0 * eps
  }

  lemma PositionDistance(p: Row, kept: Row, excess: Row, short: Row, residual: Row, e: Row, rejected: real, eps: real)
    requires Position(p, kept, excess, short, residual, e, rejected, eps)
    ensures Distance(e, p, |p|) <= PositionError(|p|, eps)
  {
    hide Times, Ratio, Mass;
    var n := |p|;
    var m, d := Mass(excess, n), Mass(short, n);
    Deviation(p, kept, excess, short, residual, e, rejected, eps);
    MassNonNegative(excess, n);
    MassNonNegative(short, n);
    MassBound(short, eps / 4.0, n);
    if m > eps {
      RatioNonNegative(d, m);
      DistanceOfShift(e, p, short, excess, Ratio(d, m), n);
      RatioTimes(d, m);
    } else {
      SumMass(excess, short, n);
      DistanceOfShift(e, p, Sum(excess, short), p, rejected, n);
      TimesUnit(rejected);
    }
  }

  lemma PositionIsDistribution(p: Row, kept: Row, excess: Row, short: Row, residual: Row, e: Row, rejected: real,
                               eps: real)
    requires Position(p, kept, excess, short, residual, e, rejected, eps)
    ensures IsDistribution(e, |p|)
  {
    hide Times, Mass;
    SplitMass(p, kept, excess, short, eps / 4.0, |p|);
    MassNonNegative(excess, |p|);
    MassNonNegative(short, |p|);
    MassLinear(kept, residual, e, rejected, |p|);
    TimesUnit(rejected);
    forall i | 0 <= i < |p|
      ensures e[i] >= 0.0
    {
      TimesMonotone(rejected, 0.0, residual[i]);
    }
  }

  /** For every vocabulary and every pair of rows the emitted law is a distribution, within
      (size/2 + 2) * eps of the target in L1 norm. */
  lemma EmittedLaw(p: Row, q: Row, eps: real)
    requires IsDistribution(p, |p|) && IsDistribution(q, |p|) && 0.0 <= eps <= 1.0
    ensures IsDistribution(EmittedRow(p, q, eps), |p|)
    ensures Distance(EmittedRow(p, q, eps), p, |p|) <= PositionError(|p|, eps)
  {
    hide Position, Times, Keep, Ratio, Mass;
    PositionOf(p, q, eps);
    PositionIsDistribution(p, KeptRow(p, q, eps), Excess(p, q), Shortfall(p, q, eps), ResidualRow(p, q, eps),
                           EmittedRow(p, q, eps), RejectMass(p, q, eps), eps);
    PositionDistance(p, KeptRow(p, q, eps), Excess(p, q), Shortfall(p, q, eps), ResidualRow(p, q, eps),
                     EmittedRow(p, q, eps), RejectMass(p, q, eps), eps);
  }

  // ------------------------------------------------------------------ exactness

  /** A condition on the two rows, decidable before sampling: what the floors take away from
      each token is proportional to what the replacement row gives back to it. */
  ghost predicate Balanced(p: Row, excess: Row, short: Row, eps: real)
    requires |excess| == |p| && |short| == |p|
  {
    var m, d := Mass(excess, |p|), Mass(short, |p|);
    forall i :: 0 <= i < |p| ==>
      if m > eps then Times(m, short[i]) == Times(d, excess[i])
      else excess[i] + short[i] == Times(m + d, p[i])
  }

  lemma Proportional(s: real, m: real, d: real, x: real)
    requires m > 0.0
    ensures Times(Ratio(d, m), x) == s <==> Times(m, s) == Times(d, x)
  {
    hide Times, Ratio;
    TimesAssociate(m, Ratio(d, m), x);
    RatioTimes(d, m);
    TimesCancel(m, Times(Ratio(d, m), x), s);
  }

  lemma PositionExactly(p: Row, kept: Row, excess: Row, short: Row, residual: Row, e: Row, rejected: real, eps: real)
    requires Position(p, kept, excess, short, residual, e, rejected, eps)
    ensures e == p <==> Balanced(p, excess, short, eps)
  {
    hide Times, Ratio, Mass;
    var m, d := Mass(excess, |p|), Mass(short, |p|);
    Deviation(p, kept, excess, short, residual, e, rejected, eps);
    if m > eps {
      forall i | 0 <= i < |p|
        ensures e[i] == p[i] <==> Times(m, short[i]) == Times(d, excess[i])
      {
        Proportional(short[i], m, d, excess[i]);
      }
    }
    assert e == p <==> forall i :: 0 <= i < |p| ==> e[i] == p[i];
  }

  /** The emitted law is exactly the target row if and only if the rows are balanced. */
  lemma EmittedExactly(p: Row, q: Row, eps: real)
    requires IsDistribution(p, |p|) && IsDistribution(q, |p|) && 0.0 <= eps <= 1.0
    ensures EmittedRow(p, q, eps) == p <==> Balanced(p, Excess(p, q), Shortfall(p, q, eps), eps)
  {
    hide Position, Balanced, Times, Keep, Ratio, Mass;
    PositionOf(p, q, eps);
    PositionExactly(p, KeptRow(p, q, eps), Excess(p, q), Shortfall(p, q, eps), ResidualRow(p, q, eps),
                    EmittedRow(p, q, eps), RejectMass(p, q, eps), eps);
  }

  /** No token has both of its probabilities strictly between zero and the floor. */
  predicate NoTinyToken(p: Row, q: Row, eps: real)
    requires |p| == |q|
  {
    forall i :: 0 <= i < |p| ==> !(0.0 < q[i] < eps && 0.0 < p[i] < eps)
  }

  lemma NoShortfall(p: Row, q: Row, eps: real)
    requires NonNegative(p) && NonNegative(q) && |q| == |p| && 0.0 <= eps
    requires NoTinyToken(p, q, eps)
    ensures forall i :: 0 <= i < |p| ==> Shortfall(p, q, eps)[i] == 0.0
    ensures Mass(Shortfall(p, q, eps), |p|) == 0.0
  {
    hide Keep;
    var short := Shortfall(p, q, eps);
    forall i | 0 <= i < |p|
      ensures short[i] == 0.0
    {
      KeepBounds(p[i], q[i], eps);
    }
    MassZero(short, |p|);
  }

  lemma BalancedRows(p: Row, excess: Row, short: Row, eps: real)
    requires |excess| == |p| && |short| == |p| && NonNegative(excess) && eps >= 0.0
    requires Mass(short, |p|) == 0.0 && forall i :: 0 <= i < |p| ==> short[i] == 0.0
    requires Mass(excess, |p|) > eps || Mass(excess, |p|) == 0.0
    ensures Balanced(p, excess, short, eps)
  {
    hide Times, Mass;
    MassNonNegative(excess, |p|);
    forall x: real {
      TimesUnit(x);
    }
  }

  /** The usual case: without tiny tokens the law is exact whenever the excess mass is above
      the floor, and also when draft and target agree. */
  lemma ExactWithoutTinyTokens(p: Row, q: Row, eps: real)
    requires IsDistribution(p, |p|) && IsDistribution(q, |p|) && 0.0 <= eps <= 1.0
    requires NoTinyToken(p, q, eps)
    requires Mass(Excess(p, q), |p|) > eps || Mass(Excess(p, q), |p|) == 0.0
    ensures EmittedRow(p, q, eps) == p
  {
    hide Balanced, Times, Keep, Ratio, Mass, EmittedRow;
    NoShortfall(p, q, eps);
    BalancedRows(p, Excess(p, q), Shortfall(p, q, eps), eps);
    EmittedExactly(p, q, eps);
  }

  /** In the fallback a token's law is exact when its draft weight is the target weight less its share
      of the excess mass, or when the target gives it no weight. */
  lemma FallbackEntry(p: real, q: real, m: real)
    requires p >= 0.0 && q >= 0.0 && m > 0.0
    ensures Positive(p - q) == Times(m, p) <==> (p > 0.0 ==> q == Times(1.0 - m, p))
  {
    hide Times;
    TimesDifference(p, 1.0, m);
    TimesUnit(p);
    TimesUnit(m);
    if p > 0.0 {
      TimesStrict(m, 0.0, p);
    }
  }

  /** Without tiny tokens the law is exact if and only if the fallback is not taken, or takes nothing, or
      the draft row is the target row scaled down wherever the target has weight. */
  lemma ExactUnderGuards(p: Row, q: Row, eps: real)
    requires IsDistribution(p, |p|) && IsDistribution(q, |p|) && 0.0 <= eps <= 1.0
    requires NoTinyToken(p, q, eps)
    ensures EmittedRow(p, q, eps) == p
       <==> var m := Mass(Excess(p, q), |p|);
            m == 0.0 || m > eps || forall i :: 0 <= i < |p| && p[i] > 0.0 ==> q[i] == Times(1.0 - m, p[i])
  {
    hide Times, Keep, Ratio, Mass, EmittedRow, Positive;
    var excess, short, m := Excess(p, q), Shortfall(p, q, eps), Mass(Excess(p, q), |p|);
    NoShortfall(p, q, eps);
    EmittedExactly(p, q, eps);
    ExcessIsNonNegative(p, q);
    MassNonNegative(excess, |p|);
    if m == 0.0 || m > eps {
      BalancedRows(p, excess, short, eps);
    } else {
      forall i | 0 <= i < |p|
        ensures excess[i] + short[i] == Times(m + Mass(short, |p|), p[i])
          <==> (p[i] > 0.0 ==> q[i] == Times(1.0 - m, p[i]))
      {
        FallbackEntry(p[i], q[i], m);
      }
    }
  }

  lemma PairMass(p: Row)
    requires |p| == 2
    ensures Mass(p, 2) == p[0] + p[1]
  {
    assert Mass(p, 1) == Mass(p, 0) + p[0];
  }

  /** A target row and a draft row that differ by less than the floor. */
  function EvenRow(): Row { [0.5, 0.5] }

  function NearlyEvenRow(): Row { [0.500000005, 0.499999995] }

  /** With the program's floor the law is not always exact: rows this close fall back to the
      target row although probability was already moved. */
  lemma FloorIsNotLossless()
    ensures IsDistribution(EvenRow(), 2) && IsDistribution(NearlyEvenRow(), 2)
    ensures EmittedRow(EvenRow(), NearlyEvenRow(), 0.00000001) != EvenRow()
  {
    var p, q := EvenRow(), NearlyEvenRow();
    var excess, short := Excess(p, q), Shortfall(p, q, FLOOR);
    PairMass(p);
    PairMass(q);
    PairMass(excess);
    NoShortfall(p, q, FLOOR);
    EmittedExactly(p, q, FLOOR);
    assert !Balanced(p, excess, short, FLOOR) by {
      assert excess[0] + short[0] != Times(Mass(excess, 2) + Mass(short, 2), p[0]);
    }
  }
}
