/** From logits to probabilities: the one-hot row of the largest logit at low temperature, the softmax
otherwise.

The exponential function is known by its laws only: it is positive and turns sums into products; where
the order of the weights matters it is also increasing. */
module Logits {
  import opened Rows
  import opened Sampling

  ghost predicate ExpLaws(exp: real -> real) {
    && (forall x :: exp(x) > 0.0)
    && (forall x, y :: Times(exp(x), exp(y)) == exp(x + y))
  }

  ghost predicate Increasing(exp: real -> real) {
    forall x, y :: x < y ==> exp(x) < exp(y)
  }

  /** The unnormalized weights of the tokens. */
  function Weights(logits: Row, temperature: real, exp: real -> real): (weights: Row)
    requires temperature > 0.0
    ensures |weights| == |logits|
  {
    seq(|logits|, i requires 0 <= i < |logits| => exp(Ratio(logits[i], temperature)))
  }

  function Softmax(logits: Row, temperature: real, exp: real -> real): Row
    requires temperature > 0.0
  {
    var weights := Weights(logits, temperature, exp);
    if Mass(weights, |weights|) > 0.0 then Scale(weights, Mass(weights, |weights|)) else weights
  }

  /** logits_to_probs. */
  function LogitsToProbs(logits: Row, temperature: real, exp: real -> real): Row
    requires |logits| > 0
  {
    if temperature < GREEDY_TEMPERATURE then OneHot(|logits|, ArgMax(logits))
    else Softmax(logits, temperature, exp)
  }

  // ------------------------------------------------------------------ the softmax

  lemma {:induction false} PositiveMass(p: Row, n: nat)
    requires 0 < n <= |p| && forall i :: 0 <= i < n ==> p[i] > 0.0
    ensures Mass(p, n) > 0.0
  {
    if n == 1 {
      assert Mass(p, 0) == 0.0;
    } else {
      PositiveMass(p, n - 1);
    }
  }

  /** Every softmax row is a distribution in which every token has weight. */
  lemma SoftmaxIsDistribution(logits: Row, temperature: real, exp: real -> real)
    requires |logits| > 0 && temperature > 0.0 && ExpLaws(exp)
    ensures IsDistribution(Softmax(logits, temperature, exp), |logits|)
    ensures forall i :: 0 <= i < |logits| ==>
              var m := Mass(Weights(logits, temperature, exp), |logits|);
              m > 0.0 && Times(m, Softmax(logits, temperature, exp)[i]) == exp(Ratio(logits[i], temperature))
    ensures forall i :: 0 <= i < |logits| ==> Softmax(logits, temperature, exp)[i] > 0.0
  {
    hide Times, Ratio, Mass, Scale;
    var weights := Weights(logits, temperature, exp);
    PositiveMass(weights, |weights|);
    ScaleToOne(weights, Mass(weights, |weights|));
    forall i | 0 <= i < |logits|
      ensures Softmax(logits, temperature, exp)[i] > 0.0
    {
      TimesUnit(Mass(weights, |weights|));
      TimesCancel(Mass(weights, |weights|), Softmax(logits, temperature, exp)[i], 0.0);
    }
  }

  /** Two tokens are as likely as the exponentials of their scaled logits. */
  ghost predicate RatioLaw(row: Row, logits: Row, temperature: real, exp: real -> real)
    requires temperature > 0.0
  {
    && |row| == |logits|
    && forall i, j :: 0 <= i < |row| && 0 <= j < |row| ==>
         Times(row[i], exp(Ratio(logits[j], temperature))) == Times(row[j], exp(Ratio(logits[i], temperature)))
  }

  lemma SoftmaxRatio(logits: Row, temperature: real, exp: real -> real)
    requires |logits| > 0 && temperature > 0.0 && ExpLaws(exp)
    ensures RatioLaw(Softmax(logits, temperature, exp), logits, temperature, exp)
  {
    hide Times, Ratio, Mass, Scale, Softmax, ExpLaws;
    SoftmaxIsDistribution(logits, temperature, exp);
    var row, m := Softmax(logits, temperature, exp), Mass(Weights(logits, temperature, exp), |logits|);
    forall i, j | 0 <= i < |row| && 0 <= j < |row|
      ensures Times(row[i], exp(Ratio(logits[j], temperature))) == Times(row[j], exp(Ratio(logits[i], temperature)))
    {
      TimesAssociate(row[i], m, row[j]);
      TimesAssociate(row[j], m, row[i]);
      TimesCommute(row[i], m);
      TimesCommute(row[j], m);
      TimesAssociate(m, row[i], row[j]);
      TimesAssociate(m, row[j], row[i]);
      TimesCommute(row[i], row[j]);
    }
  }

  lemma {:induction false} RatioSum(row: Row, weights: Row, i: nat, n: nat)
    requires |row| == |weights| && i < |row| && n <= |row|
    requires forall j :: 0 <= j < |row| ==> Times(row[i], weights[j]) == Times(row[j], weights[i])
    ensures Times(row[i], Mass(weights, n)) == Times(Mass(row, n), weights[i])
  {
    hide Times;
    if n == 0 {
      TimesUnit(row[i]);
      TimesUnit(weights[i]);
    } else {
      RatioSum(row, weights, i, n - 1);
      TimesSum(row[i], Mass(weights, n - 1), weights[n - 1]);
      TimesSum(weights[i], Mass(row, n - 1), row[n - 1]);
    }
  }

  /** The ratio law has one solution of mass one: the softmax row. */
  lemma RatioLawIsSoftmax(row: Row, logits: Row, temperature: real, exp: real -> real)
    requires |logits| > 0 && temperature > 0.0 && ExpLaws(exp)
    requires RatioLaw(row, logits, temperature, exp) && Mass(row, |row|) == 1.0
    ensures row == Softmax(logits, temperature, exp)
  {
    hide Times, Ratio, Mass, Softmax, ExpLaws;
    SoftmaxIsDistribution(logits, temperature, exp);
    var weights := Weights(logits, temperature, exp);
    var m := Mass(weights, |logits|);
    forall i | 0 <= i < |row|
      ensures row[i] == Softmax(logits, temperature, exp)[i]
    {
      RatioSum(row, weights, i, |row|);
      TimesUnit(weights[i]);
      TimesCommute(row[i], m);
      TimesCancel(m, row[i], Softmax(logits, temperature, exp)[i]);
    }
  }

  lemma RatioOrder(x: real, y: real, temperature: real)
    requires temperature > 0.0
    ensures Ratio(x, temperature) < Ratio(y, temperature) <==> x < y
  {
    hide Times, Ratio;
    RatioTimes(x, temperature);
    RatioTimes(y, temperature);
    TimesCancel(temperature, Ratio(y, temperature), Ratio(x, temperature));
  }

  /** A token is more likely exactly when its logit is larger. */
  lemma SoftmaxKeepsOrder(logits: Row, temperature: real, exp: real -> real, i: nat, j: nat)
    requires temperature > 0.0 && ExpLaws(exp) && Increasing(exp) && i < |logits| && j < |logits|
    ensures |Softmax(logits, temperature, exp)| == |logits|
    ensures Softmax(logits, temperature, exp)[i] < Softmax(logits, temperature, exp)[j] <==> logits[i] < logits[j]
  {
    hide Times, Ratio, Mass, Softmax;
    SoftmaxIsDistribution(logits, temperature, exp);
    var row, m := Softmax(logits, temperature, exp), Mass(Weights(logits, temperature, exp), |logits|);
    TimesCancel(m, row[j], row[i]);
    RatioOrder(logits[i], logits[j], temperature);
    RatioOrder(logits[j], logits[i], temperature);
  }

  lemma RatioOfSum(x: real, c: real, temperature: real)
    requires temperature > 0.0
    ensures Ratio(x + c, temperature) == Ratio(x, temperature) + Ratio(c, temperature)
  {
    hide Times, Ratio;
    RatioTimes(x, temperature);
    RatioTimes(c, temperature);
    RatioTimes(x + c, temperature);
    TimesSum(temperature, Ratio(x, temperature), Ratio(c, temperature));
    TimesCancel(temperature, Ratio(x + c, temperature), Ratio(x, temperature) + Ratio(c, temperature));
  }

  lemma ShiftedWeight(x: real, c: real, temperature: real, exp: real -> real)
    requires temperature > 0.0 && ExpLaws(exp)
    ensures exp(Ratio(c, temperature)) > 0.0
    ensures exp(Ratio(x + c, temperature)) == Times(exp(Ratio(x, temperature)), exp(Ratio(c, temperature)))
  {
    hide Times, Ratio;
    RatioOfSum(x, c, temperature);
  }

  lemma FactorOut(a: real, b: real, k: real, u: real, v: real)
    requires k > 0.0 && Times(a, Times(u, k)) == Times(b, Times(v, k))
    ensures Times(a, u) == Times(b, v)
  {
    hide Times;
    TimesAssociate(a, u, k);
    TimesAssociate(b, v, k);
    TimesCommute(Times(a, u), k);
    TimesCommute(Times(b, v), k);
    TimesCancel(k, Times(a, u), Times(b, v));
  }

  /** Adding one number to all logits changes nothing. */
  lemma SoftmaxIgnoresShift(logits: Row, shifted: Row, c: real, temperature: real, exp: real -> real)
    requires |logits| > 0 && temperature > 0.0 && ExpLaws(exp)
    requires |shifted| == |logits| && forall i :: 0 <= i < |logits| ==> shifted[i] == logits[i] + c
    ensures Softmax(shifted, temperature, exp) == Softmax(logits, temperature, exp)
  {
    hide Times, Ratio, Mass, Softmax, ExpLaws;
    var row := Softmax(shifted, temperature, exp);
    SoftmaxIsDistribution(shifted, temperature, exp);
    SoftmaxRatio(shifted, temperature, exp);
    forall i, j | 0 <= i < |row| && 0 <= j < |row|
      ensures Times(row[i], exp(Ratio(logits[j], temperature))) == Times(row[j], exp(Ratio(logits[i], temperature)))
    {
      ShiftedWeight(logits[i], c, temperature, exp);
      ShiftedWeight(logits[j], c, temperature, exp);
      FactorOut(row[i], row[j], exp(Ratio(c, temperature)),
                exp(Ratio(logits[j], temperature)), exp(Ratio(logits[i], temperature)));
    }
    RatioLawIsSoftmax(row, logits, temperature, exp);
  }

  // ------------------------------------------------------------------ both branches

  lemma {:induction false} OneHotMass(size: nat, hot: nat, n: nat)
    requires n <= size
    ensures Mass(OneHot(size, hot), n) == if hot < n then 1.0 else 0.0
  {
    if n > 0 {
      OneHotMass(size, hot, n - 1);
    }
  }

  /** At low temperature all weight is on the first of the largest logits. */
  lemma ColdRow(logits: Row, temperature: real, exp: real -> real)
    requires |logits| > 0 && temperature < 0.00001
    ensures var row := LogitsToProbs(logits, temperature, exp);
            && IsDistribution(row, |logits|)
            && forall i :: 0 <= i < |logits| ==> row[i] == if i == ArgMax(logits) then 1.0 else 0.0
  {
    hide Mass;
    OneHotMass(|logits|, ArgMax(logits), |logits|);
  }

  /** From temperature 1e-5 on, tokens are as likely as the exponentials of their scaled logits. */
  lemma WarmRow(logits: Row, temperature: real, exp: real -> real)
    requires |logits| > 0 && temperature >= 0.00001 && ExpLaws(exp)
    ensures var row := LogitsToProbs(logits, temperature, exp);
            && IsDistribution(row, |logits|) && RatioLaw(row, logits, temperature, exp)
            && forall i :: 0 <= i < |logits| ==> row[i] > 0.0
  {
    hide Mass, Times, Ratio, Softmax, ExpLaws, RatioLaw;
    SoftmaxIsDistribution(logits, temperature, exp);
    SoftmaxRatio(logits, temperature, exp);
  }
}
