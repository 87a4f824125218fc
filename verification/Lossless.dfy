/** Speculative decoding has the law of plain sampling from the target.

A run is described by the expectation of a payoff of its returned tokens.  `Plain` is
autoregressive sampling, one token at a time, cut at the first stop token or at the length
limit.  `Run` is the speculative loop: a whole block is drafted, every drafted position is
kept or not by an independent draw, the verdict is taken, a replacement or bonus token is
drawn, and the loop goes on from the committed tokens. */
module Lossless {
  import opened Options
  import opened Rows
  import opened Sampling
  import opened Verdicts

  /** Everything a proposer can have seen of a finished round. */
  datatype Round = Round(draft: seq<Token>, mask: seq<bool>, next: Token)

  /** The proposer is an arbitrary function of the past rounds, the generated tokens and the
      tokens drafted so far: it gives the row the next draft token is drawn from, or stops. */
  datatype Setting = Setting(
    vocab: nat,
    prompt: seq<Token>,
    target: seq<Token> -> Row,
    propose: (seq<Round>, seq<Token>, seq<Token>) -> Option<Row>,
    maxProposal: nat,
    stop: set<Token>,
    maxNew: nat,
    eps: real,
    payoff: seq<Token> -> real)

  ghost predicate Proper(s: Setting) {
    && 0.0 <= s.eps <= 1.0
    && (forall prefix :: IsDistribution(s.target(prefix), s.vocab))
    && (forall h, out, d :: s.propose(h, out, d).Some? ==> IsDistribution(s.propose(h, out, d).value, s.vocab))
    && (forall out :: Abs(s.payoff(out)) <= 1.0)
  }

  ghost function TargetRow(s: Setting, out: seq<Token>): Row {
    s.target(s.prompt + out)
  }

  function Cut(s: Setting, out: seq<Token>): seq<Token> {
    if |out| <= s.maxNew then out else out[..s.maxNew]
  }

  function Left(s: Setting, out: seq<Token>): nat {
    if |out| >= s.maxNew then 0 else s.maxNew - |out|
  }

  // ------------------------------------------------------------------ plain sampling

  ghost function Plain(s: Setting, out: seq<Token>): real
    requires Proper(s)
    decreases Left(s, out)
  {
    if |out| >= s.maxNew then s.payoff(Cut(s, out))
    else Dot(TargetRow(s, out),
             seq(s.vocab, t requires 0 <= t < s.vocab =>
                            if t in s.stop then s.payoff(Cut(s, out + [t])) else Plain(s, out + [t])),
             s.vocab)
  }

  ghost function PlainAfter(s: Setting, out: seq<Token>, t: Token): real
    requires Proper(s)
  {
    if t in s.stop then s.payoff(Cut(s, out + [t])) else Plain(s, out + [t])
  }

  ghost function PlainTable(s: Setting, out: seq<Token>): Row
    requires Proper(s)
  {
    seq(s.vocab, t requires 0 <= t < s.vocab => PlainAfter(s, out, t))
  }

  // ------------------------------------------------------------------ the speculative loop

  /** The block is complete: the limit is reached or the proposer stopped. */
  ghost predicate Complete(s: Setting, h: seq<Round>, out: seq<Token>, d: seq<Token>) {
    |d| >= s.maxProposal || s.propose(h, out, d).None?
  }

  ghost function DraftRow(s: Setting, h: seq<Round>, out: seq<Token>, d: seq<Token>): (q: Row)
    requires Proper(s)
    ensures IsDistribution(q, s.vocab)
  {
    if s.propose(h, out, d).Some? then s.propose(h, out, d).value else TargetRow(s, out + d)
  }

  ghost function At(row: Row, t: Token): real {
    if t < |row| then row[t] else 0.0
  }

  /** The probability that the draw at position i of the drafted block keeps it. */
  ghost function KeepProb(s: Setting, h: seq<Round>, out: seq<Token>, x: seq<Token>, i: nat): real
    requires Proper(s) && i < |x|
  {
    AcceptProb(At(TargetRow(s, out + x[..i]), x[i]), At(DraftRow(s, h, out, x[..i]), x[i]), s.eps)
  }

  /** The row of the token that follows n accepted draft tokens. */
  ghost function NextRow(s: Setting, h: seq<Round>, out: seq<Token>, x: seq<Token>, n: nat): (r: Row)
    requires Proper(s) && n <= |x|
    ensures IsDistribution(r, s.vocab)
  {
    var p := TargetRow(s, out + x[..n]);
    if n < |x| then
      ResidualIsDistribution(p, DraftRow(s, h, out, x[..n]), s.eps);
      ResidualRow(p, DraftRow(s, h, out, x[..n]), s.eps)
    else p
  }

  /** One more round than tokens left to generate: a full output still enters the loop once. */
  function Budget(s: Setting, out: seq<Token>): nat {
    if |out| > s.maxNew then 0 else s.maxNew + 1 - |out|
  }

  ghost function Run(s: Setting, h: seq<Round>, out: seq<Token>): real
    requires Proper(s)
    decreases Budget(s, out), 4, 0
  {
    if |out| > s.maxNew then s.payoff(Cut(s, out)) else DraftAverage(s, h, out, [], [])
  }

  /** Average over the completions of the drafted block d; the first |mask| draws are fixed. */
  ghost function DraftAverage(s: Setting, h: seq<Round>, out: seq<Token>, d: seq<Token>, mask: seq<bool>): real
    requires Proper(s) && |out| <= s.maxNew && |mask| <= |d|
    decreases Budget(s, out), 3, if |d| >= s.maxProposal then 0 else s.maxProposal - |d|
  {
    if Complete(s, h, out, d) then MaskAverage(s, h, out, d, mask)
    else Dot(DraftRow(s, h, out, d),
             seq(s.vocab, t requires 0 <= t < s.vocab => DraftAverage(s, h, out, d + [t], mask)),
             s.vocab)
  }

  /** Average over the independent draws that are not fixed yet. */
  ghost function MaskAverage(s: Setting, h: seq<Round>, out: seq<Token>, x: seq<Token>, mask: seq<bool>): real
    requires Proper(s) && |out| <= s.maxNew && |mask| <= |x|
    decreases Budget(s, out), 2, |x| - |mask|
  {
    if |mask| == |x| then Outcome(s, h, out, x, mask)
    else
      var a := KeepProb(s, h, out, x, |mask|);
      Times(a, MaskAverage(s, h, out, x, mask + [true])) + Times(1.0 - a, MaskAverage(s, h, out, x, mask + [false]))
  }

  /** The block is judged; unless a stop token ends the run, one more token is drawn. */
  ghost function Outcome(s: Setting, h: seq<Round>, out: seq<Token>, x: seq<Token>, mask: seq<bool>): real
    requires Proper(s) && |out| <= s.maxNew && |mask| == |x|
    decreases Budget(s, out), 1, 0
  {
    var v := Judge(x, mask, s.stop);
    if v.terminated then s.payoff(Cut(s, out + x[..v.accepted]))
    else Dot(NextRow(s, h, out, x, v.accepted),
             seq(s.vocab, t requires 0 <= t < s.vocab => After(s, h, out, x, mask, v.accepted, t)),
             s.vocab)
  }

  ghost function After(s: Setting, h: seq<Round>, out: seq<Token>, x: seq<Token>, mask: seq<bool>, n: nat,
                       t: Token): real
    requires Proper(s) && |out| <= s.maxNew && n <= |x|
    decreases Budget(s, out), 0, 0
  {
    var committed := out + x[..n] + [t];
    if t in s.stop then s.payoff(Cut(s, committed)) else Run(s, h + [Round(x, mask, t)], committed)
  }

  // ------------------------------------------------------------------ averages

  /** An average of values near c is near c. */
  lemma AverageNear(p: Row, f: Row, c: real, d: real, n: nat)
    requires IsDistribution(p, n) && |f| == n
    requires forall i :: 0 <= i < n ==> Abs(f[i] - c) <= d
    ensures Abs(Dot(p, f, n) - c) <= d
  {
    hide Times, Mass, Dot;
    var g := seq(n, i => c);
    DotClose(p, f, g, d, n);
    DotConstant(p, g, c, n);
    TimesUnit(d);
    TimesUnit(c);
  }

  lemma AverageGap(p: Row, f: Row, g: Row, d: real, n: nat)
    requires IsDistribution(p, n) && |f| == n && |g| == n
    requires forall i :: 0 <= i < n ==> Abs(f[i] - g[i]) <= d
    ensures Abs(Dot(p, f, n) - Dot(p, g, n)) <= d
  {
    hide Times, Mass, Dot;
    DotClose(p, f, g, d, n);
    TimesUnit(d);
  }

  lemma ConvexGap(a: real, x: real, y: real, u: real, v: real, d: real)
    requires 0.0 <= a <= 1.0 && Abs(x - u) <= d && Abs(y - v) <= d
    ensures Abs(Times(a, x) + Times(1.0 - a, y) - (Times(a, u) + Times(1.0 - a, v))) <= d
  {
    hide Times;
    TimesDifference(a, x, u);
    TimesDifference(1.0 - a, y, v);
    TimesMonotone(a, x - u, d);
    TimesMonotone(a, -d, x - u);
    TimesMonotone(1.0 - a, y - v, d);
    TimesMonotone(1.0 - a, -d, y - v);
    TimesDifference(d, 1.0, a);
    TimesDifference(-d, 1.0, a);
    TimesUnit(d);
    TimesUnit(-d);
  }

  lemma {:induction false} PlainBounded(s: Setting, out: seq<Token>)
    requires Proper(s)
    ensures Abs(Plain(s, out)) <= 1.0
    ensures |out| < s.maxNew ==> forall t :: 0 <= t < s.vocab ==> Abs(PlainAfter(s, out, t)) <= 1.0
    decreases Left(s, out)
  {
    hide Dot, IsDistribution;
    if |out| < s.maxNew {
      forall t | 0 <= t < s.vocab
        ensures Abs(PlainAfter(s, out, t)) <= 1.0
      {
        PlainBounded(s, out + [t]);
      }
      PlainUnfold(s, out);
      AverageNear(TargetRow(s, out), PlainTable(s, out), 0.0, 1.0, s.vocab);
    }
  }

  /** One step of plain sampling, at any length: past the limit a further token changes nothing. */
  lemma PlainUnfold(s: Setting, out: seq<Token>)
    requires Proper(s)
    ensures Plain(s, out) == Dot(TargetRow(s, out), PlainTable(s, out), s.vocab)
    ensures |out| >= s.maxNew ==> forall t :: 0 <= t < s.vocab ==> PlainAfter(s, out, t) == Plain(s, out)
  {
    hide Dot, Times, Mass;
    var table := PlainTable(s, out);
    if |out| >= s.maxNew {
      forall t | 0 <= t < s.vocab
        ensures PlainAfter(s, out, t) == Plain(s, out)
      {
        assert Cut(s, out + [t]) == Cut(s, out);
      }
      DotConstant(TargetRow(s, out), table, Plain(s, out), s.vocab);
      TimesUnit(Plain(s, out));
    } else {
      assert table == seq(s.vocab, t requires 0 <= t < s.vocab =>
                            if t in s.stop then s.payoff(Cut(s, out + [t])) else Plain(s, out + [t]));
    }
  }

  // ------------------------------------------------------------------ the error budget

  /** Every position's emitted law is within beta of the target row. */
  ghost predicate Faithful(s: Setting, beta: real) {
    && Proper(s) && beta >= 0.0
    && forall h, out, d :: s.propose(h, out, d).Some? ==>
         Distance(EmittedRow(TargetRow(s, out + d), DraftRow(s, h, out, d), s.eps), TargetRow(s, out + d),
                  s.vocab) <= beta
  }

  /** Beta for every token that can still reach the output. */
  function ErrorBudget(s: Setting, beta: real, n: nat): real {
    Times(beta, (if n >= s.maxNew then 0 else s.maxNew - n) as real)
  }

  lemma BudgetStep(s: Setting, beta: real, n: nat)
    requires beta >= 0.0
    ensures 0.0 <= ErrorBudget(s, beta, n + 1) <= ErrorBudget(s, beta, n)
    ensures n >= s.maxNew ==> ErrorBudget(s, beta, n) == 0.0
    ensures n < s.maxNew ==> ErrorBudget(s, beta, n) == ErrorBudget(s, beta, n + 1) + beta
  {
    hide Times;
    TimesUnit(beta);
    if n < s.maxNew {
      var rest := s.maxNew - n - 1;
      TimesSum(beta, rest as real, 1.0);
      TimesMonotone(beta, 0.0, rest as real);
    }
  }

  // ------------------------------------------------------------------ fixed draws

  lemma SplitTerm(a: real, x: real, y: real, q: Row, f: Row, g: Row, h: Row, n: nat)
    requires |q| == n && |f| == n && |g| == n && |h| == n
    requires forall i :: 0 <= i < n ==> h[i] == Times(a, f[i]) + Times(1.0 - a, g[i])
    requires x == Dot(q, f, n) && y == Dot(q, g, n)
    ensures Dot(q, h, n) == Times(a, x) + Times(1.0 - a, y)
  {
    hide Times, Dot;
    DotLinear(q, f, g, h, a, 1.0 - a, n);
  }

  ghost function DraftTable(s: Setting, h: seq<Round>, out: seq<Token>, d: seq<Token>, mask: seq<bool>): Row
    requires Proper(s) && |out| <= s.maxNew && |mask| <= |d|
  {
    seq(s.vocab, t requires 0 <= t < s.vocab => DraftAverage(s, h, out, d + [t], mask))
  }

  lemma DraftUnfold(s: Setting, h: seq<Round>, out: seq<Token>, d: seq<Token>, mask: seq<bool>)
    requires Proper(s) && |out| <= s.maxNew && |mask| <= |d|
    requires !Complete(s, h, out, d)
    ensures DraftAverage(s, h, out, d, mask) == Dot(DraftRow(s, h, out, d), DraftTable(s, h, out, d, mask), s.vocab)
  {
    hide Dot, Proper;
    assert DraftTable(s, h, out, d, mask)
        == seq(s.vocab, t requires 0 <= t < s.vocab => DraftAverage(s, h, out, d + [t], mask));
  }

  /** The whole block is drafted before any draw is made, yet the draw of an already drafted
      position can be taken first. */
  lemma {:induction false} DrawFirst(s: Setting, h: seq<Round>, out: seq<Token>, d: seq<Token>, mask: seq<bool>)
    requires Proper(s) && |out| <= s.maxNew && |mask| < |d|
    ensures DraftAverage(s, h, out, d, mask)
         == Times(KeepProb(s, h, out, d, |mask|), DraftAverage(s, h, out, d, mask + [true]))
          + Times(1.0 - KeepProb(s, h, out, d, |mask|), DraftAverage(s, h, out, d, mask + [false]))
    decreases if |d| >= s.maxProposal then 0 else s.maxProposal - |d|
  {
    hide Dot, Times, AcceptProb, Proper;
    if !Complete(s, h, out, d) {
      var a := KeepProb(s, h, out, d, |mask|);
      DraftUnfold(s, h, out, d, mask);
      DraftUnfold(s, h, out, d, mask + [true]);
      DraftUnfold(s, h, out, d, mask + [false]);
      forall t | 0 <= t < s.vocab
        ensures DraftTable(s, h, out, d, mask)[t]
             == Times(a, DraftTable(s, h, out, d, mask + [true])[t])
             + Times(1.0 - a, DraftTable(s, h, out, d, mask + [false])[t])
      {
        DrawFirst(s, h, out, d + [t], mask);
        assert (d + [t])[..|mask|] == d[..|mask|];
      }
      SplitTerm(a, DraftAverage(s, h, out, d, mask + [true]), DraftAverage(s, h, out, d, mask + [false]),
                DraftRow(s, h, out, d), DraftTable(s, h, out, d, mask + [true]),
                DraftTable(s, h, out, d, mask + [false]), DraftTable(s, h, out, d, mask), s.vocab);
    }
  }

  /** All of the first n draws keep their token. */
  predicate Kept(mask: seq<bool>, n: nat) {
    n <= |mask| && forall i :: 0 <= i < n ==> mask[i]
  }

  lemma ConvexSame(a: real, x: real)
    ensures Times(a, x) + Times(1.0 - a, x) == x
  {
    hide Times;
    TimesDifference(x, 1.0, a);
    TimesUnit(x);
  }

  /** A kept stop token at position e decides the result, whatever is drawn after it. */
  lemma {:induction false} StoppedMask(s: Setting, h: seq<Round>, out: seq<Token>, x: seq<Token>, mask: seq<bool>,
                                       e: nat)
    requires Proper(s) && |out| <= s.maxNew && |mask| <= |x|
    requires e < |x| && x[e] in s.stop && StopFree(x[..e], s.stop) && Kept(mask, e + 1)
    ensures MaskAverage(s, h, out, x, mask) == s.payoff(Cut(s, out + x[..e + 1]))
    decreases |x| - |mask|
  {
    hide Times, Dot, AcceptProb, Proper;
    if |mask| == |x| {
      JudgeAtStop(x, mask, s.stop, e);
    } else {
      StoppedMask(s, h, out, x, mask + [true], e);
      StoppedMask(s, h, out, x, mask + [false], e);
      ConvexSame(KeepProb(s, h, out, x, |mask|), s.payoff(Cut(s, out + x[..e + 1])));
    }
  }

  lemma {:induction false} StoppedDraft(s: Setting, h: seq<Round>, out: seq<Token>, d: seq<Token>, mask: seq<bool>,
                                        e: nat)
    requires Proper(s) && |out| <= s.maxNew && |mask| <= |d|
    requires e < |d| && d[e] in s.stop && StopFree(d[..e], s.stop) && Kept(mask, e + 1)
    ensures DraftAverage(s, h, out, d, mask) == s.payoff(Cut(s, out + d[..e + 1]))
    decreases if |d| >= s.maxProposal then 0 else s.maxProposal - |d|
  {
    hide Times, Dot, Proper, Mass;
    if Complete(s, h, out, d) {
      StoppedMask(s, h, out, d, mask, e);
    } else {
      var c := s.payoff(Cut(s, out + d[..e + 1]));
      DraftUnfold(s, h, out, d, mask);
      forall t | 0 <= t < s.vocab
        ensures DraftTable(s, h, out, d, mask)[t] == c
      {
        assert (d + [t])[..e] == d[..e] && (d + [t])[..e + 1] == d[..e + 1];
        StoppedDraft(s, h, out, d + [t], mask, e);
      }
      DotConstant(DraftRow(s, h, out, d), DraftTable(s, h, out, d, mask), c, s.vocab);
      TimesUnit(c);
    }
  }

  // ------------------------------------------------------------------ closeness

  /** The value of continuing by plain sampling after n accepted tokens and one token of the
      replacement (or bonus) row. */
  ghost function Resumed(s: Setting, h: seq<Round>, out: seq<Token>, x: seq<Token>, n: nat): real
    requires Proper(s) && n <= |x|
  {
    Dot(NextRow(s, h, out, x, n), PlainTable(s, out + x[..n]), s.vocab)
  }

  lemma {:induction false} OutcomeClose(s: Setting, beta: real, h: seq<Round>, out: seq<Token>, x: seq<Token>,
                                        mask: seq<bool>, n: nat)
    requires Faithful(s, beta) && |out| <= s.maxNew && |mask| == |x|
    requires CountAccepted(mask) == n && StopFree(x[..n], s.stop)
    ensures Abs(Outcome(s, h, out, x, mask) - Resumed(s, h, out, x, n)) <= ErrorBudget(s, beta, |out| + n + 1)
    decreases Budget(s, out), 0, 0
  {
    hide Times, Dot, Proper, ErrorBudget, Plain, Run, ResidualRow, IsDistribution;
    var v := Judge(x, mask, s.stop);
    assert forall i :: 0 <= i < n ==> x[..n][i] == x[i];
    var table := seq(s.vocab, t requires 0 <= t < s.vocab => After(s, h, out, x, mask, n, t));
    BudgetStep(s, beta, |out| + n);
    forall t | 0 <= t < s.vocab
      ensures Abs(table[t] - PlainTable(s, out + x[..n])[t]) <= ErrorBudget(s, beta, |out| + n + 1)
    {
      if t !in s.stop {
        RunClose(s, beta, h + [Round(x, mask, t)], out + x[..n] + [t]);
      }
    }
    AverageGap(NextRow(s, h, out, x, n), table, PlainTable(s, out + x[..n]), ErrorBudget(s, beta, |out| + n + 1),
               s.vocab);
  }

  /** After the first rejection, at position n, the later draws do not matter. */
  lemma {:induction false} RejectedMask(s: Setting, beta: real, h: seq<Round>, out: seq<Token>, x: seq<Token>,
                                        mask: seq<bool>, n: nat)
    requires Faithful(s, beta) && |out| <= s.maxNew && |mask| <= |x|
    requires Kept(mask, n) && ((n < |mask| && !mask[n]) || n == |mask| == |x|) && StopFree(x[..n], s.stop)
    ensures Abs(MaskAverage(s, h, out, x, mask) - Resumed(s, h, out, x, n)) <= ErrorBudget(s, beta, |out| + n + 1)
    decreases Budget(s, out), 1, |x| - |mask|
  {
    hide Times, Dot, Proper, ErrorBudget, AcceptProb, Outcome, Resumed;
    if |mask| == |x| {
      OutcomeClose(s, beta, h, out, x, mask, n);
    } else {
      RejectedMask(s, beta, h, out, x, mask + [true], n);
      RejectedMask(s, beta, h, out, x, mask + [false], n);
      var a, c := KeepProb(s, h, out, x, |mask|), Resumed(s, h, out, x, n);
      KeepProbBounds(s, h, out, x, |mask|);
      ConvexGap(a, MaskAverage(s, h, out, x, mask + [true]), MaskAverage(s, h, out, x, mask + [false]), c, c,
                ErrorBudget(s, beta, |out| + n + 1));
      ConvexSame(a, c);
    }
  }

  lemma KeepProbBounds(s: Setting, h: seq<Round>, out: seq<Token>, x: seq<Token>, i: nat)
    requires Proper(s) && i < |x|
    ensures 0.0 <= KeepProb(s, h, out, x, i) <= 1.0
  {
    hide AcceptProb, Mass;
    AcceptBounds(At(TargetRow(s, out + x[..i]), x[i]), At(DraftRow(s, h, out, x[..i]), x[i]), s.eps);
  }

  lemma {:induction false} RejectedDraft(s: Setting, beta: real, h: seq<Round>, out: seq<Token>, d: seq<Token>,
                                         mask: seq<bool>, n: nat)
    requires Faithful(s, beta) && |out| <= s.maxNew && |mask| <= |d|
    requires Kept(mask, n) && n < |mask| && !mask[n] && StopFree(d[..n], s.stop)
    ensures Abs(DraftAverage(s, h, out, d, mask) - Resumed(s, h, out, d, n)) <= ErrorBudget(s, beta, |out| + n + 1)
    decreases Budget(s, out), 2, if |d| >= s.maxProposal then 0 else s.maxProposal - |d|
  {
    hide Times, Dot, Proper, ErrorBudget, MaskAverage, Plain, IsDistribution, ResidualRow;
    if Complete(s, h, out, d) {
      RejectedMask(s, beta, h, out, d, mask, n);
    } else {
      DraftUnfold(s, h, out, d, mask);
      forall t | 0 <= t < s.vocab
        ensures Abs(DraftTable(s, h, out, d, mask)[t] - Resumed(s, h, out, d, n)) <= ErrorBudget(s, beta, |out| + n + 1)
      {
        assert (d + [t])[..n] == d[..n];
        RejectedDraft(s, beta, h, out, d + [t], mask, n);
      }
      AverageNear(DraftRow(s, h, out, d), DraftTable(s, h, out, d, mask), Resumed(s, h, out, d, n),
                  ErrorBudget(s, beta, |out| + n + 1), s.vocab);
    }
  }

  lemma {:induction false} KeptAverage(q: Row, acc: Row, kept: Row, f: Row, keep: Row, n: nat)
    requires n <= |q| && n <= |acc| && n <= |kept| && n <= |f| && n <= |keep|
    requires forall t :: 0 <= t < n ==> keep[t] == Times(acc[t], f[t]) && kept[t] == Times(q[t], acc[t])
    ensures Dot(q, keep, n) == Dot(kept, f, n)
  {
    hide Times;
    if n > 0 {
      KeptAverage(q, acc, kept, f, keep, n - 1);
      TimesAssociate(q[n - 1], acc[n - 1], f[n - 1]);
    }
  }

  lemma MixAverage(q: Row, acc: Row, reject: Row, kept: Row, residual: Row, e: Row, rejected: real, f: Row, mix: Row,
                   c: real, n: nat)
    requires |q| == |acc| == |reject| == |kept| == |residual| == |e| == |f| == |mix| == n
    requires c == Dot(residual, f, n) && rejected == Dot(q, reject, n)
    requires forall t :: 0 <= t < n ==> mix[t] == Times(acc[t], f[t]) + Times(reject[t], c)
    requires forall t :: 0 <= t < n ==> kept[t] == Times(q[t], acc[t])
    requires forall t :: 0 <= t < n ==> e[t] == kept[t] + Times(rejected, residual[t])
    ensures Dot(q, mix, n) == Dot(e, f, n)
  {
    hide Times, Dot;
    var keep := seq(n, t requires 0 <= t < n => Times(acc[t], f[t]));
    forall t | 0 <= t < n
      ensures mix[t] == Times(1.0, keep[t]) + Times(c, reject[t])
    {
      TimesUnit(keep[t]);
      TimesCommute(reject[t], c);
    }
    DotLinear(q, keep, reject, mix, 1.0, c, n);
    TimesUnit(Dot(q, keep, n));
    KeptAverage(q, acc, kept, f, keep, n);
    DotLinearWeights(kept, residual, e, rejected, f, n);
    TimesCommute(c, rejected);
  }

  /** A drafted position replaces the target row by its emitted law. */
  lemma PositionAverage(p: Row, q: Row, eps: real, f: Row, mix: Row)
    requires IsDistribution(p, |p|) && IsDistribution(q, |p|) && 0.0 <= eps <= 1.0
    requires |f| == |p| && |mix| == |p|
    requires |ResidualRow(p, q, eps)| == |p|
    requires forall t :: 0 <= t < |p| ==>
      mix[t] == Times(AcceptProb(p[t], q[t], eps), f[t])
              + Times(1.0 - AcceptProb(p[t], q[t], eps), Dot(ResidualRow(p, q, eps), f, |p|))
    ensures Dot(q, mix, |p|) == Dot(EmittedRow(p, q, eps), f, |p|)
  {
    hide Times, Dot, AcceptProb, Mass, ResidualRow;
    MixAverage(q, AcceptRow(p, q, eps), RejectRow(p, q, eps), KeptRow(p, q, eps), ResidualRow(p, q, eps),
               EmittedRow(p, q, eps), RejectMass(p, q, eps), f, mix, Dot(ResidualRow(p, q, eps), f, |p|), |p|);
  }

  /** The value of replacing the token drafted after d and sampling plainly from there on. */
  ghost function Replaced(s: Setting, h: seq<Round>, out: seq<Token>, d: seq<Token>): real
    requires Proper(s)
  {
    Dot(ResidualRow(TargetRow(s, out + d), DraftRow(s, h, out, d), s.eps), PlainTable(s, out + d), s.vocab)
  }

  /** The value of each draft token when plain sampling follows: kept, or replaced. */
  ghost function MixTable(s: Setting, h: seq<Round>, out: seq<Token>, d: seq<Token>): Row
    requires Proper(s)
  {
    var p, q, c := TargetRow(s, out + d), DraftRow(s, h, out, d), Replaced(s, h, out, d);
    seq(s.vocab, t requires 0 <= t < s.vocab =>
                   Times(AcceptProb(p[t], q[t], s.eps), PlainAfter(s, out + d, t))
                   + Times(1.0 - AcceptProb(p[t], q[t], s.eps), c))
  }

  /** With d drafted and kept, and none of it a stop token, the rest of the round is worth
      what plain sampling is worth after d, up to the error budget. */
  lemma {:induction false} DraftClose(s: Setting, beta: real, h: seq<Round>, out: seq<Token>, d: seq<Token>,
                                      mask: seq<bool>)
    requires Faithful(s, beta) && |out| <= s.maxNew
    requires |mask| == |d| && Kept(mask, |d|) && StopFree(d, s.stop)
    ensures Abs(DraftAverage(s, h, out, d, mask) - Plain(s, out + d)) <= ErrorBudget(s, beta, |out| + |d|)
    decreases Budget(s, out), 3, if |d| >= s.maxProposal then 0 else s.maxProposal - |d|
  {
    hide Times, Dot, Proper, ErrorBudget, MaskAverage, Plain, IsDistribution, ResidualRow, PlainAfter, MixTable;
    var m := |out| + |d|;
    BudgetStep(s, beta, m);
    assert d[..|d|] == d;
    if Complete(s, h, out, d) {
      RejectedMask(s, beta, h, out, d, mask, |d|);
      PlainUnfold(s, out + d);
    } else {
      DraftUnfold(s, h, out, d, mask);
      MixClose(s, beta, h, out, d);
      forall t | 0 <= t < s.vocab
        ensures Abs(DraftTable(s, h, out, d, mask)[t] - MixTable(s, h, out, d)[t]) <= ErrorBudget(s, beta, m + 1)
      {
        TokenClose(s, beta, h, out, d, mask, t);
      }
      AverageGap(DraftRow(s, h, out, d), DraftTable(s, h, out, d, mask), MixTable(s, h, out, d),
                 ErrorBudget(s, beta, m + 1), s.vocab);
    }
  }

  lemma FaithfulAt(s: Setting, beta: real, h: seq<Round>, out: seq<Token>, d: seq<Token>)
    requires Faithful(s, beta) && !Complete(s, h, out, d)
    ensures |TargetRow(s, out + d)| == s.vocab && IsDistribution(TargetRow(s, out + d), s.vocab)
    ensures IsDistribution(DraftRow(s, h, out, d), s.vocab) && 0.0 <= s.eps <= 1.0
    ensures Distance(EmittedRow(TargetRow(s, out + d), DraftRow(s, h, out, d), s.eps), TargetRow(s, out + d),
                     s.vocab) <= beta
  {
    hide Distance, EmittedRow, Mass;
  }

  lemma MixClose(s: Setting, beta: real, h: seq<Round>, out: seq<Token>, d: seq<Token>)
    requires Faithful(s, beta) && !Complete(s, h, out, d)
    ensures |MixTable(s, h, out, d)| == s.vocab
    ensures Abs(Dot(DraftRow(s, h, out, d), MixTable(s, h, out, d), s.vocab) - Plain(s, out + d))
         <= if |out| + |d| < s.maxNew then beta else 0.0
  {
    hide Times, Dot, Plain, ResidualRow, PlainAfter, AcceptProb, Mass, Faithful, Proper, Distance, EmittedRow;
    FaithfulIsProper(s, beta);
    FaithfulAt(s, beta, h, out, d);
    var p, q, f := TargetRow(s, out + d), DraftRow(s, h, out, d), PlainTable(s, out + d);
    ResidualIsDistribution(p, q, s.eps);
    PositionAverage(p, q, s.eps, f, MixTable(s, h, out, d));
    PlainUnfold(s, out + d);
    EmittedLaw(p, q, s.eps);
    if |out| + |d| < s.maxNew {
      PlainBounded(s, out + d);
      DotCloseWeights(EmittedRow(p, q, s.eps), p, f, s.vocab);
    } else {
      AverageNear(EmittedRow(p, q, s.eps), f, Plain(s, out + d), 0.0, s.vocab);
    }
  }

  lemma FaithfulIsProper(s: Setting, beta: real)
    requires Faithful(s, beta)
    ensures Proper(s)
  {}

  lemma {:induction false} TokenClose(s: Setting, beta: real, h: seq<Round>, out: seq<Token>, d: seq<Token>,
                                      mask: seq<bool>, t: Token)
    requires Faithful(s, beta) && |out| <= s.maxNew && t < s.vocab
    requires |mask| == |d| && Kept(mask, |d|) && StopFree(d, s.stop) && !Complete(s, h, out, d)
    ensures |MixTable(s, h, out, d)| == s.vocab
    ensures Abs(DraftAverage(s, h, out, d + [t], mask) - MixTable(s, h, out, d)[t])
         <= ErrorBudget(s, beta, |out| + |d| + 1)
    decreases Budget(s, out), 3, if |d| >= s.maxProposal then 0 else s.maxProposal - |d|, 0
  {
    hide Times, Dot, Proper, ErrorBudget, DraftAverage, Plain, ResidualRow, AcceptProb, Mass;
    var m, x, c := |out| + |d|, d + [t], Replaced(s, h, out, d);
    assert x[..|d|] == d && x[..|d| + 1] == x && out + d + [t] == out + x;
    BudgetStep(s, beta, m);
    DrawFirst(s, h, out, x, mask);
    RejectedDraft(s, beta, h, out, x, mask + [false], |d|);
    assert Resumed(s, h, out, x, |d|) == c;
    if t in s.stop {
      StoppedDraft(s, h, out, x, mask + [true], |d|);
    } else {
      DraftClose(s, beta, h, out, x, mask + [true]);
    }
    var p, q := TargetRow(s, out + d), DraftRow(s, h, out, d);
    assert KeepProb(s, h, out, x, |d|) == AcceptProb(p[t], q[t], s.eps) by { RowSizes(s, h, out, d); }
    KeepProbBounds(s, h, out, x, |d|);
    ConvexGap(KeepProb(s, h, out, x, |d|),
              DraftAverage(s, h, out, x, mask + [true]), DraftAverage(s, h, out, x, mask + [false]),
              PlainAfter(s, out + d, t), c, ErrorBudget(s, beta, m + 1));
  }

  lemma RowSizes(s: Setting, h: seq<Round>, out: seq<Token>, d: seq<Token>)
    requires Proper(s)
    ensures |TargetRow(s, out + d)| == s.vocab && |DraftRow(s, h, out, d)| == s.vocab
  {}

  /** The loop, from any committed output and any history, is worth what plain sampling is
      worth from there, up to beta for every token still to come. */
  lemma {:induction false} RunClose(s: Setting, beta: real, h: seq<Round>, out: seq<Token>)
    requires Faithful(s, beta)
    ensures Abs(Run(s, h, out) - Plain(s, out)) <= ErrorBudget(s, beta, |out|)
    decreases Budget(s, out), 4, 0
  {
    hide Times, Dot, Proper, ErrorBudget, DraftAverage;
    BudgetStep(s, beta, |out|);
    if |out| <= s.maxNew {
      DraftClose(s, beta, h, out, [], []);
      assert out + [] == out;
    }
  }

  // ------------------------------------------------------------------ whole runs

  /** generate_decoding_sample: one token from the target, and the loop unless it is a stop token. */
  ghost function Generate(s: Setting): real
    requires Proper(s)
  {
    Dot(TargetRow(s, []),
        seq(s.vocab, t requires 0 <= t < s.vocab => if t in s.stop then s.payoff([t]) else Run(s, [], [t])),
        s.vocab)
  }

  /** For every target, proposer, stop set and bounded payoff, a run is worth what plain
      sampling is worth, up to beta for every generated token but the first. */
  lemma GenerateClose(s: Setting, beta: real)
    requires Faithful(s, beta) && s.maxNew >= 1
    ensures Abs(Generate(s) - Plain(s, [])) <= ErrorBudget(s, beta, 1)
  {
    hide Times, Dot, ErrorBudget, Run, Plain, IsDistribution;
    var table := seq(s.vocab, t requires 0 <= t < s.vocab => if t in s.stop then s.payoff([t]) else Run(s, [], [t]));
    BudgetStep(s, beta, 0);
    forall t | 0 <= t < s.vocab
      ensures Abs(table[t] - PlainTable(s, [])[t]) <= ErrorBudget(s, beta, 1)
    {
      assert [] + [t] == [t];
      RunClose(s, beta, [], [t]);
    }
    AverageGap(TargetRow(s, []), table, PlainTable(s, []), ErrorBudget(s, beta, 1), s.vocab);
    PlainUnfold(s, []);
  }

  /** With the floors of the program: (vocab/2 + 2) * eps per generated token but the first. */
  lemma NumericBound(s: Setting)
    requires Proper(s) && s.maxNew >= 1
    ensures Abs(Generate(s) - Plain(s, [])) <= Times(PositionError(s.vocab, s.eps), (s.maxNew - 1) as real)
  {
    hide Generate, Plain, Faithful, PositionError;
    AlwaysFaithful(s);
    GenerateClose(s, PositionError(s.vocab, s.eps));
  }

  lemma AlwaysFaithful(s: Setting)
    requires Proper(s)
    ensures Faithful(s, PositionError(s.vocab, s.eps))
  {
    hide Times, Mass, Distance, KeptRow, ResidualRow;
    TimesMonotone(s.eps / 4.0, 0.0, s.vocab as real);
    TimesUnit(s.eps / 4.0);
    forall h, out, d | s.propose(h, out, d).Some?
      ensures Distance(EmittedRow(TargetRow(s, out + d), DraftRow(s, h, out, d), s.eps), TargetRow(s, out + d),
                       s.vocab) <= PositionError(s.vocab, s.eps)
    {
      EmittedLaw(TargetRow(s, out + d), DraftRow(s, h, out, d), s.eps);
    }
  }

  /** The payoffs of the texts that one more token can complete. */
  function LastTable(s: Setting, out: seq<Token>): Row {
    seq(s.vocab, t requires 0 <= t < s.vocab => s.payoff(out + [t]))
  }

  /** With one token to go and a block drafted for it, the last token has exactly the emitted law of its
      position: this is where the floors show. */
  lemma LastToken(s: Setting, h: seq<Round>, out: seq<Token>)
    requires Proper(s) && |out| + 1 == s.maxNew && s.maxProposal > 0 && s.propose(h, out, []).Some?
    ensures |EmittedRow(TargetRow(s, out), s.propose(h, out, []).value, s.eps)| == s.vocab
    ensures Run(s, h, out)
         == Dot(EmittedRow(TargetRow(s, out), s.propose(h, out, []).value, s.eps), LastTable(s, out), s.vocab)
  {
    hide Times, Dot, DraftAverage, ResidualRow, AcceptProb, Mass, Faithful, Distance, EmittedRow, ErrorBudget,
         PositionError;
    var beta := PositionError(s.vocab, s.eps);
    AlwaysFaithful(s);
    FaithfulAt(s, beta, h, out, []);
    assert out + [] == out;
    var p, q := TargetRow(s, out), DraftRow(s, h, out, []);
    DraftUnfold(s, h, out, [], []);
    BudgetStep(s, beta, |out| + 1) by { BetaIsNonNegative(s); }
    ResidualIsDistribution(p, q, s.eps);
    PositionAverage(p, q, s.eps, PlainTable(s, out), MixTable(s, h, out, []));
    EmittedLaw(p, q, s.eps);
    forall t | 0 <= t < s.vocab
      ensures Abs(DraftTable(s, h, out, [], [])[t] - MixTable(s, h, out, [])[t]) <= 0.0
    {
      TokenClose(s, beta, h, out, [], [], t);
    }
    AverageGap(q, DraftTable(s, h, out, [], []), MixTable(s, h, out, []), 0.0, s.vocab);
    assert PlainTable(s, out) == LastTable(s, out);
  }

  lemma BetaIsNonNegative(s: Setting)
    requires Proper(s)
    ensures PositionError(s.vocab, s.eps) >= 0.0
  {
    hide Times;
    TimesMonotone(s.eps / 4.0, 0.0, s.vocab as real);
    TimesUnit(s.eps / 4.0);
  }

  /** Every pair of target and draft rows is balanced, so that no position deviates. */
  ghost predicate AlwaysBalanced(s: Setting)
    requires Proper(s)
  {
    forall h, out, d :: s.propose(h, out, d).Some? ==>
      var p, q := TargetRow(s, out + d), DraftRow(s, h, out, d);
      Balanced(p, Excess(p, q), Shortfall(p, q, s.eps), s.eps)
  }

  /** With balanced rows the returned tokens have exactly the law of plain sampling. */
  lemma ExactRun(s: Setting)
    requires Proper(s) && s.maxNew >= 1 && AlwaysBalanced(s)
    ensures Generate(s) == Plain(s, [])
  {
    hide Times, Dot, Generate, Plain, Mass, Distance, KeptRow, ResidualRow, Balanced;
    forall h, out, d | s.propose(h, out, d).Some?
      ensures Distance(EmittedRow(TargetRow(s, out + d), DraftRow(s, h, out, d), s.eps), TargetRow(s, out + d),
                       s.vocab) <= 0.0
    {
      var p, q := TargetRow(s, out + d), DraftRow(s, h, out, d);
      EmittedExactly(p, q, s.eps);
      DistanceZero(EmittedRow(p, q, s.eps), p, s.vocab);
    }
    GenerateClose(s, 0.0);
    TimesUnit((s.maxNew - 1) as real);
  }

  lemma BalancedWithoutFloor(p: Row, q: Row)
    requires IsDistribution(p, |p|) && IsDistribution(q, |p|)
    ensures Balanced(p, Excess(p, q), Shortfall(p, q, 0.0), 0.0)
  {
    hide Times, Keep, Mass, Balanced, EmittedRow, Shortfall;
    MassNonNegative(Excess(p, q), |p|);
    ExactWithoutTinyTokens(p, q, 0.0);
    EmittedExactly(p, q, 0.0);
  }

  /** In exact arithmetic without the floors, speculative decoding is lossless. */
  lemma LosslessRun(s: Setting)
    requires Proper(s) && s.maxNew >= 1 && s.eps == 0.0
    ensures Generate(s) == Plain(s, [])
  {
    hide Times, Dot, Generate, Plain, Mass, Balanced, Shortfall, Excess;
    forall h, out, d | s.propose(h, out, d).Some? {
      BalancedWithoutFloor(TargetRow(s, out + d), DraftRow(s, h, out, d));
    }
    ExactRun(s);
  }

  // ------------------------------------------------------------------ the probability of a text

  /** y can be returned: it ends at its only stop token or at the length limit. */
  predicate Returnable(s: Setting, y: seq<Token>) {
    && 0 < |y| <= s.maxNew
    && (forall i :: 0 <= i < |y| ==> y[i] < s.vocab)
    && StopFree(y[..|y| - 1], s.stop)
    && (|y| == s.maxNew || y[|y| - 1] in s.stop)
  }

  /** The product of the target's conditional probabilities of y[k], y[k + 1], ... */
  ghost function Likelihood(s: Setting, y: seq<Token>, k: nat): real
    requires k <= |y|
    decreases |y| - k
  {
    if k == |y| then 1.0 else Times(At(TargetRow(s, y[..k]), y[k]), Likelihood(s, y, k + 1))
  }

  ghost predicate PaysFor(s: Setting, y: seq<Token>) {
    forall out :: s.payoff(out) == if out == y then 1.0 else 0.0
  }

  lemma {:induction false} DotSingle(p: Row, f: Row, k: nat, n: nat)
    requires n <= |p| && n <= |f|
    requires forall i :: 0 <= i < n && i != k ==> f[i] == 0.0
    ensures Dot(p, f, n) == if k < n then Times(p[k], f[k]) else 0.0
  {
    hide Times;
    if n > 0 {
      DotSingle(p, f, k, n - 1);
      TimesUnit(p[n - 1]);
    }
  }

  lemma {:induction false} PlainMissed(s: Setting, y: seq<Token>, out: seq<Token>)
    requires Proper(s) && PaysFor(s, y) && |out| <= s.maxNew && !(out <= y)
    ensures Plain(s, out) == 0.0
    decreases Left(s, out)
  {
    hide Dot, Plain, IsDistribution;
    if |out| == s.maxNew {
      assert Plain(s, out) == s.payoff(out) by { PlainFull(s, out); }
    } else {
      forall t | 0 <= t < s.vocab
        ensures Abs(PlainTable(s, out)[t] - 0.0) <= 0.0
      {
        assert out + [t] <= y ==> out <= y;
        PlainMissed(s, y, out + [t]);
      }
      PlainUnfold(s, out);
      AverageNear(TargetRow(s, out), PlainTable(s, out), 0.0, 0.0, s.vocab);
    }
  }

  lemma PlainFull(s: Setting, out: seq<Token>)
    requires Proper(s) && |out| == s.maxNew
    ensures Plain(s, out) == s.payoff(out)
  {}

  lemma {:induction false} PlainLikelihood(s: Setting, y: seq<Token>, k: nat)
    requires Proper(s) && Returnable(s, y) && PaysFor(s, y) && k < |y|
    ensures Plain(s, y[..k]) == Likelihood(s, y, k)
    decreases |y| - k
  {
    hide Dot, Times, Plain, Mass;
    var out := y[..k];
    assert out + [y[k]] == y[..k + 1];
    forall t | 0 <= t < s.vocab && t != y[k]
      ensures PlainTable(s, out)[t] == 0.0
    {
      assert (out + [t])[k] != y[k];
      PlainMissed(s, y, out + [t]);
    }
    if k + 1 == |y| {
      assert y[..k + 1] == y;
      if y[k] !in s.stop {
        PlainFull(s, y);
      }
    } else {
      assert y[..|y| - 1][k] == y[k];
      PlainLikelihood(s, y, k + 1);
    }
    PlainUnfold(s, out);
    DotSingle(TargetRow(s, out), PlainTable(s, out), y[k], s.vocab);
  }

  /** The probability that a run returns y is the product of the target's conditional
      probabilities: exactly without the floors, and within the numeric bound with them. */
  lemma ProbabilityOfText(s: Setting, y: seq<Token>)
    requires Proper(s) && Returnable(s, y) && PaysFor(s, y)
    ensures s.eps == 0.0 ==> Generate(s) == Likelihood(s, y, 0)
    ensures Abs(Generate(s) - Likelihood(s, y, 0)) <= Times(PositionError(s.vocab, s.eps), (s.maxNew - 1) as real)
  {
    hide Times, Generate, Plain, Likelihood, PositionError;
    assert y[..0] == [];
    PlainLikelihood(s, y, 0);
    NumericBound(s);
    if s.eps == 0.0 {
      LosslessRun(s);
    }
  }

  // ------------------------------------------------------------------ the floors in a whole run

  /** Two tokens, a constant target row, and a proposer that always drafts from a row close to it. */
  function TwoTokenSetting(): Setting {
    Setting(2, [], prefix => EvenRow(), (h, out, d) => Some(NearlyEvenRow()), 1, {}, 2, FLOOR,
            text => if |text| == 2 && text[1] == 0 then 1.0 else 0.0)
  }

  /** The floors also make whole runs inexact: this run of two tokens ends with token 0 more or less often
      than plain sampling does. */
  lemma RunIsNotLossless()
    ensures Proper(TwoTokenSetting()) && TwoTokenSetting().eps == 0.00000001
    ensures Generate(TwoTokenSetting()) != Plain(TwoTokenSetting(), [])
  {
    hide Times, Mass, Dot, Run, Plain, EmittedRow;
    var s := TwoTokenSetting();
    FloorIsNotLossless();
    var p, e := EvenRow(), EmittedRow(EvenRow(), NearlyEvenRow(), FLOOR);
    EmittedLaw(p, NearlyEvenRow(), FLOOR);
    forall t | 0 <= t < 2
      ensures Run(s, [], [t]) == e[0] && Plain(s, [t]) == p[0]
    {
      LastToken(s, [], [t]);
      DotFirst(e, LastTable(s, [t]));
      PlainUnfold(s, [t]);
      PlainFull(s, [t] + [0]);
      PlainFull(s, [t] + [1]);
      DotFirst(p, PlainTable(s, [t]));
    }
    var table := seq(s.vocab, t requires 0 <= t < s.vocab => if t in s.stop then s.payoff([t]) else Run(s, [], [t]));
    AverageOfSame(p, table, e[0]);
    assert Generate(s) == Dot(TargetRow(s, []), table, s.vocab);
    PlainUnfold(s, []);
    assert [] + [0] == [0] && [] + [1] == [1];
    AverageOfSame(p, PlainTable(s, []), p[0]);
    assert e[0] != p[0] by {
      PairMass(e);
      PairMass(p);
    }
  }

  lemma DotFirst(p: Row, f: Row)
    requires |p| == 2 && |f| == 2 && f[0] == 1.0 && f[1] == 0.0
    ensures Dot(p, f, 2) == p[0]
  {
    hide Times;
    DotSingle(p, f, 0, 2);
    TimesUnit(p[0]);
  }

  lemma AverageOfSame(p: Row, f: Row, c: real)
    requires IsDistribution(p, 2) && |f| == 2 && f[0] == c && f[1] == c
    ensures Dot(p, f, 2) == c
  {
    hide Times, Mass, Dot;
    DotConstant(p, f, c, 2);
    TimesUnit(c);
  }
}
