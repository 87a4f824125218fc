/** The two descriptions of a round agree: what the verification method does with given draws is the
branch of the averaged loop that those draws select, and every choice is made by a draw falling into
an interval whose length is the probability of the choice. */
module Coupling {
  import opened Rows
  import opened Sampling
  import opened Verdicts
  import Decoding
  import Lossless

  /** The averaged loop and the method speak of the same target, at one temperature and with the
      program's floor. */
  ghost predicate Same(s: Lossless.Setting, target: Decoding.Target, temperature: real) {
    && Lossless.Proper(s) && Decoding.ProperTarget(target) && s.vocab == target.vocab && s.eps == FLOOR
    && forall prefix :: s.target(prefix) == Decoding.TargetProbs(target, prefix, temperature)
  }

  /** The proposal that drafts the block x after the generated tokens out. */
  ghost function ProposalOf(s: Lossless.Setting, h: seq<Lossless.Round>, out: seq<Token>,
                            x: seq<Token>): Decoding.Proposal
    requires Lossless.Proper(s) && |out| > 0
  {
    Decoding.Proposal(|x|, [out[|out| - 1]] + x,
                      seq(|x|, i requires 0 <= i < |x| => Lossless.DraftRow(s, h, out, x[..i])), true)
  }

  predicate InVocabulary(x: seq<Token>, vocab: nat) {
    forall i :: 0 <= i < |x| ==> x[i] < vocab
  }

  /** The draws of the round select this branch of the averaged loop. */
  ghost predicate Selects(s: Lossless.Setting, h: seq<Lossless.Round>, out: seq<Token>, x: seq<Token>,
                          draws: Decoding.Draws, round: nat, v: Decoding.VerificationResult)
    requires Lossless.Proper(s)
  {
    && |v.mask| == |x|
    && (forall i :: 0 <= i < |x| ==> (v.mask[i] <==> draws.uniform(round, i) < Lossless.KeepProb(s, h, out, x, i)))
    && Verdict(v.accepted, v.effective, v.terminated) == Judge(x, v.mask, s.stop)
    && Decoding.Picks(Lossless.NextRow(s, h, out, x, v.accepted), draws.pick(round), v.next)
  }

  /** The tokens generated after the branch. */
  function Branch(out: seq<Token>, x: seq<Token>, v: Decoding.VerificationResult): seq<Token>
    requires v.accepted <= |x|
  {
    out + x[..v.accepted] + if v.terminated then [] else [v.next]
  }

  /** What the averaged loop is worth on the branch is what the branch's tokens are worth. */
  lemma BranchIsOutcome(s: Lossless.Setting, h: seq<Lossless.Round>, out: seq<Token>, x: seq<Token>,
                        draws: Decoding.Draws, round: nat, v: Decoding.VerificationResult)
    requires Lossless.Proper(s) && |out| <= s.maxNew && Selects(s, h, out, x, draws, round, v)
    ensures v.terminated ==>
              Lossless.Outcome(s, h, out, x, v.mask) == s.payoff(Lossless.Cut(s, Branch(out, x, v)))
    ensures !v.terminated ==>
              Lossless.After(s, h, out, x, v.mask, v.accepted, v.next)
              == if v.next in s.stop then s.payoff(Lossless.Cut(s, Branch(out, x, v)))
                 else Lossless.Run(s, h + [Lossless.Round(x, v.mask, v.next)], Branch(out, x, v))
  {
    hide Lossless.Run, Lossless.NextRow, Decoding.Picks, Lossless.KeepProb;
    assert v.terminated ==> Branch(out, x, v) == out + x[..v.accepted];
  }

  lemma RowIs(s: Lossless.Setting, target: Decoding.Target, temperature: real, h: seq<Lossless.Round>, out: seq<Token>,
              x: seq<Token>, i: nat)
    requires Same(s, target, temperature) && |out| > 0 && i <= |x|
    ensures var text := s.prompt + out;
            Decoding.RowAt(target, text[..|text| - 1], ProposalOf(s, h, out, x), temperature, i)
            == Lossless.TargetRow(s, out + x[..i])
  {
    hide Decoding.TargetProbs, Decoding.ProperTarget, Lossless.Proper;
    var text := s.prompt + out;
    assert text[..|text| - 1] + ([out[|out| - 1]] + x)[..i + 1] == s.prompt + (out + x[..i]);
  }

  lemma AcceptIsKeep(s: Lossless.Setting, target: Decoding.Target, temperature: real, h: seq<Lossless.Round>,
                     out: seq<Token>, x: seq<Token>, i: nat)
    requires Same(s, target, temperature) && |out| > 0 && i < |x| && InVocabulary(x, s.vocab)
    ensures var text := s.prompt + out;
            Decoding.AcceptAt(target, text[..|text| - 1], ProposalOf(s, h, out, x), temperature, i)
            == Lossless.KeepProb(s, h, out, x, i)
  {
    hide AcceptProb, Mass, Decoding.RowAt;
    RowIs(s, target, temperature, h, out, x, i);
    assert ProposalOf(s, h, out, x).verifyIds[i + 1] == x[i];
  }

  lemma NextRowIs(s: Lossless.Setting, target: Decoding.Target, temperature: real, h: seq<Lossless.Round>,
                  out: seq<Token>, x: seq<Token>, n: nat)
    requires Same(s, target, temperature) && |out| > 0 && n <= |x|
    ensures var text := s.prompt + out;
            Decoding.NextRow(target, text[..|text| - 1], ProposalOf(s, h, out, x), temperature, n)
            == Lossless.NextRow(s, h, out, x, n)
  {
    hide Mass, Decoding.RowAt, ResidualRow;
    RowIs(s, target, temperature, h, out, x, n);
  }

  /** The verification of a drafted block, for given draws, is exactly the branch they select. */
  lemma VerifiesIffSelects(s: Lossless.Setting, target: Decoding.Target, temperature: real, h: seq<Lossless.Round>,
                           out: seq<Token>, x: seq<Token>, draws: Decoding.Draws, round: nat,
                           v: Decoding.VerificationResult)
    requires Same(s, target, temperature) && |out| > 0 && InVocabulary(x, s.vocab)
    ensures Decoding.Verifies(target, (s.prompt + out)[..|s.prompt + out| - 1], ProposalOf(s, h, out, x), temperature,
                              s.stop, draws, round, v)
       <==> Selects(s, h, out, x, draws, round, v)
  {
    hide Same, Decoding.ProperTarget, Lossless.Proper, Decoding.AcceptAt, Decoding.NextRow, Lossless.KeepProb,
         Lossless.NextRow, Decoding.Picks, InVocabulary, Judge;
    SameIsProper(s, target, temperature);
    var text, p := s.prompt + out, ProposalOf(s, h, out, x);
    assert p.verifyIds[1..] == x;
    forall i | 0 <= i < |x|
      ensures Decoding.AcceptAt(target, text[..|text| - 1], p, temperature, i) == Lossless.KeepProb(s, h, out, x, i)
    {
      AcceptIsKeep(s, target, temperature, h, out, x, i);
    }
    if v.accepted <= |x| {
      NextRowIs(s, target, temperature, h, out, x, v.accepted);
    }
  }

  lemma SameIsProper(s: Lossless.Setting, target: Decoding.Target, temperature: real)
    requires Same(s, target, temperature)
    ensures Lossless.Proper(s) && Decoding.ProperTarget(target)
  {}

  /** One turn of the decoding loop on a drafted block leads exactly to the tokens of the branch that
      the draws select. */
  lemma FollowsIffSelects(s: Lossless.Setting, target: Decoding.Target, temperature: real, h: seq<Lossless.Round>,
                          out: seq<Token>, x: seq<Token>, draws: Decoding.Draws, round: nat,
                          v: Decoding.VerificationResult, after: seq<Token>)
    requires Same(s, target, temperature) && |out| > 0 && out[|out| - 1] !in s.stop && InVocabulary(x, s.vocab)
    requires Lossless.Proper(s) && Decoding.ProperTarget(target)
    ensures Decoding.Follows(target, s.prompt + out, temperature, s.stop, ProposalOf(s, h, out, x), draws, round, v,
                             after)
       <==> Selects(s, h, out, x, draws, round, v) && v.accepted <= |x| && after == s.prompt + Branch(out, x, v)
  {
    hide Same, Decoding.ProperTarget, Lossless.Proper, Decoding.Verifies, Selects, InVocabulary;
    VerifiesIffSelects(s, target, temperature, h, out, x, draws, round, v);
    var p := ProposalOf(s, h, out, x);
    if v.accepted <= |x| {
      assert p.verifyIds[1..v.accepted + 1] == x[..v.accepted];
      assert Decoding.Extended(s.prompt + out, p, v) == s.prompt + Branch(out, x, v);
    }
  }

  /** A draw picks a token if and only if it falls into an interval as long as the token's weight. */
  lemma PickInterval(row: Row, draw: real, t: Token)
    requires IsDistribution(row, |row|)
    ensures Decoding.Picks(row, draw, t) <==> t < |row| && Mass(row, t) <= draw < Mass(row, t) + row[t]
  {
    TimesUnit(draw);
  }

  /** A draw keeps a drafted token if and only if it falls into an interval as long as the token's
      acceptance probability. */
  lemma KeepInterval(s: Lossless.Setting, h: seq<Lossless.Round>, out: seq<Token>, x: seq<Token>, draws: Decoding.Draws,
                     round: nat, v: Decoding.VerificationResult, i: nat)
    requires Lossless.Proper(s) && Decoding.ProperDraws(draws) && Selects(s, h, out, x, draws, round, v) && i < |x|
    ensures 0.0 <= Lossless.KeepProb(s, h, out, x, i) <= 1.0
    ensures v.mask[i] <==> 0.0 <= draws.uniform(round, i) < Lossless.KeepProb(s, h, out, x, i)
  {
    hide Lossless.KeepProb, Lossless.NextRow, Lossless.Proper, Decoding.Picks, Judge;
    Lossless.KeepProbBounds(s, h, out, x, i);
  }
}
