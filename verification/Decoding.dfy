/** The speculative decoding loop over a token buffer and a key/value cache.

The target is a function from a token prefix to logits.  The proposer is an arbitrary function
of the round number and the committed tokens.  The random draws are an explicit oracle. */
module Decoding {
  import opened Rows
  import opened Sampling
  import opened Logits
  import opened Verdicts

  datatype Result<+T> = Ok(value: T) | Err(error: Error)

  datatype Error = TooManyDraftTokens | WrongCurrentToken | VocabularyMismatch | MissingDraftProbs

  datatype Target = Target(vocab: nat, logits: seq<Token> -> Row, exp: real -> real)

  datatype Proposal = Proposal(count: nat, verifyIds: seq<Token>, draftProbs: seq<Row>, hasProbs: bool)

  /** The draw for the first token; per round, one draw per drafted position and one for the
      token that follows. */
  datatype Draws = Draws(first: real, uniform: (nat, nat) -> real, pick: nat -> real)

  datatype VerificationResult = VerificationResult(mask: seq<bool>, accepted: nat, effective: nat, terminated: bool,
                                                   next: Token)

  datatype Sample = Sample(
    outputIds: seq<Token>,
    numInput: nat,
    numOutput: int,
    acceptanceLengths: seq<nat>,
    proposalLengths: seq<nat>,
    acceptedDraftLengths: seq<nat>)

  // ------------------------------------------------------------------ what the program is given

  ghost predicate ProperTarget(target: Target) {
    && target.vocab > 0 && ExpLaws(target.exp)
    && forall prefix :: |target.logits(prefix)| == target.vocab
  }

  /** The laws can be met. */
  lemma SomeTargetIsProper()
    ensures ProperTarget(Target(1, prefix => [0.0], x => 1.0))
  {}

  ghost predicate ProperDraws(draws: Draws) {
    && 0.0 <= draws.first < 1.0
    && (forall round, i :: 0.0 <= draws.uniform(round, i) < 1.0)
    && (forall round :: 0.0 <= draws.pick(round) < 1.0)
  }

  predicate IsProbabilities(row: Row) {
    forall i :: 0 <= i < |row| ==> 0.0 <= row[i] <= 1.0
  }

  /** The shapes the tensors of a proposal must have for the target to be called on it. */
  ghost predicate Shaped(p: Proposal, vocab: nat) {
    && |p.verifyIds| == p.count + 1
    && (forall i :: 1 <= i < |p.verifyIds| ==> p.verifyIds[i] < vocab)
    && (p.hasProbs ==> |p.draftProbs| == p.count && forall i :: 0 <= i < p.count ==> IsProbabilities(p.draftProbs[i]))
  }

  /** What the checks of the verifier demand of a proposal. */
  ghost predicate Admissible(p: Proposal, vocab: nat, maxProposal: nat, current: Token) {
    && p.count <= maxProposal
    && |p.verifyIds| > 0 && p.verifyIds[0] == current
    && (p.count > 0 ==> p.hasProbs && forall i :: 0 <= i < |p.draftProbs| ==> |p.draftProbs[i]| == vocab)
  }

  function TargetProbs(target: Target, prefix: seq<Token>, temperature: real): Row
    requires |target.logits(prefix)| > 0
  {
    LogitsToProbs(target.logits(prefix), temperature, target.exp)
  }

  /** Every target row is a distribution over the vocabulary. */
  lemma ProbsArePositive(target: Target, prefix: seq<Token>, temperature: real)
    requires ProperTarget(target)
    ensures IsDistribution(TargetProbs(target, prefix, temperature), target.vocab)
    ensures Mass(TargetProbs(target, prefix, temperature), target.vocab) > 0.0
  {
    hide Mass, LogitsToProbs, ExpLaws;
    if temperature < GREEDY_TEMPERATURE {
      ColdRow(target.logits(prefix), temperature, target.exp);
    } else {
      WarmRow(target.logits(prefix), temperature, target.exp);
    }
  }

  lemma ResidualIsPositive(p: Row, q: Row)
    requires |p| == |q| && NonNegative(p) && Mass(p, |p|) > 0.0
    ensures |ResidualRow(p, q, FLOOR)| == |p| && NonNegative(ResidualRow(p, q, FLOOR))
    ensures Mass(ResidualRow(p, q, FLOOR), |p|) > 0.0
  {
    hide Times, Ratio, Mass;
    var excess := Excess(p, q);
    var chosen := if Mass(excess, |p|) <= FLOOR then p else excess;
    var divisor := Max(Mass(chosen, |p|), FLOOR);
    ScaleMass(chosen, divisor, |p|);
    TimesUnit(divisor);
    TimesCancel(divisor, Mass(Scale(chosen, divisor), |p|), 0.0);
    forall i | 0 <= i < |p|
      ensures ResidualRow(p, q, FLOOR)[i] >= 0.0
    {
      RatioNonNegative(chosen[i], divisor);
    }
  }

  // ------------------------------------------------------------------ sampling

  /** The scaled draw falls into the entry of the token, so that a uniform draw picks a token with
      the probability of its share of the mass. */
  ghost predicate Picks(row: Row, draw: real, token: Token) {
    && token < |row| && row[token] > 0.0
    && Mass(row, token) <= Times(draw, Mass(row, |row|)) < Mass(row, token + 1)
  }

  /** torch.multinomial with one draw. */
  method SampleFromProbs(row: Row, draw: real) returns (token: Token)
    requires NonNegative(row) && Mass(row, |row|) > 0.0 && 0.0 <= draw < 1.0
    ensures Picks(row, draw, token)
  {
    hide Times;
    var total := Mass(row, |row|);
    var level := Times(draw, total);
    TimesMonotone(total, 0.0, draw);
    TimesUnit(total);
    TimesStrict(total, draw, 1.0);
    TimesCommute(total, draw);
    token := 0;
    var sum := row[0];
    while sum <= level
      invariant token < |row| && sum == Mass(row, token + 1)
      invariant Mass(row, token) <= level
      decreases |row| - token
    {
      token := token + 1;
      sum := sum + row[token];
    }
  }

  // ------------------------------------------------------------------ the cache

  /** The tokens whose keys and values are cached. */
  class KvCache {
    var tokens: seq<Token>

    constructor ()
      ensures tokens == []
    {
      tokens := [];
    }

    /** A forward pass: one row of probabilities per input token, each conditioned on the
        cached tokens and the inputs up to itself.  Positions continue those of the cache. */
    method Forward(target: Target, ids: seq<Token>, positions: seq<nat>, temperature: real) returns (rows: seq<Row>)
      requires ProperTarget(target)
      requires |positions| == |ids| && forall i :: 0 <= i < |ids| ==> positions[i] == |tokens| + i
      modifies this
      ensures tokens == old(tokens) + ids
      ensures |rows| == |ids|
      ensures forall i :: 0 <= i < |ids| ==> rows[i] == TargetProbs(target, old(tokens) + ids[..i + 1], temperature)
    {
      hide TargetProbs;
      rows := seq(|ids|, i requires 0 <= i < |ids| && |target.logits(tokens + ids[..i + 1])| > 0 reads this =>
                           TargetProbs(target, tokens + ids[..i + 1], temperature));
      tokens := tokens + ids;
    }

    method Crop(length: nat)
      modifies this
      ensures tokens == if length < |old(tokens)| then old(tokens)[..length] else old(tokens)
    {
      if length < |tokens| {
        tokens := tokens[..length];
      }
    }
  }

  // ------------------------------------------------------------------ one verification

  /** The target row of position i of a verification pass over the given cached tokens. */
  function RowAt(target: Target, cached: seq<Token>, p: Proposal, temperature: real, i: nat): Row
    requires i < |p.verifyIds| && |target.logits(cached + p.verifyIds[..i + 1])| > 0
  {
    TargetProbs(target, cached + p.verifyIds[..i + 1], temperature)
  }

  /** The acceptance probability of the token drafted at position i. */
  ghost function AcceptAt(target: Target, cached: seq<Token>, p: Proposal, temperature: real, i: nat): real
    requires ProperTarget(target) && i + 1 < |p.verifyIds| && i < |p.draftProbs|
  {
    var row, token := RowAt(target, cached, p, temperature, i), p.verifyIds[i + 1];
    if token < |row| && token < |p.draftProbs[i]| then AcceptProb(row[token], p.draftProbs[i][token], FLOOR) else 0.0
  }

  /** The row the next token is drawn from after n accepted draft tokens. */
  ghost function NextRow(target: Target, cached: seq<Token>, p: Proposal, temperature: real, n: nat): Row
    requires ProperTarget(target) && n < |p.verifyIds| && (n < p.count ==> n < |p.draftProbs|)
  {
    var row := RowAt(target, cached, p, temperature, n);
    if n < p.count && |row| == |p.draftProbs[n]| && Mass(row, |row|) > 0.0 then ResidualRow(row, p.draftProbs[n], FLOOR)
    else row
  }

  /** The result v is what the rows and draws of this round lead to. */
  ghost predicate Verifies(target: Target, cached: seq<Token>, p: Proposal, temperature: real, stop: set<Token>,
                           draws: Draws, round: nat, v: VerificationResult)
    requires ProperTarget(target)
  {
    && |p.verifyIds| == p.count + 1 && |v.mask| == p.count
    && (p.count > 0 ==> |p.draftProbs| == p.count)
    && (forall i :: 0 <= i < p.count ==>
          (v.mask[i] <==> draws.uniform(round, i) < AcceptAt(target, cached, p, temperature, i)))
    && Verdict(v.accepted, v.effective, v.terminated) == Judge(p.verifyIds[1..], v.mask, stop)
    && Picks(NextRow(target, cached, p, temperature, v.accepted), draws.pick(round), v.next)
  }

  /** What an inadmissible proposal is refused for: the first of the checks that fails. */
  function FirstProblem(p: Proposal, vocab: nat, maxProposal: nat, current: Token): Error {
    if p.count > maxProposal then TooManyDraftTokens
    else if |p.verifyIds| == 0 || p.verifyIds[0] != current then WrongCurrentToken
    else if p.hasProbs then VocabularyMismatch
    else MissingDraftProbs
  }

  /** verify_draft_tokens.  The cache has grown by the proposal once the target was called. */
  method VerifyDraftTokens(target: Target, p: Proposal, positions: seq<nat>, start: nat, cache: KvCache,
                           temperature: real, maxProposal: nat, current: Token, stop: set<Token>, draws: Draws,
                           round: nat)
    returns (r: Result<VerificationResult>)
    requires ProperTarget(target) && ProperDraws(draws) && Shaped(p, target.vocab)
    requires start == |cache.tokens| && (p.count <= maxProposal ==> start + p.count + 1 <= |positions|)
    requires forall i :: 0 <= i < |positions| ==> positions[i] == i
    modifies cache
    ensures r.Ok? <==> Admissible(p, target.vocab, maxProposal, current)
    ensures r.Err? ==> r.error == FirstProblem(p, target.vocab, maxProposal, current)
    ensures cache.tokens == old(cache.tokens)
                            + if r.Err? && r.error in {TooManyDraftTokens, WrongCurrentToken} then [] else p.verifyIds
    ensures r.Ok? ==> p.count <= maxProposal && p.verifyIds[0] == current
    ensures r.Ok? ==> Verifies(target, old(cache.tokens), p, temperature, stop, draws, round, r.value)
  {
    hide Mass, AcceptProb, ResidualRow, LogitsToProbs;
    if p.count > maxProposal {
      return Err(TooManyDraftTokens);
    }
    if p.verifyIds[0] != current {
      return Err(WrongCurrentToken);
    }
    ghost var cached := cache.tokens;
    var rows := cache.Forward(target, p.verifyIds, positions[start..start + p.count + 1], temperature);
    forall i | 0 <= i < |rows|
      ensures |rows[i]| == target.vocab && NonNegative(rows[i]) && Mass(rows[i], |rows[i]|) > 0.0
    {
      ProbsArePositive(target, cached + p.verifyIds[..i + 1], temperature);
    }
    if p.count > 0 && p.hasProbs && exists i :: 0 <= i < |p.draftProbs| && |p.draftProbs[i]| != target.vocab {
      return Err(VocabularyMismatch);
    }
    if p.count > 0 && !p.hasProbs {
      return Err(MissingDraftProbs);
    }
    var mask := seq(p.count, i requires 0 <= i < p.count && p.verifyIds[i + 1] < |rows[i]| == |p.draftProbs[i]| =>
                               draws.uniform(round, i) < AcceptProb(rows[i][p.verifyIds[i + 1]],
                                                                    p.draftProbs[i][p.verifyIds[i + 1]], FLOOR));
    var verdict := Judge(p.verifyIds[1..], mask, stop);
    var n := verdict.accepted;
    var nextRow := rows[n];
    if n < p.count {
      ResidualIsPositive(rows[n], p.draftProbs[n]);
      nextRow := ResidualRow(rows[n], p.draftProbs[n], FLOOR);
    }
    var next := SampleFromProbs(nextRow, draws.pick(round));
    assert nextRow == NextRow(target, cached, p, temperature, n);
    var v := VerificationResult(mask, verdict.accepted, verdict.effective, verdict.terminated, next);
    r := Ok(v);
  }

  // ------------------------------------------------------------------ greedy decoding

  function BestToken(target: Target, prefix: seq<Token>): Token
    requires |target.logits(prefix)| > 0
  {
    ArgMax(target.logits(prefix))
  }

  /** Plain argmax decoding, cut after the first stop token or after the given number of tokens. */
  ghost function GreedyDecode(target: Target, prefix: seq<Token>, stop: set<Token>, limit: nat): seq<Token>
    requires ProperTarget(target)
    decreases limit
  {
    if limit == 0 then []
    else
      var t := BestToken(target, prefix);
      if t in stop then [t] else [t] + GreedyDecode(target, prefix + [t], stop, limit - 1)
  }

  /** Every token from index n on is the best one after the tokens before it. */
  ghost predicate IsGreedy(target: Target, n: nat, committed: seq<Token>)
    requires ProperTarget(target)
  {
    forall j :: n <= j < |committed| ==> committed[j] == BestToken(target, committed[..j])
  }

  /** A stop token occurs at most once, and only as the last token. */
  predicate StopOnlyLast(text: seq<Token>, stop: set<Token>) {
    forall i :: 0 <= i < |text| - 1 ==> text[i] !in stop
  }

  lemma {:induction false} GreedyTextIsUnique(target: Target, prefix: seq<Token>, stop: set<Token>, limit: nat,
                                              text: seq<Token>)
    requires ProperTarget(target) && IsGreedy(target, |prefix|, prefix + text)
    requires |text| <= limit && StopOnlyLast(text, stop)
    requires |text| == limit || (|text| > 0 && text[|text| - 1] in stop)
    ensures text == GreedyDecode(target, prefix, stop, limit)
    decreases limit
  {
    hide BestToken, ProperTarget;
    if limit > 0 {
      var whole := prefix + text;
      assert whole[|prefix|] == text[0] && whole[..|prefix|] == prefix;
      assert text == [text[0]] + text[1..];
      if text[0] !in stop {
        assert prefix + [text[0]] + text[1..] == whole;
        GreedyTextIsUnique(target, prefix + [text[0]], stop, limit - 1, text[1..]);
      }
    }
  }

  lemma OneHotAccept(q: real)
    requires 0.0 <= q <= 1.0
    ensures AcceptProb(1.0, q, FLOOR) == 1.0 && AcceptProb(0.0, q, FLOOR) == 0.0
  {
    hide Times, Ratio;
    var divisor := Max(q, FLOOR);
    RatioAgainstOne(1.0, divisor);
    RatioTimes(0.0, divisor);
    TimesUnit(divisor);
    TimesCancel(divisor, Ratio(0.0, divisor), 0.0);
  }

  lemma OneHotResidual(size: nat, hot: nat, q: Row, t: Token)
    requires hot < size && |q| == size && IsProbabilities(q) && Mass(OneHot(size, hot), size) > 0.0
    requires t < |ResidualRow(OneHot(size, hot), q, FLOOR)|
    requires ResidualRow(OneHot(size, hot), q, FLOOR)[t] > 0.0
    ensures t == hot
  {
    hide Times, Mass, Ratio;
    var p := OneHot(size, hot);
    var excess := Excess(p, q);
    var chosen := if Mass(excess, size) <= FLOOR then p else excess;
    var divisor := Max(Mass(chosen, size), FLOOR);
    RatioTimes(chosen[t], divisor);
    TimesUnit(divisor);
    if t != hot {
      assert chosen[t] == 0.0;
      TimesCancel(divisor, Ratio(chosen[t], divisor), 0.0);
    }
  }

  /** At low temperature the draws do not matter: exactly the best tokens are kept, and the
      next token is the best one, whatever the draft probabilities. */
  lemma GreedyVerification(target: Target, cached: seq<Token>, p: Proposal, temperature: real, stop: set<Token>,
                           draws: Draws, round: nat, v: VerificationResult)
    requires ProperTarget(target) && ProperDraws(draws) && temperature < GREEDY_TEMPERATURE
    requires Shaped(p, target.vocab) && (p.count > 0 ==> p.hasProbs)
    requires forall i :: 0 <= i < p.count ==> |p.draftProbs[i]| == target.vocab
    requires Verifies(target, cached, p, temperature, stop, draws, round, v)
    ensures forall i :: 0 <= i < p.count ==>
      (v.mask[i] <==> p.verifyIds[i + 1] == BestToken(target, cached + p.verifyIds[..i + 1]))
    ensures v.next == BestToken(target, cached + p.verifyIds[..v.accepted + 1])
  {
    hide Mass, AcceptProb, ResidualRow, Judge;
    forall i | 0 <= i < p.count
      ensures v.mask[i] <==> p.verifyIds[i + 1] == BestToken(target, cached + p.verifyIds[..i + 1])
    {
      OneHotAccept(p.draftProbs[i][p.verifyIds[i + 1]]);
      assert 0.0 <= draws.uniform(round, i) < 1.0;
    }
    var n, hot := v.accepted, BestToken(target, cached + p.verifyIds[..v.accepted + 1]);
    ProbsArePositive(target, cached + p.verifyIds[..n + 1], temperature);
    if n < p.count {
      OneHotResidual(target.vocab, hot, p.draftProbs[n], v.next);
    }
  }

  /** Committing the accepted draft tokens, and the next token, keeps the text greedy. */
  lemma CommitGreedy(target: Target, cached: seq<Token>, n: nat, p: Proposal, temperature: real, stop: set<Token>,
                     draws: Draws, round: nat, v: VerificationResult)
    requires ProperTarget(target) && ProperDraws(draws) && temperature < GREEDY_TEMPERATURE
    requires Shaped(p, target.vocab) && (p.count > 0 ==> p.hasProbs)
    requires forall i :: 0 <= i < p.count ==> |p.draftProbs[i]| == target.vocab
    requires Verifies(target, cached, p, temperature, stop, draws, round, v)
    requires IsGreedy(target, n, cached + p.verifyIds[..1])
    ensures v.accepted <= p.count
    ensures IsGreedy(target, n, cached + p.verifyIds[..v.accepted + 1])
    ensures IsGreedy(target, n, cached + p.verifyIds[..v.accepted + 1] + [v.next])
  {
    hide BestToken, AcceptAt, NextRow;
    GreedyVerification(target, cached, p, temperature, stop, draws, round, v);
    var c := cached + p.verifyIds[..v.accepted + 1];
    forall j | n <= j < |c|
      ensures c[j] == BestToken(target, c[..j])
    {
      if j <= |cached| {
        assert (cached + p.verifyIds[..1])[..j] == c[..j];
      } else {
        var i := j - |cached| - 1;
        assert v.mask[i];
        assert c[..j] == cached + p.verifyIds[..i + 1];
      }
    }
    var d := c + [v.next];
    assert d[..|c|] == c;
    assert forall j :: 0 <= j < |c| ==> d[..j] == c[..j];
  }

  // ------------------------------------------------------------------ the loop

  function Sum(lengths: seq<nat>): nat {
    if lengths == [] then 0 else Sum(lengths[..|lengths| - 1]) + lengths[|lengths| - 1]
  }

  lemma SumAppend(lengths: seq<nat>, x: nat)
    ensures Sum(lengths + [x]) == Sum(lengths) + x
  {
    assert (lengths + [x])[..|lengths|] == lengths;
  }

  /** trim_output_ids. */
  function TrimOutputIds(ids: seq<Token>, numInput: nat, stop: set<Token>): seq<Token>
    requires numInput <= |ids|
  {
    var hit := FirstStop(ids[numInput..], stop);
    if hit == |ids| - numInput then ids else ids[..numInput + hit + 1]
  }

  /** The per-round lists of a sample. */
  predicate RoundsConsistent(acceptance: seq<nat>, proposal: seq<nat>, drafts: seq<nat>, maxProposal: nat) {
    && |acceptance| == |proposal| == |drafts|
    && forall i :: 0 <= i < |drafts| ==> drafts[i] <= proposal[i] <= maxProposal && 1 <= acceptance[i] <= drafts[i] + 1
  }

  /** Token accounting of a returned sample: a stop token occurs at most once and only last, the
      length is one plus the committed tokens, cut at the limit. */
  predicate Accounted(s: Sample, prompt: seq<Token>, stop: set<Token>, maxNew: nat, maxProposal: nat) {
    && s.numInput == |prompt| && prompt <= s.outputIds && s.numOutput == |s.outputIds| - |prompt|
    && RoundsConsistent(s.acceptanceLengths, s.proposalLengths, s.acceptedDraftLengths, maxProposal)
    && StopOnlyLast(s.outputIds[|prompt|..], stop)
    && (s.numOutput < maxNew ==> s.numOutput > 0 && s.outputIds[|s.outputIds| - 1] in stop)
    && (maxNew >= 1 ==>
          s.numOutput == if 1 + Sum(s.acceptanceLengths) < maxNew then 1 + Sum(s.acceptanceLengths) else maxNew)
  }

  /** The trimmed ids are a prefix that ends right after the first stop token behind the prompt, or all. */
  lemma TrimIsFirstStop(ids: seq<Token>, numInput: nat, stop: set<Token>)
    requires numInput <= |ids|
    ensures var r := TrimOutputIds(ids, numInput, stop);
            && numInput <= |r| && r <= ids && StopOnlyLast(r[numInput..], stop)
            && (r == ids || (|r| > numInput && r[|r| - 1] in stop))
  {}

  lemma TrimChangesNothing(ids: seq<Token>, numInput: nat, stop: set<Token>)
    requires numInput <= |ids| && StopOnlyLast(ids[numInput..], stop)
    ensures TrimOutputIds(ids, numInput, stop) == ids
  {}

  /** Writes the verified tokens of a round, and the next token unless the run ended. */
  method CommitRound(outputIds: array<Token>, start: nat, ids: seq<Token>, accepted: nat, next: Token, terminated: bool)
    requires accepted < |ids| && start + accepted + 1 < outputIds.Length
    modifies outputIds
    ensures terminated ==> outputIds[..start + accepted + 1] == old(outputIds[..start]) + ids[..accepted + 1]
    ensures !terminated ==> outputIds[..start + accepted + 2] == old(outputIds[..start]) + ids[..accepted + 1] + [next]
  {
    forall i | 0 <= i <= accepted {
      outputIds[start + i] := ids[i];
    }
    assert outputIds[..start + accepted + 1] == old(outputIds[..start]) + ids[..accepted + 1];
    if !terminated {
      outputIds[start + accepted + 1] := next;
    }
  }

  /** The committed tokens: the prompt and at least one generated token; all but possibly the
      last are not stop tokens, and at low temperature all are the best ones. */
  ghost predicate Committed(target: Target, prompt: seq<Token>, stop: set<Token>, temperature: real, c: seq<Token>)
    requires ProperTarget(target)
  {
    && |prompt| < |c| && prompt <= c
    && StopOnlyLast(c[|prompt|..], stop)
    && (temperature < GREEDY_TEMPERATURE ==> IsGreedy(target, |prompt|, c))
  }

  /** One verified round extends the committed tokens, and ends them at the first stop token. */
  lemma CommitRoundKeeps(target: Target, prompt: seq<Token>, stop: set<Token>, temperature: real, cached: seq<Token>,
                         p: Proposal, draws: Draws, round: nat, v: VerificationResult)
    requires ProperTarget(target) && ProperDraws(draws)
    requires Shaped(p, target.vocab) && (p.count > 0 ==> p.hasProbs)
    requires forall i :: 0 <= i < p.count ==> |p.draftProbs[i]| == target.vocab
    requires Verifies(target, cached, p, temperature, stop, draws, round, v)
    requires Committed(target, prompt, stop, temperature, cached + p.verifyIds[..1]) && p.verifyIds[0] !in stop
    ensures v.accepted <= v.effective <= p.count
    ensures v.terminated ==> v.accepted > 0 && p.verifyIds[v.accepted] in stop
    ensures v.terminated ==> Committed(target, prompt, stop, temperature, cached + p.verifyIds[..v.accepted + 1])
    ensures !v.terminated ==>
              Committed(target, prompt, stop, temperature, cached + p.verifyIds[..v.accepted + 1] + [v.next])
  {
    hide AcceptAt, NextRow, IsGreedy, ProperTarget;
    var n, c, d := |prompt|, cached + p.verifyIds[..1], cached + p.verifyIds[..v.accepted + 1];
    var draft := p.verifyIds[1..];
    if temperature < GREEDY_TEMPERATURE {
      CommitGreedy(target, cached, n, p, temperature, stop, draws, round, v);
    }
    var clean := if v.terminated then v.accepted - 1 else v.accepted;
    assert StopFree(draft[..clean], stop);
    forall i | n <= i < |cached| + 1 + clean
      ensures d[i] !in stop
    {
      if i < |cached| {
        assert c[n..][i - n] == d[i];
      } else if i > |cached| {
        assert draft[..clean][i - |cached| - 1] == d[i];
      }
    }
  }

  /** The text after a round: the accepted draft tokens, and the next token unless the run ended. */
  function Extended(text: seq<Token>, p: Proposal, v: VerificationResult): seq<Token>
    requires v.accepted < |p.verifyIds|
  {
    text + p.verifyIds[1..v.accepted + 1] + if v.terminated then [] else [v.next]
  }

  /** The text that the draws lead to over rounds with the given results: in each round the
      proposal is verified against the target rows that follow the text, and extends it. */
  ghost predicate Reached(target: Target, begin: seq<Token>, temperature: real, stop: set<Token>,
                          propose: (nat, seq<Token>) -> Proposal, draws: Draws, results: seq<VerificationResult>,
                          text: seq<Token>)
    requires ProperTarget(target)
    decreases |results|
  {
    if results == [] then text == begin
    else
      var last := |results| - 1;
      exists before ::
        && Reached(target, begin, temperature, stop, propose, draws, results[..last], before)
        && Follows(target, before, temperature, stop, propose(last, before), draws, last, results[last], text)
  }

  /** The three lists record the results round by round. */
  predicate Tallied(results: seq<VerificationResult>, acceptance: seq<nat>, proposals: seq<nat>, drafts: seq<nat>) {
    && |acceptance| == |proposals| == |drafts| == |results|
    && forall i :: 0 <= i < |results| ==>
         && proposals[i] == results[i].effective && drafts[i] == results[i].accepted
         && acceptance[i] == results[i].accepted + if results[i].terminated then 0 else 1
  }

  ghost predicate Follows(target: Target, before: seq<Token>, temperature: real, stop: set<Token>, p: Proposal,
                          draws: Draws, round: nat, v: VerificationResult, text: seq<Token>)
    requires ProperTarget(target)
  {
    && |before| > 0 && before[|before| - 1] !in stop
    && Verifies(target, before[..|before| - 1], p, temperature, stop, draws, round, v)
    && p.verifyIds[0] == before[|before| - 1] && v.accepted < |p.verifyIds| && text == Extended(before, p, v)
  }

  /** One turn of the loop: propose, verify, commit, crop.  On success start advances over the
      committed tokens, the cache again holds exactly the tokens before it, and the run has
      stopped if and only if the last committed token is a stop token. */
  method DecodeRound(target: Target, ghost prompt: seq<Token>, positions: seq<nat>, maxProposal: nat, temperature: real,
                     stop: set<Token>, p: Proposal, draws: Draws, round: nat, start: nat,
                     outputIds: array<Token>, cache: KvCache)
    returns (r: Result<VerificationResult>, advance: nat)
    requires ProperTarget(target) && ProperDraws(draws) && Shaped(p, target.vocab)
    requires |positions| == outputIds.Length && forall i :: 0 <= i < |positions| ==> positions[i] == i
    requires start + maxProposal + 1 < outputIds.Length
    requires cache.tokens == outputIds[..start]
    requires Committed(target, prompt, stop, temperature, outputIds[..start + 1]) && outputIds[start] !in stop
    modifies outputIds, cache
    ensures r.Ok? <==> Admissible(p, target.vocab, maxProposal, old(outputIds[start]))
    ensures r.Ok? ==>
      && r.value.accepted <= r.value.effective <= maxProposal
      && 1 <= advance <= r.value.accepted + 1
      && cache.tokens == outputIds[..start + advance]
      && Committed(target, prompt, stop, temperature, outputIds[..start + advance + 1])
      && Follows(target, old(outputIds[..start + 1]), temperature, stop, p, draws, round, r.value,
                 outputIds[..start + advance + 1])
    ensures r.Ok? && r.value.terminated ==> advance == r.value.accepted && outputIds[start + advance] in stop
    ensures r.Ok? && !r.value.terminated ==> advance == r.value.accepted + 1
  {
    hide Mass, NextRow, AcceptAt, Judge, Verifies, IsGreedy, ProperTarget, Committed, Shaped, Follows;
    assert |p.verifyIds| == p.count + 1 by { assert Shaped(p, target.vocab); ShapedLength(p, target.vocab); }
    var cached := cache.tokens;
    var current := outputIds[start];
    assert outputIds[..start + 1] == cached + [current];
    r := VerifyDraftTokens(target, p, positions, start, cache, temperature, maxProposal, current, stop, draws, round);
    advance := 0;
    if r.Ok? {
      assert p.verifyIds[..1] == [current];
      AdmissibleRows(p, target.vocab, maxProposal, current);
      CommitRoundKeeps(target, prompt, stop, temperature, cached, p, draws, round, r.value);
      RoundFollows(target, cached, temperature, stop, p, draws, round, r.value);
      assert cached + p.verifyIds[..r.value.accepted + 1] + [] == cached + p.verifyIds[..r.value.accepted + 1];
      advance := CommitAndCrop(outputIds, start, p.verifyIds, r.value.accepted, r.value.next, r.value.terminated,
                               cache);
    }
  }

  /** Commits a verified round and crops the cache to the tokens before the last committed one. */
  method CommitAndCrop(outputIds: array<Token>, start: nat, ids: seq<Token>, accepted: nat, next: Token,
                       terminated: bool, cache: KvCache)
    returns (advance: nat)
    requires accepted < |ids| && start + accepted + 1 < outputIds.Length
    requires cache.tokens == outputIds[..start] + ids
    modifies outputIds, cache
    ensures advance == if terminated then accepted else accepted + 1
    ensures outputIds[..start + advance + 1]
         == old(outputIds[..start]) + ids[..accepted + 1] + if terminated then [] else [next]
    ensures terminated ==> outputIds[start + advance] == ids[accepted]
    ensures cache.tokens == outputIds[..start + advance]
  {
    var all := cache.tokens;
    CommitRound(outputIds, start, ids, accepted, next, terminated);
    advance := if terminated then accepted else accepted + 1;
    cache.Crop(start + advance);
    assert all[..start + accepted + 1] == old(outputIds[..start]) + ids[..accepted + 1];
    assert outputIds[..start + accepted + 1] == all[..start + accepted + 1];
    assert all[..start + advance] == all[..start + accepted + 1][..start + advance];
  }

  lemma RoundFollows(target: Target, cached: seq<Token>, temperature: real, stop: set<Token>, p: Proposal, draws: Draws,
                     round: nat, v: VerificationResult)
    requires ProperTarget(target) && |p.verifyIds| > 0 && p.verifyIds[0] !in stop
    requires Verifies(target, cached, p, temperature, stop, draws, round, v)
    ensures v.accepted < |p.verifyIds|
    ensures Follows(target, cached + [p.verifyIds[0]], temperature, stop, p, draws, round, v,
                    cached + p.verifyIds[..v.accepted + 1] + if v.terminated then [] else [v.next])
  {
    hide NextRow, AcceptAt, ProperTarget, Picks;
    assert (cached + [p.verifyIds[0]])[..|cached|] == cached;
    assert p.verifyIds[..v.accepted + 1] == [p.verifyIds[0]] + p.verifyIds[1..v.accepted + 1];
  }

  lemma ShapedLength(p: Proposal, vocab: nat)
    requires Shaped(p, vocab)
    ensures |p.verifyIds| == p.count + 1
  {}

  lemma AdmissibleRows(p: Proposal, vocab: nat, maxProposal: nat, current: Token)
    requires Shaped(p, vocab) && Admissible(p, vocab, maxProposal, current)
    ensures p.count > 0 ==> p.hasProbs && |p.draftProbs| == p.count
    ensures forall i :: 0 <= i < p.count ==> |p.draftProbs[i]| == vocab
  {}

  /** Where the loop stands, and the three lists it has filled. */
  datatype Progress = Progress(start: nat, acceptance: seq<nat>, proposals: seq<nat>, drafts: seq<nat>)

  /** The loop of generate_decoding_sample.  At every loop head the cache holds exactly the
      tokens before start, every write stays inside the buffer, and start has advanced by the
      sum of the acceptance lengths. */
  method DecodeLoop(target: Target, prompt: seq<Token>, positions: seq<nat>, maxLength: nat, maxProposal: nat,
                    temperature: real, stop: set<Token>, propose: (nat, seq<Token>) -> Proposal, draws: Draws,
                    outputIds: array<Token>, cache: KvCache)
    returns (r: Result<Progress>, ghost results: seq<VerificationResult>)
    requires ProperTarget(target) && ProperDraws(draws)
    requires forall round, committed :: Shaped(propose(round, committed), target.vocab)
    requires |positions| == outputIds.Length && forall i :: 0 <= i < |positions| ==> positions[i] == i
    requires |prompt| <= maxLength && outputIds.Length == maxLength + maxProposal + 1
    requires cache.tokens == outputIds[..|prompt|]
    requires |prompt| < outputIds.Length && outputIds[|prompt|] !in stop
    requires Committed(target, prompt, stop, temperature, outputIds[..|prompt| + 1])
    modifies outputIds, cache
    ensures (forall round, committed :: |committed| > 0 ==>
               Admissible(propose(round, committed), target.vocab, maxProposal, committed[|committed| - 1])) ==> r.Ok?
    ensures r.Ok? ==>
      && r.value.start < outputIds.Length
      && r.value.start == |prompt| + Sum(r.value.acceptance)
      && RoundsConsistent(r.value.acceptance, r.value.proposals, r.value.drafts, maxProposal)
      && cache.tokens == outputIds[..r.value.start]
      && Committed(target, prompt, stop, temperature, outputIds[..r.value.start + 1])
      && (r.value.start >= maxLength || outputIds[r.value.start] in stop)
      && Tallied(results, r.value.acceptance, r.value.proposals, r.value.drafts)
      && Reached(target, old(outputIds[..|prompt| + 1]), temperature, stop, propose, draws, results,
                 outputIds[..r.value.start + 1])
  {
    hide Mass, IsGreedy, ProperTarget, Committed, Shaped, Admissible, RoundsConsistent, Reached, Follows;
    ghost var begin := outputIds[..|prompt| + 1];
    ReachedStart(target, begin, temperature, stop, propose, draws);
    var start, round := |prompt|, 0;
    results := [];
    var acceptance: seq<nat>, proposals: seq<nat>, drafts: seq<nat> := [], [], [];
    NoRounds(maxProposal);
    while start < maxLength
      invariant |prompt| <= start < outputIds.Length && start == |prompt| + Sum(acceptance)
      invariant cache.tokens == outputIds[..start]
      invariant Committed(target, prompt, stop, temperature, outputIds[..start + 1]) && outputIds[start] !in stop
      invariant RoundsConsistent(acceptance, proposals, drafts, maxProposal)
      invariant |results| == round && Tallied(results, acceptance, proposals, drafts)
      invariant Reached(target, begin, temperature, stop, propose, draws, results, outputIds[..start + 1])
      decreases maxLength - start
    {
      ghost var committed := outputIds[..start + 1];
      var p := propose(round, outputIds[..start + 1]);
      var v, advance := DecodeRound(target, prompt, positions, maxProposal, temperature, stop, p, draws, round, start,
                                    outputIds, cache);
      if v.Err? {
        assert !Admissible(propose(round, committed), target.vocab, maxProposal, committed[|committed| - 1]);
        r := Err(v.error);
        return;
      }
      ReachedStep(target, begin, temperature, stop, propose, draws, results, committed, v.value,
                  outputIds[..start + advance + 1]);
      SumAppend(acceptance, advance);
      OneMoreRound(acceptance, proposals, drafts, maxProposal, advance, v.value.effective, v.value.accepted);
      acceptance := acceptance + [advance];
      proposals := proposals + [v.value.effective];
      drafts := drafts + [v.value.accepted];
      results := results + [v.value];
      start, round := start + advance, round + 1;
      if v.value.terminated || outputIds[start] in stop {
        break;
      }
    }
    r := Ok(Progress(start, acceptance, proposals, drafts));
  }

  lemma ReachedStart(target: Target, begin: seq<Token>, temperature: real, stop: set<Token>,
                     propose: (nat, seq<Token>) -> Proposal, draws: Draws)
    requires ProperTarget(target)
    ensures Reached(target, begin, temperature, stop, propose, draws, [], begin)
  {}

  lemma ReachedStep(target: Target, begin: seq<Token>, temperature: real, stop: set<Token>,
                    propose: (nat, seq<Token>) -> Proposal, draws: Draws, results: seq<VerificationResult>,
                    before: seq<Token>, v: VerificationResult, text: seq<Token>)
    requires ProperTarget(target)
    requires Reached(target, begin, temperature, stop, propose, draws, results, before)
    requires Follows(target, before, temperature, stop, propose(|results|, before), draws, |results|, v, text)
    ensures Reached(target, begin, temperature, stop, propose, draws, results + [v], text)
  {
    hide Follows, ProperTarget;
    assert (results + [v])[..|results|] == results;
  }

  /** The returned text: the first token is the one its draw picks from the row after the prompt,
      and unless it is a stop token the rounds follow; the limit cuts the end. */
  ghost predicate Explained(target: Target, prompt: seq<Token>, temperature: real, stop: set<Token>, maxNew: nat,
                            propose: (nat, seq<Token>) -> Proposal, draws: Draws, s: Sample)
    requires ProperTarget(target)
  {
    exists first, results, text ::
      && Picks(TargetProbs(target, prompt, temperature), draws.first, first)
      && Reached(target, prompt + [first], temperature, stop, propose, draws, results, text)
      && Tallied(results, s.acceptanceLengths, s.proposalLengths, s.acceptedDraftLengths)
      && s.outputIds == (if first in stop || |text| <= |prompt| + maxNew then text else text[..|prompt| + maxNew])
      && (maxNew == 0 ==> s.numOutput == if first in stop then 1 else 0)
  }

  /** generate_decoding_sample. */
  method GenerateDecodingSample(target: Target, prompt: seq<Token>, maxNew: nat, maxProposal: nat, temperature: real,
                                stop: set<Token>, propose: (nat, seq<Token>) -> Proposal, draws: Draws)
    returns (r: Result<Sample>)
    requires ProperTarget(target) && ProperDraws(draws) && maxProposal >= 1 && |prompt| >= 1
    requires forall round, committed :: Shaped(propose(round, committed), target.vocab)
    ensures (forall round, committed :: |committed| > 0 ==>
               Admissible(propose(round, committed), target.vocab, maxProposal, committed[|committed| - 1])) ==> r.Ok?
    ensures r.Ok? ==> Accounted(r.value, prompt, stop, maxNew, maxProposal)
    ensures r.Ok? ==> Explained(target, prompt, temperature, stop, maxNew, propose, draws, r.value)
    ensures r.Ok? && temperature < GREEDY_TEMPERATURE && maxNew >= 1 ==>
      r.value.outputIds == prompt + GreedyDecode(target, prompt, stop, maxNew)
    ensures r.Ok? && temperature < GREEDY_TEMPERATURE && maxNew == 0 ==>
      r.value.outputIds == prompt + if BestToken(target, prompt) in stop then [BestToken(target, prompt)] else []
  {
    hide Mass, IsGreedy, ProperTarget, Committed, BestToken, GreedyDecode, Shaped, Admissible, StopOnlyLast,
         RoundsConsistent, FirstStop, Sum, TrimOutputIds, Reached, Explained, Accounted, Picks, TargetProbs;
    var n := |prompt|;
    var maxLength := n + maxNew;
    var outputIds := new Token[maxLength + maxProposal + 1];
    var positions := seq(outputIds.Length, i => i);
    var cache := new KvCache();
    var first := Prefill(target, prompt, positions[..n], temperature, stop, cache, draws);
    forall i | 0 <= i < n {
      outputIds[i] := prompt[i];
    }
    outputIds[n] := first;
    assert outputIds[..n] == prompt && outputIds[..n + 1] == prompt + [first];
    if first in stop {
      var ids := outputIds[..n + 1];
      r := Ok(Sample(TrimOutputIds(ids, n, stop), n, 1, [], [], []));
      FirstTokenSample(target, prompt, temperature, stop, maxNew, maxProposal, propose, draws, first, r.value);
      return;
    }
    var progress, results := DecodeLoop(target, prompt, positions, maxLength, maxProposal, temperature, stop, propose,
                                        draws, outputIds, cache);
    if progress.Err? {
      return Err(progress.error);
    }
    var Progress(start, acceptance, proposals, drafts) := progress.value;
    var ids := outputIds[..if start + 1 < maxLength then start + 1 else maxLength];
    var trimmed := TrimOutputIds(ids, n, stop);
    r := Ok(Sample(trimmed, n, |trimmed| - n, acceptance, proposals, drafts));
    SampleIsRight(target, prompt, temperature, stop, maxNew, maxProposal, propose, draws, first, results,
                  outputIds[..start + 1], ids, r.value);
  }

  /** A draw picks at most one token. */
  lemma PicksOne(row: Row, draw: real, t: Token, u: Token)
    requires NonNegative(row) && Picks(row, draw, t) && Picks(row, draw, u)
    ensures t == u
  {
    hide Times;
    if t < u {
      MassGrows(row, t + 1, u);
    } else if u < t {
      MassGrows(row, u + 1, t);
    }
  }

  lemma {:induction false} MassGrows(row: Row, m: nat, n: nat)
    requires m <= n <= |row| && NonNegative(row)
    ensures Mass(row, m) <= Mass(row, n)
    decreases n
  {
    if m < n {
      MassGrows(row, m, n - 1);
    }
  }

  /** Every token with weight is picked by some draw. */
  lemma SomeDrawPicks(row: Row, t: Token)
    requires IsDistribution(row, |row|) && t < |row| && row[t] > 0.0
    ensures 0.0 <= Mass(row, t) < 1.0 && Picks(row, Mass(row, t), t)
  {
    hide Times;
    MassGrows(row, 0, t);
    MassGrows(row, t + 1, |row|);
    TimesUnit(Mass(row, t));
  }

  lemma {:induction false} ReachedExtends(target: Target, begin: seq<Token>, temperature: real, stop: set<Token>,
                                          propose: (nat, seq<Token>) -> Proposal, draws: Draws,
                                          results: seq<VerificationResult>, text: seq<Token>)
    requires ProperTarget(target) && Reached(target, begin, temperature, stop, propose, draws, results, text)
    ensures begin <= text
    decreases |results|
  {
    hide ProperTarget, Verifies;
    if results != [] {
      var last := |results| - 1;
      var before :| Reached(target, begin, temperature, stop, propose, draws, results[..last], before)
        && Follows(target, before, temperature, stop, propose(last, before), draws, last, results[last], text);
      ReachedExtends(target, begin, temperature, stop, propose, draws, results[..last], before);
    }
  }

  /** The first generated token is the one that the first draw picks. */
  lemma FirstTokenIsPicked(target: Target, prompt: seq<Token>, temperature: real, stop: set<Token>, maxNew: nat,
                           propose: (nat, seq<Token>) -> Proposal, draws: Draws, s: Sample, t: Token)
    requires ProperTarget(target) && maxNew >= 1
    requires Explained(target, prompt, temperature, stop, maxNew, propose, draws, s)
    requires Picks(TargetProbs(target, prompt, temperature), draws.first, t)
    ensures |s.outputIds| > |prompt| && s.outputIds[|prompt|] == t
  {
    hide ExpLaws, Picks, Reached, TargetProbs, Tallied, Mass;
    var first, results, text :| Picks(TargetProbs(target, prompt, temperature), draws.first, first)
      && Reached(target, prompt + [first], temperature, stop, propose, draws, results, text)
      && Tallied(results, s.acceptanceLengths, s.proposalLengths, s.acceptedDraftLengths)
      && s.outputIds == (if first in stop || |text| <= |prompt| + maxNew then text else text[..|prompt| + maxNew])
      && (maxNew == 0 ==> s.numOutput == if first in stop then 1 else 0);
    ReachedExtends(target, prompt + [first], temperature, stop, propose, draws, results, text);
    ProbsArePositive(target, prompt, temperature);
    PicksOne(TargetProbs(target, prompt, temperature), draws.first, first, t);
    assert (prompt + [first])[|prompt|] == first;
  }

  /** From temperature 1e-5 on every token of the vocabulary is the first generated token for some draw,
      whatever the proposer and the later draws. */
  lemma AnyFirstToken(target: Target, prompt: seq<Token>, temperature: real, t: Token) returns (draw: real)
    requires ProperTarget(target) && temperature >= 0.00001 && t < target.vocab
    ensures 0.0 <= draw < 1.0
    ensures forall stop: set<Token>, maxNew: nat, propose: (nat, seq<Token>) -> Proposal, draws: Draws, s: Sample ::
              maxNew >= 1 && draws.first == draw
              && Explained(target, prompt, temperature, stop, maxNew, propose, draws, s) ==>
                |s.outputIds| > |prompt| && s.outputIds[|prompt|] == t
  {
    hide Mass, Picks, Explained, LogitsToProbs, ExpLaws;
    var row := TargetProbs(target, prompt, temperature);
    WarmRow(target.logits(prompt), temperature, target.exp);
    SomeDrawPicks(row, t);
    draw := Mass(row, t);
    forall stop: set<Token>, maxNew: nat, propose: (nat, seq<Token>) -> Proposal, draws: Draws, s: Sample |
      maxNew >= 1 && draws.first == draw
      && Explained(target, prompt, temperature, stop, maxNew, propose, draws, s)
      ensures |s.outputIds| > |prompt| && s.outputIds[|prompt|] == t
    {
      FirstTokenIsPicked(target, prompt, temperature, stop, maxNew, propose, draws, s, t);
    }
  }

  /** A first token that is a stop token is the whole text, even when the limit is 0. */
  lemma FirstTokenSample(target: Target, prompt: seq<Token>, temperature: real, stop: set<Token>, maxNew: nat,
                         maxProposal: nat, propose: (nat, seq<Token>) -> Proposal, draws: Draws, first: Token,
                         s: Sample)
    requires ProperTarget(target) && first in stop
    requires Picks(TargetProbs(target, prompt, temperature), draws.first, first)
    requires temperature < GREEDY_TEMPERATURE ==> first == BestToken(target, prompt)
    requires s == Sample(TrimOutputIds(prompt + [first], |prompt|, stop), |prompt|, 1, [], [], [])
    ensures Accounted(s, prompt, stop, maxNew, maxProposal) && s.outputIds == prompt + [first]
    ensures Explained(target, prompt, temperature, stop, maxNew, propose, draws, s)
    ensures temperature < GREEDY_TEMPERATURE && maxNew >= 1 ==>
              s.outputIds == prompt + GreedyDecode(target, prompt, stop, maxNew)
  {
    hide Mass, ProperTarget, BestToken, GreedyDecode, RoundsConsistent, Sum, TrimOutputIds, Reached, Explained, Picks,
         TargetProbs, StopOnlyLast;
    FirstTokenStops(target, prompt, stop, temperature, first, maxNew);
    NoRounds(maxProposal);
    TrimChangesNothing(prompt + [first], |prompt|, stop);
    ReachedStart(target, prompt + [first], temperature, stop, propose, draws);
    Explains(target, prompt, temperature, stop, maxNew, propose, draws, first, [], prompt + [first], s);
  }

  /** Cutting and trimming the text of a run gives an accounted and explained sample. */
  lemma SampleIsRight(target: Target, prompt: seq<Token>, temperature: real, stop: set<Token>, maxNew: nat,
                      maxProposal: nat, propose: (nat, seq<Token>) -> Proposal, draws: Draws, first: Token,
                      results: seq<VerificationResult>, text: seq<Token>, ids: seq<Token>, s: Sample)
    requires ProperTarget(target) && Committed(target, prompt, stop, temperature, text) && first !in stop
    requires Picks(TargetProbs(target, prompt, temperature), draws.first, first)
    requires Reached(target, prompt + [first], temperature, stop, propose, draws, results, text)
    requires Tallied(results, s.acceptanceLengths, s.proposalLengths, s.acceptedDraftLengths)
    requires RoundsConsistent(s.acceptanceLengths, s.proposalLengths, s.acceptedDraftLengths, maxProposal)
    requires |text| == |prompt| + Sum(s.acceptanceLengths) + 1
    requires |text| > |prompt| + maxNew || text[|text| - 1] in stop
    requires ids == if |text| <= |prompt| + maxNew then text else text[..|prompt| + maxNew]
    requires |prompt| <= |ids| && s.outputIds == TrimOutputIds(ids, |prompt|, stop)
    requires s.numInput == |prompt| && s.numOutput == |s.outputIds| - |prompt|
    ensures Accounted(s, prompt, stop, maxNew, maxProposal)
    ensures Explained(target, prompt, temperature, stop, maxNew, propose, draws, s)
    ensures temperature < GREEDY_TEMPERATURE ==> s.outputIds == prompt + GreedyDecode(target, prompt, stop, maxNew)
    ensures maxNew == 0 ==> s.outputIds == prompt
  {
    hide Mass, IsGreedy, ProperTarget, Committed, GreedyDecode, StopOnlyLast, RoundsConsistent, FirstStop, Sum,
         TrimOutputIds, Reached, Explained, Picks, TargetProbs, Tallied;
    FinalText(target, prompt, stop, temperature, text, maxNew, ids);
    TrimChangesNothing(ids, |prompt|, stop);
    Explains(target, prompt, temperature, stop, maxNew, propose, draws, first, results, text, s);
  }

  lemma Explains(target: Target, prompt: seq<Token>, temperature: real, stop: set<Token>, maxNew: nat,
                 propose: (nat, seq<Token>) -> Proposal, draws: Draws, first: Token,
                 results: seq<VerificationResult>, text: seq<Token>, s: Sample)
    requires ProperTarget(target) && Picks(TargetProbs(target, prompt, temperature), draws.first, first)
    requires Reached(target, prompt + [first], temperature, stop, propose, draws, results, text)
    requires Tallied(results, s.acceptanceLengths, s.proposalLengths, s.acceptedDraftLengths)
    requires s.outputIds == if first in stop || |text| <= |prompt| + maxNew then text else text[..|prompt| + maxNew]
    requires maxNew == 0 ==> s.numOutput == if first in stop then 1 else 0
    ensures Explained(target, prompt, temperature, stop, maxNew, propose, draws, s)
  {
    hide Reached, Picks, TargetProbs, ProperTarget;
  }

  lemma NoRounds(maxProposal: nat)
    ensures RoundsConsistent([], [], [], maxProposal) && Sum([]) == 0
  {}

  lemma OneMoreRound(acceptance: seq<nat>, proposals: seq<nat>, drafts: seq<nat>, maxProposal: nat, a: nat, p: nat,
                     d: nat)
    requires RoundsConsistent(acceptance, proposals, drafts, maxProposal)
    requires d <= p <= maxProposal && 1 <= a <= d + 1
    ensures RoundsConsistent(acceptance + [a], proposals + [p], drafts + [d], maxProposal)
  {}

  /** The prompt is run once; the first token is drawn from the row after its last token. */
  method Prefill(target: Target, prompt: seq<Token>, positions: seq<nat>, temperature: real, stop: set<Token>,
                 cache: KvCache, draws: Draws) returns (first: Token)
    requires ProperTarget(target) && ProperDraws(draws) && |prompt| >= 1 && cache.tokens == []
    requires |positions| == |prompt| && forall i :: 0 <= i < |positions| ==> positions[i] == i
    modifies cache
    ensures cache.tokens == prompt
    ensures Picks(TargetProbs(target, prompt, temperature), draws.first, first)
    ensures Committed(target, prompt, stop, temperature, prompt + [first])
    ensures temperature < GREEDY_TEMPERATURE ==> first == BestToken(target, prompt)
  {
    hide Mass;
    var rows := cache.Forward(target, prompt, positions, temperature);
    var row := rows[|prompt| - 1];
    assert row == TargetProbs(target, prompt, temperature) by {
      assert [] + prompt[..|prompt| - 1 + 1] == prompt;
    }
    ProbsArePositive(target, prompt, temperature);
    first := SampleFromProbs(row, draws.first);
    assert (prompt + [first])[..|prompt|] == prompt;
  }

  /** Cutting complete committed tokens at the limit gives the greedy text. */
  lemma FinalText(target: Target, prompt: seq<Token>, stop: set<Token>, temperature: real, c: seq<Token>, maxNew: nat,
                  ids: seq<Token>)
    requires ProperTarget(target) && Committed(target, prompt, stop, temperature, c)
    requires |c| > |prompt| + maxNew || c[|c| - 1] in stop
    requires ids == if |c| <= |prompt| + maxNew then c else c[..|prompt| + maxNew]
    ensures prompt <= ids && StopOnlyLast(ids[|prompt|..], stop)
    ensures temperature < GREEDY_TEMPERATURE ==> ids == prompt + GreedyDecode(target, prompt, stop, maxNew)
  {
    hide BestToken, ProperTarget, GreedyDecode;
    var n := |prompt|;
    var text := ids[n..];
    assert ids == prompt + text;
    assert forall i :: 0 <= i < |text| ==> text[i] == c[n..][i];
    if temperature < GREEDY_TEMPERATURE {
      assert forall j :: 0 <= j < |ids| ==> ids[..j] == c[..j];
      GreedyTextIsUnique(target, prompt, stop, maxNew, text);
    }
  }

  lemma FirstTokenStops(target: Target, prompt: seq<Token>, stop: set<Token>, temperature: real, first: Token,
                        maxNew: nat)
    requires ProperTarget(target) && first in stop
    requires temperature < GREEDY_TEMPERATURE ==> first == BestToken(target, prompt)
    ensures StopOnlyLast((prompt + [first])[|prompt|..], stop)
    ensures temperature < GREEDY_TEMPERATURE && maxNew >= 1 ==> [first] == GreedyDecode(target, prompt, stop, maxNew)
  {}
}
