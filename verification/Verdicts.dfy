/** The verdict on one block of draft tokens, given which positions the random draws keep. */
module Verdicts {
  import opened Rows
  import opened Sampling

  /** The length of the longest stop-free prefix: the index of the first stop token, if any. */
  function FirstStop(tokens: seq<Token>, stop: set<Token>): (k: nat)
    ensures k <= |tokens|
    ensures forall i :: 0 <= i < k ==> tokens[i] !in stop
    ensures k < |tokens| ==> tokens[k] in stop
  {
    if tokens == [] || tokens[0] in stop then 0 else 1 + FirstStop(tokens[1..], stop)
  }

  predicate StopFree(tokens: seq<Token>, stop: set<Token>) {
    forall i :: 0 <= i < |tokens| ==> tokens[i] !in stop
  }

  /** The number of leading kept positions: the sum of the cumulative product of the mask. */
  function CountAccepted(mask: seq<bool>): (n: nat)
    ensures n <= |mask|
    ensures forall i :: 0 <= i < n ==> mask[i]
    ensures n < |mask| ==> !mask[n]
  {
    if mask == [] || !mask[0] then 0 else 1 + CountAccepted(mask[1..])
  }

  datatype Verdict = Verdict(accepted: nat, effective: nat, terminated: bool)

  /** A stop token among the kept ones cuts the block right after itself and ends the run. */
  function Judge(draft: seq<Token>, mask: seq<bool>, stop: set<Token>): (v: Verdict)
    requires |mask| == |draft|
    ensures v.accepted <= v.effective <= |draft|
    ensures v.accepted <= CountAccepted(mask)
    ensures v.effective == if v.terminated then v.accepted else |draft|
    ensures v.terminated ==> v.accepted > 0 && draft[v.accepted - 1] in stop && StopFree(draft[..v.accepted - 1], stop)
    ensures !v.terminated ==> v.accepted == CountAccepted(mask) && StopFree(draft[..v.accepted], stop)
  {
    var kept := CountAccepted(mask);
    var hit := FirstStop(draft[..kept], stop);
    if hit < kept then Verdict(hit + 1, hit + 1, true) else Verdict(kept, |draft|, false)
  }

  /** The block is cut at its first stop token whenever the draws keep everything up to it. */
  lemma JudgeAtStop(draft: seq<Token>, mask: seq<bool>, stop: set<Token>, e: nat)
    requires |mask| == |draft| && e < |draft| && draft[e] in stop && StopFree(draft[..e], stop)
    requires forall i :: 0 <= i <= e ==> mask[i]
    ensures Judge(draft, mask, stop) == Verdict(e + 1, e + 1, true)
  {
    var kept := CountAccepted(mask);
    var hit := FirstStop(draft[..kept], stop);
    assert kept > e;
    assert draft[..kept][e] == draft[e];
    assert forall i :: 0 <= i < e ==> draft[..e][i] == draft[i];
  }
}
