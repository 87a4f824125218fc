/** Evaluation metrics: the strided split of a dataset over ranks, the per-rank counters, the
sum over ranks and the reported rates. */
module Metrics {
  import opened Arith
  import opened Decoding
  import Rows

  /** The per-round lists of one response.  A response may lack them. */
  datatype Response = Lists(acceptance: seq<nat>, proposal: seq<nat>, drafts: seq<nat>) | Unlisted

  datatype Summary = Summary(
    samples: nat,
    proposals: nat,
    acceptanceSum: nat,
    proposalSum: nat,
    proposalsAtPos: seq<nat>,
    acceptedAtPos: seq<nat>)

  /** Every list of the response has one entry per round. */
  predicate Aligned(r: Response) {
    r.Lists? ==> |r.acceptance| == |r.proposal| == |r.drafts|
  }

  /** The response comes from a decoding run with the given block limit. */
  predicate FromDecoding(r: Response, maxProposal: nat) {
    r.Lists? ==> RoundsConsistent(r.acceptance, r.proposal, r.drafts, maxProposal)
  }

  // ------------------------------------------------------------------ summaries as sums

  function AddSeq(a: seq<nat>, b: seq<nat>): seq<nat>
    requires |a| == |b|
  {
    seq(|a|, i requires 0 <= i < |a| => a[i] + b[i])
  }

  predicate Wide(s: Summary, width: nat) {
    |s.proposalsAtPos| == width && |s.acceptedAtPos| == width
  }

  predicate AllWide(local: seq<Summary>, width: nat) {
    forall i :: 0 <= i < |local| ==> |local[i].proposalsAtPos| == width && |local[i].acceptedAtPos| == width
  }

  function Add(s: Summary, t: Summary): Summary
    requires Wide(t, |s.proposalsAtPos|) && |s.acceptedAtPos| == |s.proposalsAtPos|
  {
    Summary(s.samples + t.samples, s.proposals + t.proposals,
            s.acceptanceSum + t.acceptanceSum, s.proposalSum + t.proposalSum,
            AddSeq(s.proposalsAtPos, t.proposalsAtPos), AddSeq(s.acceptedAtPos, t.acceptedAtPos))
  }

  function Zero(width: nat): Summary {
    Summary(0, 0, 0, 0, seq(width, i => 0), seq(width, i => 0))
  }

  /** The number of lengths that reach past position k. */
  function CountAbove(lengths: seq<nat>, k: nat): nat {
    if lengths == [] then 0
    else CountAbove(lengths[..|lengths| - 1], k) + if lengths[|lengths| - 1] > k then 1 else 0
  }

  function Histogram(lengths: seq<nat>, width: nat): seq<nat> {
    seq(width, k requires 0 <= k < width => CountAbove(lengths, k))
  }

  /** The counters of a list of rounds. */
  function Rounds(acceptance: seq<nat>, proposal: seq<nat>, drafts: seq<nat>, width: nat): (s: Summary)
    ensures Wide(s, width)
  {
    Summary(0, |drafts|, Sum(acceptance), Sum(proposal), Histogram(proposal, width), Histogram(drafts, width))
  }

  /** What one response contributes. */
  function Contribution(r: Response, width: nat): (s: Summary)
    requires Aligned(r)
    ensures Wide(s, width)
  {
    (if r.Unlisted? then Zero(width) else Rounds(r.acceptance, r.proposal, r.drafts, width)).(samples := 1)
  }

  function Total(responses: seq<Response>, width: nat): (s: Summary)
    requires forall i :: 0 <= i < |responses| ==> Aligned(responses[i])
    ensures Wide(s, width)
  {
    if responses == [] then Zero(width)
    else Add(Total(responses[..|responses| - 1], width), Contribution(responses[|responses| - 1], width))
  }

  /** all_reduce with SUM over the first n ranks. */
  function AllReduce(local: seq<Summary>, n: nat, width: nat): (s: Summary)
    requires n <= |local| && AllWide(local, width)
    ensures Wide(s, width)
  {
    if n == 0 then Zero(width) else Add(AllReduce(local, n - 1, width), local[n - 1])
  }

  // ------------------------------------------------------------------ the counters

  /** One more round of the given length. */
  function Bump(counts: seq<nat>, length: nat): seq<nat> {
    seq(|counts|, k requires 0 <= k < |counts| => counts[k] + if length > k then 1 else 0)
  }

  lemma HistogramStep(lengths: seq<nat>, x: nat, width: nat)
    ensures Histogram(lengths + [x], width) == Bump(Histogram(lengths, width), x)
  {
    assert (lengths + [x])[..|lengths|] == lengths;
    forall k | 0 <= k < width
      ensures CountAbove(lengths + [x], k) == CountAbove(lengths, k) + if x > k then 1 else 0
    {}
  }

  /** The position loop: one counter per position. */
  method CountPositions(counts: seq<nat>, length: nat) returns (next: seq<nat>)
    ensures next == Bump(counts, length)
  {
    next := [];
    for pos := 0 to |counts|
      invariant |next| == pos && forall k :: 0 <= k < pos ==> next[k] == counts[k] + if length > k then 1 else 0
    {
      next := next + [counts[pos] + if length > pos then 1 else 0];
    }
  }

  function AddRound(s: Summary, acceptance: nat, proposal: nat, draft: nat): Summary {
    Summary(s.samples, s.proposals + 1, s.acceptanceSum + acceptance, s.proposalSum + proposal,
            Bump(s.proposalsAtPos, proposal), Bump(s.acceptedAtPos, draft))
  }

  lemma RoundsStep(acceptance: seq<nat>, proposal: seq<nat>, drafts: seq<nat>, a: nat, p: nat, d: nat, width: nat)
    ensures Rounds(acceptance + [a], proposal + [p], drafts + [d], width)
      == AddRound(Rounds(acceptance, proposal, drafts, width), a, p, d)
  {
    SumAppend(acceptance, a);
    SumAppend(proposal, p);
    HistogramStep(proposal, p, width);
    HistogramStep(drafts, d, width);
  }

  lemma BumpAdd(a: seq<nat>, b: seq<nat>, x: nat)
    requires |a| == |b|
    ensures Bump(AddSeq(a, b), x) == AddSeq(a, Bump(b, x))
  {}

  /** The rounds of one response, added to the counters of a rank. */
  method AddResponse(s: Summary, r: Response, width: nat) returns (t: Summary)
    requires Wide(s, width) && Aligned(r)
    ensures t == Add(s, Contribution(r, width)).(samples := s.samples)
  {
    hide Sum, Histogram, Bump, AddSeq;
    t := s;
    AddLaws(s, s, s, width);
    if r.Lists? {
      assert t == Add(s, Rounds(r.acceptance[..0], r.proposal[..0], r.drafts[..0], width)) by {
        RoundsOfNone(width);
      }
      for i := 0 to |r.drafts|
        invariant t == Add(s, Rounds(r.acceptance[..i], r.proposal[..i], r.drafts[..i], width))
      {
        ghost var before := Rounds(r.acceptance[..i], r.proposal[..i], r.drafts[..i], width);
        var proposalsAtPos := CountPositions(t.proposalsAtPos, r.proposal[i]);
        var acceptedAtPos := CountPositions(t.acceptedAtPos, r.drafts[i]);
        t := Summary(t.samples, t.proposals + 1, t.acceptanceSum + r.acceptance[i], t.proposalSum + r.proposal[i],
                     proposalsAtPos, acceptedAtPos);
        assert r.acceptance[..i + 1] == r.acceptance[..i] + [r.acceptance[i]];
        assert r.proposal[..i + 1] == r.proposal[..i] + [r.proposal[i]];
        assert r.drafts[..i + 1] == r.drafts[..i] + [r.drafts[i]];
        RoundsStep(r.acceptance[..i], r.proposal[..i], r.drafts[..i], r.acceptance[i], r.proposal[i], r.drafts[i],
                   width);
        BumpAdd(s.proposalsAtPos, before.proposalsAtPos, r.proposal[i]);
        BumpAdd(s.acceptedAtPos, before.acceptedAtPos, r.drafts[i]);
      }
      assert r.acceptance[..|r.drafts|] == r.acceptance && r.proposal[..|r.drafts|] == r.proposal
          && r.drafts[..|r.drafts|] == r.drafts;
    }
  }

  lemma RoundsOfNone(width: nat)
    ensures Rounds([], [], [], width) == Zero(width)
  {}

  /** The local part of allreduce_response_metrics. */
  method LocalMetrics(responses: seq<Response>, width: nat) returns (s: Summary)
    requires forall i :: 0 <= i < |responses| ==> Aligned(responses[i])
    ensures s == Total(responses, width)
  {
    s := Summary(|responses|, 0, 0, 0, seq(width, i => 0), seq(width, i => 0));
    for i := 0 to |responses|
      invariant s == Total(responses[..i], width).(samples := |responses|)
      invariant Total(responses[..i], width).samples == i
    {
      assert responses[..i + 1][..i] == responses[..i];
      s := AddResponse(s, responses[i], width);
    }
    assert responses[..|responses|] == responses;
  }

  // ------------------------------------------------------------------ sharding

  /** The responses of one rank: every world-th index, starting at its own. */
  function Strided(responses: seq<Response>, rank: nat, world: nat): seq<Response>
    requires rank < world
  {
    if responses == [] then []
    else
      var rest := Strided(responses[..|responses| - 1], rank, world);
      if (|responses| - 1) % world == rank then rest + [responses[|responses| - 1]] else rest
  }

  lemma {:induction false} StridedAt(responses: seq<Response>, rank: nat, world: nat)
    requires rank < world
    ensures forall r :: r in Strided(responses, rank, world) ==> r in responses
  {
    if responses != [] {
      StridedAt(responses[..|responses| - 1], rank, world);
    }
  }

  function Answers(respond: nat -> Response, n: nat): seq<Response> {
    seq(n, i requires 0 <= i => respond(i))
  }

  lemma StridedNext(respond: nat -> Response, n: nat, rank: nat, world: nat)
    requires rank < world
    ensures Strided(Answers(respond, n + 1), rank, world)
         == Strided(Answers(respond, n), rank, world) + if n % world == rank then [respond(n)] else []
  {
    assert Answers(respond, n + 1)[..n] == Answers(respond, n);
  }

  lemma {:induction false} SkipOthers(respond: nat -> Response, a: nat, b: nat, rank: nat, world: nat)
    requires rank < world && a <= b && forall j :: a <= j < b ==> j % world != rank
    ensures Strided(Answers(respond, b), rank, world) == Strided(Answers(respond, a), rank, world)
    decreases b - a
  {
    if a < b {
      SkipOthers(respond, a, b - 1, rank, world);
      StridedNext(respond, b - 1, rank, world);
    }
  }

  lemma BetweenTurns(idx: nat, world: nat)
    requires world > 0
    ensures (idx + world) % world == idx % world
    ensures forall j :: idx < j < idx + world ==> j % world != idx % world
  {
    ModShift(idx, world, world);
    forall j | idx < j < idx + world
      ensures j % world != idx % world
    {
      ModShift(idx, j - idx, world);
    }
  }

  /** The index loop of run_dataset; each response depends on its index alone, since the seed is
      reset from it. */
  method RunDataset(respond: nat -> Response, count: nat, rank: nat, world: nat) returns (responses: seq<Response>)
    requires rank < world
    ensures responses == Strided(Answers(respond, count), rank, world)
  {
    responses := [];
    var idx := rank;
    forall j | 0 <= j <= rank
      ensures j % world == j
    {
      ModSmall(j, world);
    }
    SkipOthers(respond, 0, if rank < count then rank else count, rank, world);
    while idx < count
      invariant idx % world == rank
      invariant responses == Strided(Answers(respond, if idx < count then idx else count), rank, world)
    {
      responses := responses + [respond(idx)];
      StridedNext(respond, idx, rank, world);
      BetweenTurns(idx, world);
      SkipOthers(respond, idx + 1, if idx + world < count then idx + world else count, rank, world);
      idx := idx + world;
    }
  }

  /** The local summaries of all ranks. */
  function Locals(responses: seq<Response>, world: nat, width: nat): (local: seq<Summary>)
    requires forall i :: 0 <= i < |responses| ==> Aligned(responses[i])
    ensures |local| == world && AllWide(local, width)
  {
    seq(world, rank requires 0 <= rank < world => StridedAligned(responses, rank, world);
        Total(Strided(responses, rank, world), width))
  }

  lemma StridedAligned(responses: seq<Response>, rank: nat, world: nat)
    requires rank < world && forall i :: 0 <= i < |responses| ==> Aligned(responses[i])
    ensures forall i :: 0 <= i < |Strided(responses, rank, world)| ==> Aligned(Strided(responses, rank, world)[i])
  {
    StridedAt(responses, rank, world);
    forall i | 0 <= i < |Strided(responses, rank, world)|
      ensures Aligned(Strided(responses, rank, world)[i])
    {
      assert Strided(responses, rank, world)[i] in responses;
    }
  }

  lemma AddLaws(a: Summary, b: Summary, c: Summary, width: nat)
    requires Wide(a, width) && Wide(b, width) && Wide(c, width)
    ensures Add(Add(a, b), c) == Add(Add(a, c), b) == Add(a, Add(b, c))
    ensures Add(a, Zero(width)) == a == Add(Zero(width), a)
  {}

  /** Adding x to the summary of one rank adds x to the sum over all ranks. */
  lemma {:induction false} AllReduceUpdate(local: seq<Summary>, k: nat, x: Summary, n: nat, width: nat)
    requires n <= |local| && k < |local| && Wide(x, width)
    requires AllWide(local, width)
    ensures AllReduce(local[k := Add(local[k], x)], n, width)
         == if k < n then Add(AllReduce(local, n, width), x) else AllReduce(local, n, width)
  {
    if n > 0 {
      AllReduceUpdate(local, k, x, n - 1, width);
      AddLaws(AllReduce(local, n - 1, width), local[n - 1], x, width);
    }
  }

  lemma {:induction false} AllReduceZero(local: seq<Summary>, n: nat, width: nat)
    requires n <= |local|
    requires AllWide(local, width) && forall i :: 0 <= i < |local| ==> local[i] == Zero(width)
    ensures AllReduce(local, n, width) == Zero(width)
  {
    if n > 0 {
      AllReduceZero(local, n - 1, width);
      AddLaws(Zero(width), Zero(width), Zero(width), width);
    }
  }

  /** The reduced summary is the single-process summary, for every number of ranks. */
  lemma {:induction false} ReducedSummary(responses: seq<Response>, world: nat, width: nat)
    requires world > 0 && forall i :: 0 <= i < |responses| ==> Aligned(responses[i])
    ensures AllReduce(Locals(responses, world, width), world, width) == Total(responses, width)
  {
    hide Contribution, Add, Zero;
    var local := Locals(responses, world, width);
    if responses == [] {
      AllReduceZero(local, world, width);
    } else {
      var n := |responses| - 1;
      var before, x := Locals(responses[..n], world, width), Contribution(responses[n], width);
      ReducedSummary(responses[..n], world, width);
      var k := n % world;
      assert local == before[k := Add(before[k], x)] by {
        forall rank | 0 <= rank < world
          ensures local[rank] == before[k := Add(before[k], x)][rank]
        {
          LocalStep(responses, rank, world, width);
        }
      }
      AllReduceUpdate(before, k, x, world, width);
    }
  }

  lemma LocalStep(responses: seq<Response>, rank: nat, world: nat, width: nat)
    requires responses != [] && rank < world && forall i :: 0 <= i < |responses| ==> Aligned(responses[i])
    ensures Locals(responses, world, width)[rank]
         == if (|responses| - 1) % world == rank
            then Add(Locals(responses[..|responses| - 1], world, width)[rank],
                     Contribution(responses[|responses| - 1], width))
            else Locals(responses[..|responses| - 1], world, width)[rank]
  {
    hide Contribution, Add;
    var n := |responses| - 1;
    StridedAligned(responses, rank, world);
    StridedAligned(responses[..n], rank, world);
    if n % world == rank {
      var s := Strided(responses[..n], rank, world);
      assert (s + [responses[n]])[..|s|] == s;
    }
  }

  // ------------------------------------------------------------------ conservation

  lemma {:induction false} CountAboveMonotone(shorter: seq<nat>, longer: seq<nat>, j: nat, k: nat)
    requires |shorter| == |longer| && k <= j && forall i :: 0 <= i < |shorter| ==> shorter[i] <= longer[i]
    ensures CountAbove(shorter, j) <= CountAbove(longer, k)
  {
    if shorter != [] {
      CountAboveMonotone(shorter[..|shorter| - 1], longer[..|longer| - 1], j, k);
    }
  }

  lemma {:induction false} SumOfStep(counts: seq<nat>, next: seq<nat>, x: nat)
    requires |counts| == |next| && x <= |counts|
    requires forall k :: 0 <= k < |counts| ==> next[k] == counts[k] + if x > k then 1 else 0
    ensures Sum(next) == Sum(counts) + x
    decreases |counts|
  {
    if counts != [] {
      var n := |counts| - 1;
      SumOfStep(counts[..n], next[..n], if x > n then n else x);
    }
  }

  lemma {:induction false} SumOfZeros(width: nat)
    ensures Sum(seq(width, i => 0)) == 0
  {
    if width > 0 {
      SumOfZeros(width - 1);
      assert seq(width, i => 0)[..width - 1] == seq(width - 1, i => 0);
    }
  }

  /** The position counts of a list of lengths add up to the lengths. */
  lemma {:induction false} HistogramSum(lengths: seq<nat>, width: nat)
    requires forall i :: 0 <= i < |lengths| ==> lengths[i] <= width
    ensures Sum(Histogram(lengths, width)) == Sum(lengths)
  {
    if lengths == [] {
      assert Histogram(lengths, width) == seq(width, i => 0);
      SumOfZeros(width);
    } else {
      var n := |lengths| - 1;
      assert lengths[..n] + [lengths[n]] == lengths;
      HistogramSum(lengths[..n], width);
      HistogramStep(lengths[..n], lengths[n], width);
      SumOfStep(Histogram(lengths[..n], width), Histogram(lengths, width), lengths[n]);
    }
  }

  lemma {:induction false} SumBound(acceptance: seq<nat>, proposal: seq<nat>)
    requires |acceptance| == |proposal| && forall i :: 0 <= i < |proposal| ==> acceptance[i] <= proposal[i] + 1
    ensures Sum(acceptance) <= Sum(proposal) + |proposal|
  {
    if proposal != [] {
      SumBound(acceptance[..|proposal| - 1], proposal[..|proposal| - 1]);
    }
  }

  /** The counters agree with each other. */
  ghost predicate Conserved(s: Summary, drafts: nat) {
    && |s.acceptedAtPos| == |s.proposalsAtPos|
    && Sum(s.proposalsAtPos) == s.proposalSum
    && Sum(s.acceptedAtPos) == drafts
    && (forall k :: 0 <= k < |s.acceptedAtPos| ==> s.acceptedAtPos[k] <= s.proposalsAtPos[k] <= s.proposals)
    && (forall j, k :: 0 <= k <= j < |s.proposalsAtPos| ==>
          s.proposalsAtPos[j] <= s.proposalsAtPos[k] && s.acceptedAtPos[j] <= s.acceptedAtPos[k])
    && s.acceptanceSum <= s.proposalSum + s.proposals
  }

  function DraftSum(r: Response): nat {
    if r.Lists? then Sum(r.drafts) else 0
  }

  function DraftTotal(responses: seq<Response>): nat {
    if responses == [] then 0 else DraftTotal(responses[..|responses| - 1]) + DraftSum(responses[|responses| - 1])
  }

  lemma {:induction false} CountAboveAtMost(lengths: seq<nat>, k: nat)
    ensures CountAbove(lengths, k) <= |lengths|
  {
    if lengths != [] {
      CountAboveAtMost(lengths[..|lengths| - 1], k);
    }
  }

  lemma ContributionConserved(r: Response, width: nat)
    requires FromDecoding(r, width)
    ensures Conserved(Contribution(r, width), DraftSum(r))
  {
    if r.Lists? {
      HistogramSum(r.proposal, width);
      HistogramSum(r.drafts, width);
      SumBound(r.acceptance, r.proposal);
      forall j, k | 0 <= k <= j < width
        ensures CountAbove(r.drafts, k) <= CountAbove(r.proposal, k) <= |r.proposal|
        ensures CountAbove(r.proposal, j) <= CountAbove(r.proposal, k)
          && CountAbove(r.drafts, j) <= CountAbove(r.drafts, k)
      {
        CountAboveMonotone(r.drafts, r.proposal, k, k);
        CountAboveMonotone(r.proposal, r.proposal, j, k);
        CountAboveMonotone(r.drafts, r.drafts, j, k);
        CountAboveAtMost(r.proposal, k);
      }
    } else {
      SumOfZeros(width);
    }
  }

  lemma {:induction false} SumOfAddSeq(a: seq<nat>, b: seq<nat>)
    requires |a| == |b|
    ensures Sum(AddSeq(a, b)) == Sum(a) + Sum(b)
  {
    if a != [] {
      var n := |a| - 1;
      SumOfAddSeq(a[..n], b[..n]);
      assert AddSeq(a, b)[..n] == AddSeq(a[..n], b[..n]);
    }
  }

  lemma AddConserved(s: Summary, t: Summary, d: nat, e: nat)
    requires Conserved(s, d) && Conserved(t, e) && |s.proposalsAtPos| == |t.proposalsAtPos|
    ensures Conserved(Add(s, t), d + e)
  {
    SumOfAddSeq(s.proposalsAtPos, t.proposalsAtPos);
    SumOfAddSeq(s.acceptedAtPos, t.acceptedAtPos);
  }

  /** For responses of decoding runs: position counts add up to the length totals, acceptances
      never exceed proposals, and both are nonincreasing in the position. */
  lemma {:induction false} TotalConserved(responses: seq<Response>, width: nat)
    requires forall i :: 0 <= i < |responses| ==> Aligned(responses[i])
    requires forall i :: 0 <= i < |responses| ==> FromDecoding(responses[i], width)
    ensures Conserved(Total(responses, width), DraftTotal(responses))
  {
    hide Conserved, Contribution, Add, FromDecoding, Aligned;
    if responses == [] {
      ZeroConserved(width);
    } else {
      var n := |responses| - 1;
      TotalConserved(responses[..n], width);
      ContributionConserved(responses[n], width);
      AddConserved(Total(responses[..n], width), Contribution(responses[n], width), DraftTotal(responses[..n]),
                   DraftSum(responses[n]));
    }
  }

  lemma ZeroConserved(width: nat)
    ensures Conserved(Zero(width), 0)
  {
    SumOfZeros(width);
  }

  // ------------------------------------------------------------------ the counters over all rounds

  function Acceptances(responses: seq<Response>): seq<nat> {
    if responses == [] then []
    else
      var last := responses[|responses| - 1];
      Acceptances(responses[..|responses| - 1]) + if last.Lists? then last.acceptance else []
  }

  function Proposals(responses: seq<Response>): seq<nat> {
    if responses == [] then []
    else
      var last := responses[|responses| - 1];
      Proposals(responses[..|responses| - 1]) + if last.Lists? then last.proposal else []
  }

  function Drafts(responses: seq<Response>): seq<nat> {
    if responses == [] then []
    else
      var last := responses[|responses| - 1];
      Drafts(responses[..|responses| - 1]) + if last.Lists? then last.drafts else []
  }

  lemma {:induction false} SumConcat(a: seq<nat>, b: seq<nat>)
    ensures Sum(a + b) == Sum(a) + Sum(b)
  {
    if b == [] {
      assert a + b == a;
    } else {
      assert (a + b)[..|a + b| - 1] == a + b[..|b| - 1];
      SumConcat(a, b[..|b| - 1]);
    }
  }

  lemma {:induction false} CountAboveConcat(a: seq<nat>, b: seq<nat>, k: nat)
    ensures CountAbove(a + b, k) == CountAbove(a, k) + CountAbove(b, k)
  {
    if b == [] {
      assert a + b == a;
    } else {
      assert (a + b)[..|a + b| - 1] == a + b[..|b| - 1];
      CountAboveConcat(a, b[..|b| - 1], k);
    }
  }

  lemma HistogramConcat(a: seq<nat>, b: seq<nat>, width: nat)
    ensures Histogram(a + b, width) == AddSeq(Histogram(a, width), Histogram(b, width))
  {
    hide CountAbove;
    forall k | 0 <= k < width
      ensures CountAbove(a + b, k) == CountAbove(a, k) + CountAbove(b, k)
    {
      CountAboveConcat(a, b, k);
    }
  }

  /** The number of rounds whose length reaches past position k. */
  lemma {:induction false} CountAboveIs(lengths: seq<nat>, k: nat)
    ensures CountAbove(lengths, k) == |set i: nat | i < |lengths| && lengths[i] > k|
  {
    if lengths != [] {
      var n := |lengths| - 1;
      CountAboveIs(lengths[..n], k);
      var before := set i: nat | i < n && lengths[..n][i] > k;
      var after := set i: nat | i < |lengths| && lengths[i] > k;
      assert after == if lengths[n] > k then before + {n} else before;
    }
  }

  /** The summary counts over the rounds of all responses. */
  lemma {:induction false} TotalIs(responses: seq<Response>, width: nat)
    requires forall i :: 0 <= i < |responses| ==> Aligned(responses[i])
    ensures Total(responses, width)
         == Summary(|responses|, |Drafts(responses)|, Sum(Acceptances(responses)), Sum(Proposals(responses)),
                    Histogram(Proposals(responses), width), Histogram(Drafts(responses), width))
  {
    hide Sum, Histogram, AddSeq;
    if responses == [] {
      RoundsOfNone(width);
    } else {
      var n := |responses| - 1;
      var r := responses[n];
      TotalIs(responses[..n], width);
      RoundsOfNone(width);
      var lists := if r.Lists? then r else Lists([], [], []);
      SumConcat(Acceptances(responses[..n]), lists.acceptance);
      SumConcat(Proposals(responses[..n]), lists.proposal);
      HistogramConcat(Proposals(responses[..n]), lists.proposal, width);
      HistogramConcat(Drafts(responses[..n]), lists.drafts, width);
    }
  }

  // ------------------------------------------------------------------ the reported row

  datatype Rate = NoRate | Rate(value: real)

  datatype MetricsRow = MetricsRow(samples: nat, draftTokens: real, acceptanceLength: real, verifyRate: real,
                                   acceptRates: seq<Rate>)

  /** build_metrics_row. */
  function BuildMetricsRow(s: Summary, width: nat): MetricsRow
    requires Wide(s, width)
  {
    if s.proposals == 0 then MetricsRow(s.samples, 0.0, 0.0, 0.0, seq(width, i => NoRate))
    else MetricsRow(s.samples, s.proposalSum as real / s.proposals as real,
                    s.acceptanceSum as real / s.proposals as real,
                    s.acceptanceSum as real / (s.proposalSum + s.proposals) as real,
                    seq(width, k requires 0 <= k < width =>
                                 if s.proposalsAtPos[k] == 0 then NoRate
                                 else Rate(s.acceptedAtPos[k] as real / s.proposalsAtPos[k] as real)))
  }

  lemma RateAtMostOne(a: nat, b: nat)
    requires a <= b && b > 0
    ensures 0.0 <= a as real / b as real <= 1.0
  {}

  /** The verification rate relates the two averages. */
  lemma VerifyRateIs(a: nat, l: nat, n: nat)
    requires n > 0
    ensures Rows.Times(a as real / (l + n) as real, l as real / n as real + 1.0) == a as real / n as real
  {
    var v, d := a as real / (l + n) as real, l as real / n as real;
    assert v * (l + n) as real == a as real;
    assert d * n as real == l as real;
    assert v * (d + 1.0) * n as real == v * ((d + 1.0) * n as real);
  }

  lemma QuotientTimes(a: nat, b: nat)
    requires b > 0
    ensures Rows.Times(a as real / b as real, b as real) == a as real
  {}

  /** The averages times the number of rounds are the totals, and the rate of a position times its
      proposals is its acceptances; without rounds everything is zero. */
  lemma RowIsAverages(s: Summary, width: nat)
    requires Wide(s, width)
    ensures var row := BuildMetricsRow(s, width);
            && (s.proposals == 0 ==> row == MetricsRow(s.samples, 0.0, 0.0, 0.0, seq(width, k => NoRate)))
            && Rows.Times(row.acceptanceLength, s.proposals as real)
            == (if s.proposals == 0 then 0 else s.acceptanceSum) as real
            && Rows.Times(row.draftTokens, s.proposals as real)
            == (if s.proposals == 0 then 0 else s.proposalSum) as real
            && forall k :: 0 <= k < width && s.proposals > 0 && s.proposalsAtPos[k] > 0 ==>
                 && row.acceptRates[k].Rate?
                 && Rows.Times(row.acceptRates[k].value, s.proposalsAtPos[k] as real) == s.acceptedAtPos[k] as real
  {
    hide Rows.Times;
    Rows.TimesUnit(0.0);
    if s.proposals > 0 {
      QuotientTimes(s.acceptanceSum, s.proposals);
      QuotientTimes(s.proposalSum, s.proposals);
      forall k | 0 <= k < width && s.proposalsAtPos[k] > 0
        ensures Rows.Times(s.acceptedAtPos[k] as real / s.proposalsAtPos[k] as real, s.proposalsAtPos[k] as real)
             == s.acceptedAtPos[k] as real
      {
        QuotientTimes(s.acceptedAtPos[k], s.proposalsAtPos[k]);
      }
    }
  }

  /** Every reported rate of a conserved summary is a proportion; a position has a rate if and only
      if it was proposed; the verification rate is the accepted share of a full round. */
  lemma RatesAreProportions(s: Summary, width: nat, drafts: nat)
    requires Wide(s, width) && Conserved(s, drafts)
    ensures var row := BuildMetricsRow(s, width);
            && row.samples == s.samples
            && 0.0 <= row.verifyRate <= 1.0
            && (s.proposals > 0 ==> Rows.Times(row.verifyRate, row.draftTokens + 1.0) == row.acceptanceLength)
            && |row.acceptRates| == width
            && forall k :: 0 <= k < width ==>
                 && (row.acceptRates[k].Rate? <==> s.proposalsAtPos[k] > 0)
                 && (row.acceptRates[k].Rate? ==> 0.0 <= row.acceptRates[k].value <= 1.0)
  {
    hide Sum, Rows.Times;
    if s.proposals > 0 {
      RateAtMostOne(s.acceptanceSum, s.proposalSum + s.proposals);
      VerifyRateIs(s.acceptanceSum, s.proposalSum, s.proposals);
      forall k | 0 <= k < width && s.proposalsAtPos[k] > 0
        ensures 0.0 <= s.acceptedAtPos[k] as real / s.proposalsAtPos[k] as real <= 1.0
      {
        RateAtMostOne(s.acceptedAtPos[k], s.proposalsAtPos[k]);
      }
    }
  }
}
