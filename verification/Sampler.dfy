/** The stateless resumable sampler, the training schedule, and what a global batch contains. */
module Sampler {
  import opened Options
  import opened Arith

  /** The shuffles of the dataset, one per epoch. */
  type Shuffles = nat -> seq<nat>

  ghost predicate ProperShuffles(perm: Shuffles, datasetSize: nat) {
    forall epoch :: |perm(epoch)| == datasetSize
  }

  // ------------------------------------------------------------------ schedule

  /** The schedule numbers derived from the batch settings. */
  datatype Schedule = Schedule(
    accumulation: nat,
    samplesPerEpoch: nat,
    perRankSamples: nat,
    microBatchesPerEpoch: nat,
    stepsPerEpoch: nat,
    maxSteps: nat,
    epochs: nat)

  function CeilDiv(a: nat, b: nat): nat
    requires b > 0
  {
    if a % b == 0 then a / b else a / b + 1
  }

  /** world_size * local_batch_size. */
  function Denominator(world: nat, localBatch: nat): (d: nat)
    requires world > 0 && localBatch > 0
    ensures d > 0
  {
    MulPositive(world, localBatch);
    Mul(world, localBatch)
  }

  function Quotient(a: nat, b: nat): nat
    requires b > 0
  {
    a / b
  }

  function Product(a: nat, b: nat): nat {
    MulNonNegative(a, b);
    Mul(a, b)
  }

  /** _compute_training_schedule: the two assertions become the absent result. */
  function TrainingSchedule(world: nat, datasetSize: nat, localBatch: nat, globalBatch: nat, epochs: nat,
                            maxSteps: Option<nat>)
    : Option<Schedule>
    requires world > 0 && localBatch > 0 && globalBatch > 0
  {
    if globalBatch % Denominator(world, localBatch) != 0 || Quotient(datasetSize, globalBatch) == 0 then None
    else
      var accumulation := Quotient(globalBatch, Denominator(world, localBatch));
      var samplesPerEpoch := Product(Quotient(datasetSize, globalBatch), globalBatch);
      var perRank := Quotient(samplesPerEpoch, world);
      var micro := Quotient(perRank, localBatch);
      var steps := if accumulation == 0 then 0 else Quotient(micro, accumulation);
      Some(Schedule(accumulation, samplesPerEpoch, perRank, micro, steps,
                    if maxSteps.None? then Product(epochs, steps) else maxSteps.value,
                    if maxSteps.None? then epochs else if steps == 0 then 0 else CeilDiv(maxSteps.value, steps)))
  }

  lemma MulPositive(a: nat, b: nat)
    requires a > 0 && b > 0
    ensures Mul(a, b) > 0
  {
    hide Mul;
    MulOrder(1, a, b);
    MulLaws(b, 0, 0);
  }

  lemma AccumulationPositive(globalBatch: nat, denominator: nat)
    requires globalBatch > 0 && denominator > 0 && globalBatch % denominator == 0
    ensures globalBatch / denominator > 0
    ensures Mul(globalBatch / denominator, denominator) == globalBatch
  {
    hide Mul;
    DivModForm(globalBatch, denominator);
    MulLaws(denominator, 0, 0);
  }

  lemma ExactQuotient(q: nat, w: nat, x: nat)
    requires w > 0 && x == Mul(q, w)
    ensures x / w == q && x % w == 0
  {
    hide Mul;
    DivMod(q, w, 0, x);
  }

  /** The settings are accepted if and only if the global batch is a whole number of rounds of local
      batches and the dataset holds one. */
  lemma ScheduledIff(world: nat, datasetSize: nat, localBatch: nat, globalBatch: nat, epochs: nat,
                     maxSteps: Option<nat>)
    requires world > 0 && localBatch > 0 && globalBatch > 0
    ensures TrainingSchedule(world, datasetSize, localBatch, globalBatch, epochs, maxSteps).Some?
       <==> globalBatch <= datasetSize && exists k: nat :: globalBatch == Mul(k, Mul(world, localBatch))
  {
    hide Mul, CeilDiv;
    MulPositive(world, localBatch);
    var d := Mul(world, localBatch);
    if globalBatch % d == 0 {
      AccumulationPositive(globalBatch, d);
      assert globalBatch == Mul(globalBatch / d, d);
    }
    if k: nat :| globalBatch == Mul(k, d) {
      ExactQuotient(k, d, globalBatch);
    }
    DivModForm(datasetSize, globalBatch);
    MulOrder(1, datasetSize / globalBatch, globalBatch);
    MulLaws(globalBatch, 0, 0);
    if datasetSize < globalBatch {
      ModSmall(datasetSize, globalBatch);
    }
  }

  /** Whatever the world size and the local batch size, an epoch has as many optimizer steps as
      the dataset has full global batches. */
  lemma ScheduleFacts(world: nat, datasetSize: nat, localBatch: nat, globalBatch: nat, epochs: nat,
                      maxSteps: Option<nat>)
    requires world > 0 && localBatch > 0 && globalBatch > 0
    requires TrainingSchedule(world, datasetSize, localBatch, globalBatch, epochs, maxSteps).Some?
    ensures var s := TrainingSchedule(world, datasetSize, localBatch, globalBatch, epochs, maxSteps).value;
            && s.accumulation > 0
            && globalBatch == Mul(Mul(s.accumulation, localBatch), world)
            && s.stepsPerEpoch == datasetSize / globalBatch > 0
            && s.microBatchesPerEpoch == Mul(s.stepsPerEpoch, s.accumulation)
            && s.perRankSamples == Mul(s.stepsPerEpoch, Mul(s.accumulation, localBatch))
            && s.samplesPerEpoch == Mul(s.stepsPerEpoch, globalBatch) <= datasetSize
            && s.samplesPerEpoch == Mul(s.perRankSamples, world)
  {
    hide Mul, CeilDiv;
    var s := TrainingSchedule(world, datasetSize, localBatch, globalBatch, epochs, maxSteps).value;
    var a, n := s.accumulation, datasetSize / globalBatch;
    MulPositive(world, localBatch);
    AccumulationPositive(globalBatch, Mul(world, localBatch));
    // globalBatch == a * (world * localBatch) == (a * localBatch) * world
    MulLaws(world, localBatch, 0);
    MulAssociate(a, localBatch, world);
    // per rank: (n * globalBatch) / world == n * (a * localBatch)
    MulAssociate(n, Mul(a, localBatch), world);
    MulNonNegative(a, localBatch);
    MulNonNegative(n, Mul(a, localBatch));
    ExactQuotient(Mul(n, Mul(a, localBatch)), world, s.samplesPerEpoch);
    // micro batches: n * (a * localBatch) / localBatch == n * a
    MulAssociate(n, a, localBatch);
    MulNonNegative(n, a);
    ExactQuotient(Mul(n, a), localBatch, s.perRankSamples);
    ExactQuotient(n, a, s.microBatchesPerEpoch);
    DivModForm(datasetSize, globalBatch);
  }

  /** The number of epochs is the least that holds all optimizer steps. */
  lemma EpochsHoldSteps(world: nat, datasetSize: nat, localBatch: nat, globalBatch: nat, epochs: nat,
                        maxSteps: Option<nat>)
    requires world > 0 && localBatch > 0 && globalBatch > 0
    requires TrainingSchedule(world, datasetSize, localBatch, globalBatch, epochs, maxSteps).Some?
    ensures var s := TrainingSchedule(world, datasetSize, localBatch, globalBatch, epochs, maxSteps).value;
            && s.maxSteps <= Mul(s.epochs, s.stepsPerEpoch)
            && (s.maxSteps > 0 ==> Mul(s.epochs - 1, s.stepsPerEpoch) < s.maxSteps)
            && (maxSteps.None? ==> s.epochs == epochs && s.maxSteps == Mul(epochs, s.stepsPerEpoch))
            && (maxSteps.Some? ==> s.maxSteps == maxSteps.value)
  {
    hide Mul;
    var s := TrainingSchedule(world, datasetSize, localBatch, globalBatch, epochs, maxSteps).value;
    ScheduleFacts(world, datasetSize, localBatch, globalBatch, epochs, maxSteps);
    var w := s.stepsPerEpoch;
    DivModForm(s.maxSteps, w);
    MulLaws(s.epochs - 1, 1, w);
    MulLaws(s.maxSteps / w, 1, w);
    MulLaws(w, 0, 0);
  }

  // ------------------------------------------------------------------ the stream of a rank

  /** One rank's part of the sampler: per-rank epoch length, number of replicas, own rank. */
  datatype View = View(perm: Shuffles, datasetSize: nat, perRank: nat, replicas: nat, rank: nat)

  ghost predicate ProperView(v: View) {
    && v.rank < v.replicas && v.perRank > 0
    && Mul(v.perRank, v.replicas) <= v.datasetSize
    && ProperShuffles(v.perm, v.datasetSize)
  }

  lemma SliceIndex(v: View, i: nat)
    requires ProperView(v) && i < v.perRank
    ensures 0 <= v.rank + Mul(i, v.replicas) < Mul(v.perRank, v.replicas)
  {
    hide Mul, ProperShuffles;
    MulOrder(i, v.perRank, v.replicas);
    MulNonNegative(i, v.replicas);
  }

  /** _epoch_perm and _epoch_slice_for_rank: every replicas-th entry, starting at the own rank. */
  ghost function EpochSlice(v: View, epoch: nat): (s: seq<nat>)
    requires ProperView(v)
    ensures |s| == v.perRank
  {
    seq(v.perRank, i requires 0 <= i < v.perRank => SliceIndex(v, i); v.perm(epoch)[v.rank + Mul(i, v.replicas)])
  }

  /** The sample at a position of the rank's endless stream. */
  ghost function StreamAt(v: View, t: nat): nat
    requires ProperView(v)
  {
    EpochSlice(v, t / v.perRank)[t % v.perRank]
  }

  ghost function Stream(v: View, start: nat, count: nat): (s: seq<nat>)
    requires ProperView(v)
    ensures |s| == count
  {
    seq<nat>(count, i requires 0 <= i => StreamAt(v, start + i))
  }

  /** The list slice perm[rank : total : replicas]. */
  method TakeSlice(v: View, epoch: nat) returns (slice: seq<nat>)
    requires ProperView(v)
    ensures slice == EpochSlice(v, epoch)
  {
    hide Mul;
    slice := [];
    var i := 0;
    while i < v.perRank
      invariant 0 <= i <= v.perRank && |slice| == i
      invariant forall k :: 0 <= k < i ==> slice[k] == EpochSlice(v, epoch)[k]
    {
      SliceIndex(v, i);
      slice := slice + [v.perm(epoch)[v.rank + Mul(i, v.replicas)]];
      i := i + 1;
    }
  }

  /** __iter__ over _iter_stream: the given number of samples from an offset on, across epochs. */
  method IterateStream(v: View, offset: nat, count: nat) returns (out: seq<nat>)
    requires ProperView(v)
    ensures out == Stream(v, offset, count)
  {
    hide Mul, EpochSlice, ProperView;
    assert v.perRank > 0 by { ViewIsPositive(v); }
    DivModForm(offset, v.perRank);
    var epoch: nat, inEpoch: nat := offset / v.perRank, offset % v.perRank;
    var slice := TakeSlice(v, epoch);
    out := [];
    while |out| < count
      invariant inEpoch <= v.perRank && slice == EpochSlice(v, epoch)
      invariant offset + |out| == Mul(epoch, v.perRank) + inEpoch
      invariant |out| <= count && forall k :: 0 <= k < |out| ==> out[k] == StreamAt(v, offset + k)
    {
      if inEpoch == v.perRank {
        MulLaws(epoch, 1, v.perRank);
        MulLaws(v.perRank, 0, 0);
        epoch, inEpoch := epoch + 1, 0;
        slice := TakeSlice(v, epoch);
      }
      DivMod(epoch, v.perRank, inEpoch, offset + |out|);
      out := out + [slice[inEpoch]];
      inEpoch := inEpoch + 1;
    }
  }

  lemma ViewIsPositive(v: View)
    requires ProperView(v)
    ensures v.perRank > 0
  {}

  // ------------------------------------------------------------------ batches

  /** The samples of one micro-batch of the rank. */
  ghost function Micro(v: View, localBatch: nat, m: nat): seq<nat>
    requires ProperView(v)
  {
    MulNonNegative(m, localBatch);
    Stream(v, Mul(m, localBatch), localBatch)
  }

  /** The samples a rank consumes in micro-batches first .. first + n. */
  ghost function Micros(v: View, localBatch: nat, first: nat, n: nat): seq<nat>
    requires ProperView(v)
  {
    if n == 0 then [] else Micros(v, localBatch, first, n - 1) + Micro(v, localBatch, first + n - 1)
  }

  lemma StreamConcat(v: View, start: nat, a: nat, b: nat)
    requires ProperView(v)
    ensures Stream(v, start, a) + Stream(v, start + a, b) == Stream(v, start, a + b)
  {
    hide StreamAt, ProperView;
  }

  /** Consecutive micro-batches are a contiguous part of the stream. */
  lemma {:induction false} MicrosAreContiguous(v: View, localBatch: nat, first: nat, n: nat)
    requires ProperView(v)
    ensures Mul(first, localBatch) >= 0 && Mul(n, localBatch) >= 0
    ensures Micros(v, localBatch, first, n) == Stream(v, Mul(first, localBatch), Mul(n, localBatch))
  {
    hide Mul, StreamAt, ProperView;
    MulNonNegative(first, localBatch);
    MulNonNegative(n, localBatch);
    MulLaws(localBatch, 0, 0);
    if n > 0 {
      MicrosAreContiguous(v, localBatch, first, n - 1);
      MulLaws(n - 1, 1, localBatch);
      MulLaws(first, n - 1, localBatch);
      StreamConcat(v, Mul(first, localBatch), Mul(n - 1, localBatch), localBatch);
    }
  }

  // ------------------------------------------------------------------ columns of a block

  /** Every w-th entry of a block, starting at r: c entries. */
  function Column(block: seq<nat>, w: nat, c: nat, r: nat): seq<nat>
    requires r < w && Mul(c, w) <= |block|
  {
    seq(c, i requires 0 <= i < c => ColumnIndex(w, c, r, i); block[Mul(i, w) + r])
  }

  lemma ColumnIndex(w: nat, c: nat, r: nat, i: nat)
    requires r < w && i < c
    ensures 0 <= Mul(i, w) + r < Mul(c, w)
  {
    hide Mul;
    MulOrder(i, c, w);
    MulNonNegative(i, w);
  }

  /** The first n columns of a block of c rows. */
  function Columns(block: seq<nat>, w: nat, c: nat, n: nat): multiset<nat>
    requires n <= w && Mul(c, w) <= |block|
  {
    if n == 0 then multiset{} else Columns(block, w, c, n - 1) + multiset(Column(block, w, c, n - 1))
  }

  lemma RowBound(w: nat, c: nat)
    ensures 0 <= Mul(c, w) && Mul(c + 1, w) == Mul(c, w) + w
  {
    hide Mul;
    MulNonNegative(c, w);
    MulLaws(c, 1, w);
    MulLaws(w, 0, 0);
  }

  lemma ColumnStep(block: seq<nat>, w: nat, c: nat, r: nat)
    requires r < w && Mul(c + 1, w) <= |block|
    ensures 0 <= Mul(c, w) <= Mul(c, w) + r < |block|
    ensures Column(block, w, c + 1, r) == Column(block, w, c, r) + [block[Mul(c, w) + r]]
  {
    hide Mul;
    RowBound(w, c);
  }

  lemma AppendToBoth(before: multiset<nat>, after: multiset<nat>, column: seq<nat>, row: seq<nat>, x: nat)
    requires after == before + multiset(row)
    ensures after + multiset(column + [x]) == (before + multiset(column)) + multiset(row + [x])
  {
    assert multiset(column + [x]) == multiset(column) + multiset{x};
    assert multiset(row + [x]) == multiset(row) + multiset{x};
  }

  /** One more row adds one entry to each column. */
  lemma {:induction false} ColumnsStep(block: seq<nat>, w: nat, c: nat, n: nat)
    requires n <= w && Mul(c + 1, w) <= |block|
    ensures 0 <= Mul(c, w) <= Mul(c, w) + n <= |block|
    ensures Columns(block, w, c + 1, n) == Columns(block, w, c, n) + multiset(block[Mul(c, w)..Mul(c, w) + n])
  {
    hide Mul, Column;
    RowBound(w, c);
    var row := Mul(c, w);
    if n > 0 {
      ColumnsStep(block, w, c, n - 1);
      ColumnStep(block, w, c, n - 1);
      assert block[row..row + n] == block[row..row + (n - 1)] + [block[row + (n - 1)]];
      AppendToBoth(Columns(block, w, c, n - 1), Columns(block, w, c + 1, n - 1), Column(block, w, c, n - 1),
                   block[row..row + (n - 1)], block[row + (n - 1)]);
    }
  }

  lemma {:induction false} NoRows(block: seq<nat>, w: nat, n: nat)
    requires n <= w
    ensures Mul(0, w) == 0 && Columns(block, w, 0, n) == multiset{}
  {
    if n > 0 {
      NoRows(block, w, n - 1);
    }
  }

  /** The columns of a block hold exactly its entries. */
  lemma {:induction false} ColumnsCover(block: seq<nat>, w: nat, c: nat)
    requires Mul(c, w) <= |block|
    ensures 0 <= Mul(c, w) && Columns(block, w, c, w) == multiset(block[..Mul(c, w)])
  {
    hide Mul, Columns;
    if c == 0 {
      NoRows(block, w, w);
    } else {
      RowBound(w, c - 1);
      ColumnsCover(block, w, c - 1);
      ColumnsStep(block, w, c - 1, w);
      var row := Mul(c - 1, w);
      assert block[..row + w] == block[..row] + block[row..row + w];
    }
  }

  // ------------------------------------------------------------------ the content of a step

  /** The batch settings, with the derived numbers. */
  datatype Setup = Setup(
    perm: Shuffles, datasetSize: nat, world: nat, localBatch: nat, globalBatch: nat, accumulation: nat,
    stepsPerEpoch: nat)

  ghost predicate ProperSetup(u: Setup) {
    && u.world > 0 && u.localBatch > 0 && u.accumulation > 0 && u.stepsPerEpoch > 0
    && u.globalBatch == Mul(Mul(u.accumulation, u.localBatch), u.world)
    && Mul(u.stepsPerEpoch, u.globalBatch) <= u.datasetSize
    && ProperShuffles(u.perm, u.datasetSize)
  }

  /** Samples per rank and optimizer step. */
  function RankShare(u: Setup): nat {
    MulNonNegative(u.accumulation, u.localBatch);
    Mul(u.accumulation, u.localBatch)
  }

  function ViewOf(u: Setup, rank: nat): View {
    MulNonNegative(u.stepsPerEpoch, RankShare(u));
    View(u.perm, u.datasetSize, Mul(u.stepsPerEpoch, RankShare(u)), u.world, rank)
  }

  lemma ViewIsProper(u: Setup, rank: nat)
    requires ProperSetup(u) && rank < u.world
    ensures ProperView(ViewOf(u, rank))
  {
    hide Mul, ProperShuffles;
    MulPositive(u.accumulation, u.localBatch);
    MulPositive(u.stepsPerEpoch, RankShare(u));
    MulAssociate(u.stepsPerEpoch, RankShare(u), u.world);
  }

  /** The block of the epoch's shuffle that optimizer step s consumes. */
  ghost function Block(u: Setup, s: nat): (block: seq<nat>)
    requires ProperSetup(u)
    ensures |block| == u.globalBatch
  {
    BlockBounds(u, s);
    var first := Mul(s % u.stepsPerEpoch, u.globalBatch);
    u.perm(s / u.stepsPerEpoch)[first..first + u.globalBatch]
  }

  lemma BlockBounds(u: Setup, s: nat)
    requires ProperSetup(u)
    ensures 0 <= Mul(s % u.stepsPerEpoch, u.globalBatch)
    ensures Mul(s % u.stepsPerEpoch, u.globalBatch) + u.globalBatch <= |u.perm(s / u.stepsPerEpoch)|
  {
    hide Mul;
    DivModForm(s, u.stepsPerEpoch);
    MulNonNegative(s % u.stepsPerEpoch, u.globalBatch);
    MulOrder(s % u.stepsPerEpoch, u.stepsPerEpoch, u.globalBatch);
  }

  /** What one rank trains on in optimizer step s, over all its micro-steps. */
  ghost function RankStep(u: Setup, rank: nat, s: nat): seq<nat>
    requires ProperSetup(u) && rank < u.world
  {
    ViewIsProper(u, rank);
    MulNonNegative(s, u.accumulation);
    Micros(ViewOf(u, rank), u.localBatch, Mul(s, u.accumulation), u.accumulation)
  }

  /** Where position i of step s lies: epoch s / steps, row (s % steps) * share + i. */
  lemma StepPosition(u: Setup, s: nat, i: nat)
    requires ProperSetup(u) && i < RankShare(u)
    ensures 0 <= Mul(s, RankShare(u)) + i
    ensures 0 <= Mul(s % u.stepsPerEpoch, RankShare(u)) + i
    ensures var per := Mul(u.stepsPerEpoch, RankShare(u));
            && per > 0
            && (Mul(s, RankShare(u)) + i) / per == s / u.stepsPerEpoch
            && (Mul(s, RankShare(u)) + i) % per == Mul(s % u.stepsPerEpoch, RankShare(u)) + i
  {
    hide Mul, ProperShuffles;
    var share, steps := RankShare(u), u.stepsPerEpoch;
    var per := Mul(steps, share);
    MulPositive(steps, share);
    MulNonNegative(s, share);
    DivModForm(s, steps);
    MulNonNegative(s % steps, share);
    MulLaws(Mul(s / steps, steps), s % steps, share);
    MulAssociate(s / steps, steps, share);
    MulOrder(s % steps, steps, share);
    DivMod(s / steps, per, Mul(s % steps, share) + i, Mul(s, share) + i);
  }

  lemma BlockEntry(u: Setup, rank: nat, s: nat, i: nat)
    requires ProperSetup(u) && rank < u.world && i < RankShare(u)
    ensures ProperView(ViewOf(u, rank)) && 0 <= Mul(s, RankShare(u)) + i
    ensures 0 <= Mul(i, u.world) + rank < u.globalBatch
    ensures StreamAt(ViewOf(u, rank), Mul(s, RankShare(u)) + i) == Block(u, s)[Mul(i, u.world) + rank]
  {
    hide Mul, ProperShuffles, ProperView;
    ViewIsProper(u, rank);
    StepPosition(u, s, i);
    BlockBounds(u, s);
    ColumnIndex(u.world, RankShare(u), rank, i);
    var row := Mul(s % u.stepsPerEpoch, RankShare(u));
    MulLaws(row, i, u.world);
    MulAssociate(s % u.stepsPerEpoch, RankShare(u), u.world);
    SliceAt(ViewOf(u, rank), s / u.stepsPerEpoch, row + i);
  }

  lemma SliceAt(v: View, epoch: nat, i: nat)
    requires ProperView(v) && i < v.perRank
    ensures 0 <= v.rank + Mul(i, v.replicas) < |v.perm(epoch)|
    ensures EpochSlice(v, epoch)[i] == v.perm(epoch)[v.rank + Mul(i, v.replicas)]
  {
    hide Mul;
    SliceIndex(v, i);
  }

  /** A rank's part of step s is one column of the step's block. */
  lemma RankStepIsColumn(u: Setup, rank: nat, s: nat)
    requires ProperSetup(u) && rank < u.world
    ensures Mul(RankShare(u), u.world) == u.globalBatch
    ensures RankStep(u, rank, s) == Column(Block(u, s), u.world, RankShare(u), rank)
  {
    hide Mul, StreamAt, ProperView, Block;
    ViewIsProper(u, rank);
    var v := ViewOf(u, rank);
    MulNonNegative(s, u.accumulation);
    MicrosAreContiguous(v, u.localBatch, Mul(s, u.accumulation), u.accumulation);
    MulAssociate(s, u.accumulation, u.localBatch);
    var column := Column(Block(u, s), u.world, RankShare(u), rank);
    forall i | 0 <= i < RankShare(u)
      ensures RankStep(u, rank, s)[i] == column[i]
    {
      BlockEntry(u, rank, s, i);
    }
  }

  /** Everything the first n ranks consume in optimizer step s. */
  ghost function StepContent(u: Setup, s: nat, n: nat): multiset<nat>
    requires ProperSetup(u) && n <= u.world
  {
    if n == 0 then multiset{} else StepContent(u, s, n - 1) + multiset(RankStep(u, n - 1, s))
  }

  lemma {:induction false} StepContentIsColumns(u: Setup, s: nat, n: nat)
    requires ProperSetup(u) && n <= u.world
    ensures Mul(RankShare(u), u.world) == u.globalBatch
    ensures StepContent(u, s, n) == Columns(Block(u, s), u.world, RankShare(u), n)
  {
    hide Mul, RankStep, Column, Block, ProperShuffles;
    if n > 0 {
      StepContentIsColumns(u, s, n - 1);
      RankStepIsColumn(u, n - 1, s);
    }
  }

  /** Over all ranks and micro-steps, optimizer step s consumes exactly a contiguous block of
      global-batch-size entries of the shuffle of epoch s / steps-per-epoch. */
  lemma StepConsumesBlock(u: Setup, s: nat)
    requires ProperSetup(u)
    ensures StepContent(u, s, u.world) == multiset(Block(u, s))
  {
    hide Mul, StepContent, Block, Columns, ProperShuffles;
    StepContentIsColumns(u, s, u.world);
    ColumnsCover(Block(u, s), u.world, RankShare(u));
    assert Block(u, s)[..u.globalBatch] == Block(u, s);
  }

  /** Everything the first n optimizer steps of an epoch consume. */
  ghost function EpochContent(u: Setup, epoch: nat, n: nat): multiset<nat>
    requires ProperSetup(u)
  {
    if n == 0 then multiset{}
    else
      MulNonNegative(epoch, u.stepsPerEpoch);
      EpochContent(u, epoch, n - 1) + StepContent(u, Mul(epoch, u.stepsPerEpoch) + n - 1, u.world)
  }

  lemma BlockOfEpoch(u: Setup, epoch: nat, k: nat, s: nat)
    requires ProperSetup(u) && k < u.stepsPerEpoch && s == Mul(epoch, u.stepsPerEpoch) + k
    ensures 0 <= Mul(k, u.globalBatch) && Mul(k, u.globalBatch) + u.globalBatch <= |u.perm(epoch)|
    ensures multiset(u.perm(epoch)[..Mul(k, u.globalBatch)]) + multiset(Block(u, s))
         == multiset(u.perm(epoch)[..Mul(k + 1, u.globalBatch)])
  {
    hide Mul;
    DivMod(epoch, u.stepsPerEpoch, k, s);
    BlockBounds(u, s);
    MulLaws(k, 1, u.globalBatch);
    MulLaws(u.globalBatch, 0, 0);
    var perm, m := u.perm(epoch), Mul(k, u.globalBatch);
    assert perm[..m + u.globalBatch] == perm[..m] + perm[m..m + u.globalBatch];
  }

  /** The steps of an epoch go through its shuffle from the front, each entry once. */
  lemma {:induction false} EpochConsumesPrefix(u: Setup, epoch: nat, n: nat)
    requires ProperSetup(u) && n <= u.stepsPerEpoch
    ensures 0 <= Mul(n, u.globalBatch) <= |u.perm(epoch)|
    ensures EpochContent(u, epoch, n) == multiset(u.perm(epoch)[..Mul(n, u.globalBatch)])
  {
    hide Mul, StepContent, Block;
    MulNonNegative(n, u.globalBatch);
    MulOrder(n, u.stepsPerEpoch, u.globalBatch);
    if n == 0 {
      MulLaws(u.globalBatch, 0, 0);
    } else {
      EpochConsumesPrefix(u, epoch, n - 1);
      MulNonNegative(epoch, u.stepsPerEpoch);
      var s := Mul(epoch, u.stepsPerEpoch) + n - 1;
      StepConsumesBlock(u, s);
      BlockOfEpoch(u, epoch, n - 1, s);
    }
  }

  /** The setup of a training run with the given world size and local batch size. */
  function SetupOf(perm: Shuffles, datasetSize: nat, world: nat, localBatch: nat, globalBatch: nat): Setup
    requires world > 0 && localBatch > 0 && globalBatch > 0
  {
    Setup(perm, datasetSize, world, localBatch, globalBatch, globalBatch / Denominator(world, localBatch),
          datasetSize / globalBatch)
  }

  /** The dataset holds a global batch, which is a whole number of rounds of local batches. */
  ghost predicate Schedulable(datasetSize: nat, world: nat, localBatch: nat, globalBatch: nat) {
    && world > 0 && localBatch > 0 && 0 < globalBatch <= datasetSize
    && exists k: nat :: globalBatch == Mul(k, Mul(world, localBatch))
  }

  lemma ScheduledSetup(perm: Shuffles, datasetSize: nat, world: nat, localBatch: nat, globalBatch: nat)
    requires Schedulable(datasetSize, world, localBatch, globalBatch) && ProperShuffles(perm, datasetSize)
    ensures ProperSetup(SetupOf(perm, datasetSize, world, localBatch, globalBatch))
  {
    hide Mul, ProperShuffles;
    ScheduledIff(world, datasetSize, localBatch, globalBatch, 1, None);
    ScheduleFacts(world, datasetSize, localBatch, globalBatch, 1, None);
  }

  /** The content of a step does not depend on the world size or the local batch size. */
  lemma ParallelismDoesNotMatter(perm: Shuffles, datasetSize: nat, globalBatch: nat, world: nat, localBatch: nat,
                                 world': nat, localBatch': nat, s: nat)
    requires ProperShuffles(perm, datasetSize)
    requires world > 0 && localBatch > 0 && globalBatch > 0 && world' > 0 && localBatch' > 0
    requires Schedulable(datasetSize, world, localBatch, globalBatch)
      && Schedulable(datasetSize, world', localBatch', globalBatch)
    ensures var u, u' := SetupOf(perm, datasetSize, world, localBatch, globalBatch),
                         SetupOf(perm, datasetSize, world', localBatch', globalBatch);
            && ProperSetup(u) && ProperSetup(u')
            && StepContent(u, s, world) == StepContent(u', s, world') == multiset(Block(u, s))
  {
    hide Mul, StepContent, Schedulable, ProperSetup;
    ScheduledSetup(perm, datasetSize, world, localBatch, globalBatch);
    ScheduledSetup(perm, datasetSize, world', localBatch', globalBatch);
    StepConsumesBlock(SetupOf(perm, datasetSize, world, localBatch, globalBatch), s);
    StepConsumesBlock(SetupOf(perm, datasetSize, world', localBatch', globalBatch), s);
  }
}
