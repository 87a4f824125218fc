/** The distributed build of a target cache.

Every rank encodes and keeps samples of its own slice of the source and writes local shards.
After a barrier the shards get global ids and every rank renames its own files, in any
interleaving.  After another barrier one rank merges the local indexes. */
module CacheBuild {
  import opened Options
  import opened Arith
  import opened IndexFormat
  import opened CacheWriter

  // ------------------------------------------------------------------ splitting the source

  /** compute_local_sample_range: the first sample of a rank; the next rank's first is its end. */
  function RangeStart(n: nat, rank: nat, world: nat): nat
    requires world > 0
  {
    MulNonNegative(rank, n / world);
    Mul(rank, n / world) + if rank < n % world then rank else n % world
  }

  function RangeEnd(n: nat, rank: nat, world: nat): nat
    requires world > 0
  {
    RangeStart(n, rank, world) + n / world + if rank < n % world then 1 else 0
  }

  /** The ranges of the ranks are adjacent and together cover the source. */
  lemma RangesPartition(n: nat, rank: nat, world: nat)
    requires rank < world
    ensures RangeStart(n, 0, world) == 0 && RangeStart(n, world, world) == n
    ensures RangeEnd(n, rank, world) == RangeStart(n, rank + 1, world)
    ensures RangeStart(n, rank, world) <= RangeEnd(n, rank, world) <= n
  {
    hide Mul;
    var base := n / world;
    DivModForm(n, world);
    MulLaws(base, 0, 0);
    MulLaws(rank, 1, base);
    MulLaws(world, base, 0);
    MulOrder(rank + 1, world, base);
  }

  /** The ranges differ in length by at most one, the longer ones first. */
  lemma RangeSizes(n: nat, r: nat, r': nat, world: nat)
    requires r < r' < world
    ensures RangeEnd(n, r', world) - RangeStart(n, r', world) <= RangeEnd(n, r, world) - RangeStart(n, r, world)
         <= RangeEnd(n, r', world) - RangeStart(n, r', world) + 1
  {
    hide Mul;
  }

  /** The collator keeps a sample or drops it; a kept sample comes with its serialized tensors. */
  function Kept<T>(source: seq<T>, encode: T -> Option<SampleBytes>): seq<SampleBytes> {
    if source == [] then []
    else
      var before, last := Kept(source[..|source| - 1], encode), encode(source[|source| - 1]);
      if last.Some? then before + [last.value] else before
  }

  /** How many of the first n source samples are kept. */
  ghost function KeptBefore<T>(source: seq<T>, encode: T -> Option<SampleBytes>, n: nat): nat
    requires n <= |source|
  {
    |set j: nat | j < n && encode(source[j]).Some?|
  }

  lemma KeptBeforeStep<T>(source: seq<T>, encode: T -> Option<SampleBytes>, n: nat)
    requires n < |source|
    ensures KeptBefore(source, encode, n + 1) == KeptBefore(source, encode, n) + if encode(source[n]).Some? then 1
      else 0
  {
    var before := set j: nat | j < n && encode(source[j]).Some?;
    var after := set j: nat | j < n + 1 && encode(source[j]).Some?;
    assert after == if encode(source[n]).Some? then before + {n} else before;
  }

  lemma KeptBeforePrefix<T>(source: seq<T>, encode: T -> Option<SampleBytes>, m: nat, n: nat)
    requires n <= m <= |source|
    ensures KeptBefore(source[..m], encode, n) == KeptBefore(source, encode, n)
  {
    assert (set j: nat | j < n && encode(source[..m][j]).Some?) == (set j: nat | j < n && encode(source[j]).Some?);
  }

  /** As many samples are kept as the collator keeps, and each kept one stands at the position given by
      the number of kept ones before it. */
  lemma {:induction false} KeptIs<T>(source: seq<T>, encode: T -> Option<SampleBytes>)
    ensures |Kept(source, encode)| == KeptBefore(source, encode, |source|)
    ensures forall k :: 0 <= k < |source| && encode(source[k]).Some? ==>
              && KeptBefore(source, encode, k) < |Kept(source, encode)|
              && Kept(source, encode)[KeptBefore(source, encode, k)] == encode(source[k]).value
  {
    hide KeptBefore;
    if source == [] {
      NothingKeptBefore(source, encode);
    } else {
      var n := |source| - 1;
      KeptIs(source[..n], encode);
      KeptBeforeStep(source, encode, n);
      KeptBeforePrefix(source, encode, n, n);
      forall k | 0 <= k < n && encode(source[k]).Some?
        ensures KeptBefore(source[..n], encode, k) == KeptBefore(source, encode, k) && source[..n][k] == source[k]
      {
        KeptBeforePrefix(source, encode, n, k);
      }
    }
  }

  lemma NothingKeptBefore<T>(source: seq<T>, encode: T -> Option<SampleBytes>)
    ensures KeptBefore(source, encode, 0) == 0
  {}

  lemma {:induction false} KeptConcat<T>(a: seq<T>, b: seq<T>, encode: T -> Option<SampleBytes>)
    ensures Kept(a + b, encode) == Kept(a, encode) + Kept(b, encode)
  {
    if b == [] {
      assert a + b == a;
    } else {
      var n := |b| - 1;
      assert (a + b)[..|a + b| - 1] == a + b[..n];
      KeptConcat(a, b[..n], encode);
    }
  }

  /** Samples are numbered by the writer's counter. */
  function Numbered(bodies: seq<SampleBytes>): (samples: seq<SampleBytes>)
    ensures |samples| == |bodies|
  {
    seq(|bodies|, i requires 0 <= i < |bodies| => bodies[i].(sampleId := i))
  }

  /** The source slice of a rank. */
  function SliceOf<T>(source: seq<T>, rank: nat, world: nat): seq<T>
    requires rank < world
  {
    RangesPartition(|source|, rank, world);
    source[RangeStart(|source|, rank, world)..RangeEnd(|source|, rank, world)]
  }

  /** Everything the first `ranks` ranks keep, in rank order. */
  function KeptByRanks<T>(source: seq<T>, encode: T -> Option<SampleBytes>, ranks: nat, world: nat): seq<SampleBytes>
    requires ranks <= world
  {
    if ranks == 0 then []
    else KeptByRanks(source, encode, ranks - 1, world) + Kept(SliceOf(source, ranks - 1, world), encode)
  }

  lemma {:induction false} KeptByRanksIs<T>(source: seq<T>, encode: T -> Option<SampleBytes>, ranks: nat, world: nat)
    requires ranks <= world && world > 0
    ensures RangeStart(|source|, ranks, world) <= |source|
    ensures KeptByRanks(source, encode, ranks, world) == Kept(source[..RangeStart(|source|, ranks, world)], encode)
  {
    hide RangeStart, RangeEnd;
    var n := |source|;
    if ranks == 0 {
      RangesPartition(n, 0, world);
    } else {
      KeptByRanksIs(source, encode, ranks - 1, world);
      RangesPartition(n, ranks - 1, world);
      var lo, hi := RangeStart(n, ranks - 1, world), RangeStart(n, ranks, world);
      assert source[..hi] == source[..lo] + SliceOf(source, ranks - 1, world);
      KeptConcat(source[..lo], SliceOf(source, ranks - 1, world), encode);
    }
  }

  /** Ranks together keep exactly what one process would keep, in source order. */
  lemma KeptByAll<T>(source: seq<T>, encode: T -> Option<SampleBytes>, world: nat)
    requires world > 0
    ensures KeptByRanks(source, encode, world, world) == Kept(source, encode)
  {
    hide RangeStart, RangeEnd;
    KeptByRanksIs(source, encode, world, world);
    RangesPartition(|source|, 0, world);
    assert source[..|source|] == source;
  }

  // ------------------------------------------------------------------ one rank

  lemma NumberedStep(bodies: seq<SampleBytes>, i: nat, limit: int)
    requires i < |bodies|
    ensures WriteAll(Numbered(bodies[..i + 1]), limit)
         == Write(WriteAll(Numbered(bodies[..i]), limit), bodies[i].(sampleId := i), limit)
  {
    hide Write;
    assert Numbered(bodies[..i + 1])[..i] == Numbered(bodies[..i]);
  }

  lemma RangeStep(st: Store, s: SampleBytes, limit: int)
    requires AllInRange(st.index)
    ensures AllInRange(Write(st, s, limit).index) <==> Fits(st, s, limit)
  {
    hide InRange;
    var index := Write(st, s, limit).index;
    assert index[|st.index|] == Place(EnsureShard(st.shards, |Payload(s)|, limit), s);
  }

  lemma {:induction false} IndexPrefix(samples: seq<SampleBytes>, n: nat, limit: int)
    requires n <= |samples|
    ensures WriteAll(samples[..n], limit).index <= WriteAll(samples, limit).index
  {
    hide Place, EnsureShard, AppendLast;
    if n < |samples| {
      IndexPrefix(samples[..|samples| - 1], n, limit);
      assert samples[..|samples| - 1][..n] == samples[..n];
    } else {
      assert samples[..n] == samples;
    }
  }

  /** A record that does not fit stays one. */
  lemma RangeOfPrefix(bodies: seq<SampleBytes>, n: nat, limit: int)
    requires n <= |bodies| && !AllInRange(WriteAll(Numbered(bodies[..n]), limit).index)
    ensures !AllInRange(WriteAll(Numbered(bodies), limit).index)
  {
    hide WriteAll, InRange;
    assert Numbered(bodies[..n]) == Numbered(bodies)[..n];
    IndexPrefix(Numbered(bodies), n, limit);
    var index := WriteAll(Numbered(bodies[..n]), limit).index;
    var k :| 0 <= k < |index| && !InRange(index[k]);
    assert WriteAll(Numbered(bodies), limit).index[k] == index[k];
  }

  /** All records of a list that the format can express fit. */
  lemma ExpressibleFits(samples: seq<SampleBytes>, limit: int)
    requires Expressible(samples)
    ensures AllInRange(WriteAll(samples, limit).index)
  {
    hide WriteAll, Expressible, InRange;
    WriteAllCount(samples, limit);
    forall i | 0 <= i < |samples|
      ensures InRange(WriteAll(samples, limit).index[i])
    {
      RecordsInRange(samples, limit, i);
    }
  }

  /** The samples of one batch, which follow the first `count` kept samples. */
  method WriteBatch(batch: seq<SampleBytes>, ghost all: seq<SampleBytes>, count: nat,
                    writer: LocalCacheWriter) returns (ok: bool)
    requires writer.Valid() && count + |batch| <= |all|
    requires forall i :: 0 <= i < |batch| ==> batch[i] == all[count + i]
    requires writer.store == WriteAll(Numbered(all[..count]), writer.maxShardBytes) && AllInRange(writer.store.index)
    modifies writer
    ensures writer.Valid()
    ensures ok ==> writer.store == WriteAll(Numbered(all[..count + |batch|]), writer.maxShardBytes)
    ensures ok ==> AllInRange(writer.store.index)
    ensures !ok ==> !AllInRange(WriteAll(Numbered(all), writer.maxShardBytes).index)
  {
    hide WriteAll, InRange, Write, Fits, Numbered, LocalCacheWriter.Valid;
    for i := 0 to |batch|
      invariant writer.Valid() && AllInRange(writer.store.index)
      invariant writer.store == WriteAll(Numbered(all[..count + i]), writer.maxShardBytes)
    {
      NumberedStep(all, count + i, writer.maxShardBytes);
      RangeStep(writer.store, batch[i].(sampleId := count + i), writer.maxShardBytes);
      var written := writer.WriteSampleBytes(batch[i].(sampleId := count + i));
      if !written {
        RangeOfPrefix(all, count + i + 1, writer.maxShardBytes);
        return false;
      }
    }
    ok := true;
  }

  /** The batch loop of one rank: batches are collated, empty ones skipped, and every kept sample
      is written.  The files do not depend on the batch size. */
  method PrepareRank<T>(slice: seq<T>, encode: T -> Option<SampleBytes>, batchSize: nat,
                        writer: LocalCacheWriter) returns (ok: bool)
    requires batchSize > 0 && writer.Valid() && writer.store == EMPTY
    modifies writer
    ensures writer.Valid()
    ensures ok ==> writer.store == WriteAll(Numbered(Kept(slice, encode)), writer.maxShardBytes)
    ensures ok <==> AllInRange(WriteAll(Numbered(Kept(slice, encode)), writer.maxShardBytes).index)
    ensures Expressible(Numbered(Kept(slice, encode))) ==> ok
  {
    hide WriteAll, InRange, Expressible, Numbered, LocalCacheWriter.Valid, Kept;
    ghost var all := Kept(slice, encode);
    var pos, count: nat := 0, 0;
    EmptyStart(slice, encode, writer.maxShardBytes);
    if Expressible(Numbered(all)) {
      ExpressibleFits(Numbered(all), writer.maxShardBytes);
    }
    while pos < |slice|
      invariant 0 <= pos <= |slice| && writer.Valid()
      invariant count <= |all| && Kept(slice[..pos], encode) == all[..count]
      invariant writer.store == WriteAll(Numbered(all[..count]), writer.maxShardBytes) && AllInRange(writer.store.index)
    {
      var end := if pos + batchSize < |slice| then pos + batchSize else |slice|;
      var batch := Kept(slice[pos..end], encode);
      BatchOf(slice, encode, pos, end, count);
      if batch != [] {
        var written := WriteBatch(batch, all, count, writer);
        if !written {
          return false;
        }
      }
      pos, count := end, count + |batch|;
    }
    assert slice[..pos] == slice && all[..|all|] == all;
    ok := true;
  }

  lemma EmptyStart<T>(slice: seq<T>, encode: T -> Option<SampleBytes>, limit: int)
    ensures Kept(slice[..0], encode) == Kept(slice, encode)[..0]
    ensures WriteAll(Numbered(Kept(slice, encode)[..0]), limit) == EMPTY
  {}

  lemma BatchOf<T>(slice: seq<T>, encode: T -> Option<SampleBytes>, pos: nat, end: nat, count: nat)
    requires pos <= end <= |slice| && count <= |Kept(slice, encode)|
    requires Kept(slice[..pos], encode) == Kept(slice, encode)[..count]
    ensures var batch := Kept(slice[pos..end], encode);
            && count + |batch| <= |Kept(slice, encode)|
            && Kept(slice[..end], encode) == Kept(slice, encode)[..count + |batch|]
            && forall i :: 0 <= i < |batch| ==> batch[i] == Kept(slice, encode)[count + i]
  {
    hide Kept;
    var batch, all := Kept(slice[pos..end], encode), Kept(slice, encode);
    assert slice[..end] == slice[..pos] + slice[pos..end];
    KeptConcat(slice[..pos], slice[pos..end], encode);
    assert slice == slice[..end] + slice[end..];
    KeptConcat(slice[..end], slice[end..], encode);
    assert all == all[..count] + batch + Kept(slice[end..], encode);
  }

  // ------------------------------------------------------------------ the shard map

  datatype RankSummary = RankSummary(rank: nat, start: nat, end: nat, numSamples: nat, shardFiles: seq<string>)

  datatype ShardEntry = ShardEntry(id: nat, fileName: string)

  function GlobalShardFile(id: nat): string {
    ShardFile("shard-", id)
  }

  /** Local and global shard files carry their id in decimal with at least five digits. */
  lemma ShardNames(id: nat)
    ensures exists digits: string ::
              && AllDigits(digits) && |digits| >= 5 && Number(digits) == id
              && LocalShardFile(id) == "shard-local-" + digits + ".bin"
              && GlobalShardFile(id) == "shard-" + digits + ".bin"
  {
    hide Digits, Padded, Number, AllDigits;
    PaddedIs(id);
    var digits := Padded(Digits(id));
    assert LocalShardFile(id) == "shard-local-" + digits + ".bin" && GlobalShardFile(id) == "shard-" + digits + ".bin";
  }

  /** Stable insertion by the first source sample. */
  function Insert(x: RankSummary, sorted: seq<RankSummary>): seq<RankSummary> {
    if sorted == [] || x.start >= sorted[|sorted| - 1].start then sorted + [x]
    else Insert(x, sorted[..|sorted| - 1]) + [sorted[|sorted| - 1]]
  }

  function SortByStart(summaries: seq<RankSummary>): seq<RankSummary> {
    if summaries == [] then [] else Insert(summaries[|summaries| - 1], SortByStart(summaries[..|summaries| - 1]))
  }

  predicate StartsInOrder(summaries: seq<RankSummary>) {
    forall i :: 0 < i < |summaries| ==> summaries[i - 1].start <= summaries[i].start
  }

  lemma InOrderAppend(sorted: seq<RankSummary>, x: RankSummary)
    requires StartsInOrder(sorted) && (sorted != [] ==> sorted[|sorted| - 1].start <= x.start)
    ensures StartsInOrder(sorted + [x])
  {}

  lemma InOrderPrefix(sorted: seq<RankSummary>)
    requires StartsInOrder(sorted) && sorted != []
    ensures StartsInOrder(sorted[..|sorted| - 1])
    ensures |sorted| > 1 ==> sorted[|sorted| - 2].start <= sorted[|sorted| - 1].start
  {}

  lemma {:induction false} InsertInOrder(x: RankSummary, sorted: seq<RankSummary>)
    requires StartsInOrder(sorted)
    ensures StartsInOrder(Insert(x, sorted))
    ensures Insert(x, sorted) != []
    ensures var last := Insert(x, sorted)[|Insert(x, sorted)| - 1];
            last == x || (sorted != [] && last == sorted[|sorted| - 1])
  {
    hide StartsInOrder;
    if sorted != [] && x.start < sorted[|sorted| - 1].start {
      var n := |sorted| - 1;
      InOrderPrefix(sorted);
      InsertInOrder(x, sorted[..n]);
      InOrderAppend(Insert(x, sorted[..n]), sorted[n]);
    } else {
      InOrderAppend(sorted, x);
    }
  }

  lemma {:induction false} InsertKeepsAll(x: RankSummary, sorted: seq<RankSummary>)
    ensures multiset(Insert(x, sorted)) == multiset(sorted) + multiset{x}
  {
    if sorted != [] && x.start < sorted[|sorted| - 1].start {
      InsertKeepsAll(x, sorted[..|sorted| - 1]);
      assert sorted == sorted[..|sorted| - 1] + [sorted[|sorted| - 1]];
    }
  }

  lemma {:induction false} SortInOrder(summaries: seq<RankSummary>)
    ensures StartsInOrder(SortByStart(summaries))
  {
    hide Insert, StartsInOrder;
    if summaries == [] {
      NothingInOrder();
    } else {
      SortInOrder(summaries[..|summaries| - 1]);
      InsertInOrder(summaries[|summaries| - 1], SortByStart(summaries[..|summaries| - 1]));
    }
  }

  lemma NothingInOrder()
    ensures StartsInOrder([])
  {}

  lemma {:induction false} SortKeepsAll(summaries: seq<RankSummary>)
    ensures multiset(SortByStart(summaries)) == multiset(summaries)
  {
    hide Insert;
    if summaries != [] {
      var n := |summaries| - 1;
      SortKeepsAll(summaries[..n]);
      InsertKeepsAll(summaries[n], SortByStart(summaries[..n]));
      assert summaries == summaries[..n] + [summaries[n]];
    }
  }

  /** The order of the ranks in the merge: by first source sample, none lost or added. */
  lemma SortFacts(summaries: seq<RankSummary>)
    ensures StartsInOrder(SortByStart(summaries)) && multiset(SortByStart(summaries)) == multiset(summaries)
  {
    hide StartsInOrder, SortByStart;
    SortInOrder(summaries);
    SortKeepsAll(summaries);
  }

  lemma {:induction false} SortKeepsOrder(summaries: seq<RankSummary>)
    requires StartsInOrder(summaries)
    ensures SortByStart(summaries) == summaries
  {
    if summaries != [] {
      SortKeepsOrder(summaries[..|summaries| - 1]);
    }
  }

  /** A global shard id belongs to one local shard of one rank. */
  lemma ShardIdUnique(counts: seq<nat>, r: nat, j: nat, r': nat, j': nat)
    requires r < |counts| && r' < |counts| && j < counts[r] && j' < counts[r']
    requires PrefixSum(counts, r) + j == PrefixSum(counts, r') + j'
    ensures r == r' && j == j'
  {
    if r < r' {
      PrefixSumMonotone(counts, r, r');
    } else if r' < r {
      PrefixSumMonotone(counts, r', r);
    }
  }

  function FileCounts(summaries: seq<RankSummary>): seq<nat> {
    seq(|summaries|, i requires 0 <= i < |summaries| => |summaries[i].shardFiles|)
  }

  /** Consecutive ids. */
  function IdsFrom(first: nat, count: nat): seq<nat> {
    seq(count, i requires 0 <= i => first + i)
  }

  function Entries(count: nat): seq<ShardEntry> {
    seq(count, k requires 0 <= k => ShardEntry(k, GlobalShardFile(k)))
  }

  predicate RanksInOrder(summaries: seq<RankSummary>) {
    forall i :: 0 <= i < |summaries| ==> summaries[i].rank == i
  }

  lemma EntriesConcat(first: nat, count: nat, more: seq<ShardEntry>)
    requires |more| == count && forall k :: 0 <= k < count ==>
      more[k] == ShardEntry(first + k, GlobalShardFile(first + k))
    ensures Entries(first) + more == Entries(first + count)
  {
    hide GlobalShardFile;
  }

  /** The inner loop of the shard map: consecutive ids and names for the shards of one rank. */
  method NumberShards(first: nat, count: nat) returns (localMap: seq<nat>, entries: seq<ShardEntry>)
    ensures localMap == IdsFrom(first, count)
    ensures |entries| == count && forall k :: 0 <= k < count ==>
      entries[k] == ShardEntry(first + k, GlobalShardFile(first + k))
  {
    hide GlobalShardFile;
    localMap, entries := [], [];
    var nextShardId := first;
    while nextShardId < first + count
      invariant first <= nextShardId <= first + count && |localMap| == |entries| == nextShardId - first
      invariant forall k :: 0 <= k < |localMap| ==> localMap[k] == first + k
      invariant forall k :: 0 <= k < |entries| ==> entries[k] == ShardEntry(first + k, GlobalShardFile(first + k))
    {
      localMap := localMap + [nextShardId];
      entries := entries + [ShardEntry(nextShardId, GlobalShardFile(nextShardId))];
      nextShardId := nextShardId + 1;
    }
  }

  /** The local map of rank r gives its shards the ids that follow those of the ranks before it. */
  ghost predicate MapsShards(shardMap: map<nat, seq<nat>>, counts: seq<nat>, n: nat)
    requires n <= |counts|
  {
    forall r :: 0 <= r < n ==> r in shardMap && shardMap[r] == IdsFrom(PrefixSum(counts, r), counts[r])
  }

  /** The summary is the last one of its rank among the first n. */
  predicate LastOfRank(sorted: seq<RankSummary>, i: nat, n: nat)
    requires i < n <= |sorted|
  {
    forall j :: i < j < n ==> sorted[j].rank != sorted[i].rank
  }

  /** The shards of each summary, in the given order, have consecutive ids. */
  ghost predicate MapsSorted(shardMap: map<nat, seq<nat>>, sorted: seq<RankSummary>, n: nat)
    requires n <= |sorted|
  {
    forall i :: 0 <= i < n && LastOfRank(sorted, i, n) ==>
      && sorted[i].rank in shardMap
      && shardMap[sorted[i].rank] == IdsFrom(PrefixSum(FileCounts(sorted), i), |sorted[i].shardFiles|)
  }

  lemma MapsOneMore(shardMap: map<nat, seq<nat>>, sorted: seq<RankSummary>, n: nat, localMap: seq<nat>)
    requires n < |sorted| && MapsSorted(shardMap, sorted, n)
    requires localMap == IdsFrom(PrefixSum(FileCounts(sorted), n), |sorted[n].shardFiles|)
    ensures MapsSorted(shardMap[sorted[n].rank := localMap], sorted, n + 1)
  {
    hide IdsFrom, PrefixSum;
    forall i | 0 <= i < n && LastOfRank(sorted, i, n + 1)
      ensures LastOfRank(sorted, i, n) && sorted[i].rank != sorted[n].rank
    {}
  }

  /** build_global_target_cache_shard_map, for summaries in any order. */
  method BuildShardMap(summaries: seq<RankSummary>) returns (shardMap: map<nat, seq<nat>>, shards: seq<ShardEntry>)
    ensures MapsSorted(shardMap, SortByStart(summaries), |SortByStart(summaries)|)
    ensures shards == Entries(PrefixSum(FileCounts(SortByStart(summaries)), |SortByStart(summaries)|))
  {
    hide GlobalShardFile, IdsFrom, Entries, SortByStart, MapsSorted, PrefixSum;
    var sorted := SortByStart(summaries);
    ghost var counts := FileCounts(sorted);
    shardMap, shards := map[], [];
    var nextShardId := 0;
    NoEntries();
    NoRanks(shardMap, sorted);
    for i := 0 to |sorted|
      invariant nextShardId == PrefixSum(counts, i) && shards == Entries(nextShardId)
      invariant MapsSorted(shardMap, sorted, i)
    {
      var localMap, entries := NumberShards(nextShardId, |sorted[i].shardFiles|);
      EntriesConcat(nextShardId, |sorted[i].shardFiles|, entries);
      MapsOneMore(shardMap, sorted, i, localMap);
      PrefixSumStep(counts, i);
      shardMap := shardMap[sorted[i].rank := localMap];
      shards := shards + entries;
      nextShardId := nextShardId + |sorted[i].shardFiles|;
    }
  }

  lemma NoRanks(shardMap: map<nat, seq<nat>>, sorted: seq<RankSummary>)
    ensures MapsSorted(shardMap, sorted, 0) && PrefixSum(FileCounts(sorted), 0) == 0
  {}

  /** For the summaries of a build, which come in rank order, every rank has its map. */
  lemma MapsAllRanks(shardMap: map<nat, seq<nat>>, summaries: seq<RankSummary>)
    requires RanksInOrder(summaries) && MapsSorted(shardMap, summaries, |summaries|)
    ensures MapsShards(shardMap, FileCounts(summaries), |summaries|)
  {
    hide IdsFrom, PrefixSum;
    forall r | 0 <= r < |summaries|
      ensures r in shardMap && shardMap[r] == IdsFrom(PrefixSum(FileCounts(summaries), r), |summaries[r].shardFiles|)
    {
      assert LastOfRank(summaries, r, |summaries|);
      assert summaries[r].rank == r;
    }
  }

  lemma NoEntries()
    ensures Entries(0) == []
  {}

  // ------------------------------------------------------------------ renaming

  datatype Path = RankFile(rank: nat, name: string) | Final(name: string)

  type FileSystem = map<Path, seq<Byte>>

  function ShardCounts(stores: seq<Store>): seq<nat> {
    seq(|stores|, r requires 0 <= r < |stores| => |stores[r].shards|)
  }

  function Target(stores: seq<Store>, r: nat, j: nat): Path
    requires r < |stores|
  {
    Final(GlobalShardFile(PrefixSum(ShardCounts(stores), r) + j))
  }

  /** The files after the write phase: each rank's shards and local index, and nothing final. */
  ghost predicate Prepared(fs: FileSystem, stores: seq<Store>) {
    && (forall r, j :: 0 <= r < |stores| && 0 <= j < |stores[r].shards| ==>
          RankFile(r, LocalShardFile(j)) in fs && fs[RankFile(r, LocalShardFile(j))] == stores[r].shards[j])
    && (forall r :: 0 <= r < |stores| ==>
          RankFile(r, INDEX_FILE) in fs && fs[RankFile(r, INDEX_FILE)] == IndexBytes(stores[r].index))
    && (forall name :: Final(name) !in fs)
  }

  /** How many of its shards each rank has renamed. */
  datatype RenameState = RenameState(fs: FileSystem, done: seq<nat>)

  ghost predicate RenameInit(s: RenameState, stores: seq<Store>) {
    Prepared(s.fs, stores) && |s.done| == |stores| && forall r :: 0 <= r < |stores| ==> s.done[r] == 0
  }

  /** Rank r renames its next shard. */
  ghost predicate RenameStep(s: RenameState, t: RenameState, stores: seq<Store>, r: nat) {
    && r < |stores| == |s.done| && s.done[r] < |stores[r].shards|
    && var source := RankFile(r, LocalShardFile(s.done[r]));
       source in s.fs
       && t == RenameState((s.fs - {source})[Target(stores, r, s.done[r]) := s.fs[source]], s.done[r := s.done[r] + 1])
  }

  ghost predicate RenameNext(s: RenameState, t: RenameState, stores: seq<Store>) {
    exists r: nat :: RenameStep(s, t, stores, r)
  }

  ghost predicate IsRenaming(run: seq<RenameState>, stores: seq<Store>) {
    && |run| > 0 && RenameInit(run[0], stores)
    && forall i :: 0 < i < |run| ==> RenameNext(run[i - 1], run[i], stores)
  }

  /** Renamed shards are at their targets, the others still at their sources, and the targets of
      those do not exist yet. */
  ghost predicate RenameInv(s: RenameState, stores: seq<Store>) {
    && |s.done| == |stores|
    && (forall r :: 0 <= r < |stores| ==> s.done[r] <= |stores[r].shards|)
    && (forall r, j :: 0 <= r < |stores| && 0 <= j < |stores[r].shards| ==>
          if j < s.done[r] then Target(stores, r, j) in s.fs && s.fs[Target(stores, r, j)] == stores[r].shards[j]
          else RankFile(r, LocalShardFile(j)) in s.fs && s.fs[RankFile(r, LocalShardFile(j))] == stores[r].shards[j]
               && Target(stores, r, j) !in s.fs)
    && (forall r :: 0 <= r < |stores| ==>
          RankFile(r, INDEX_FILE) in s.fs && s.fs[RankFile(r, INDEX_FILE)] == IndexBytes(stores[r].index))
  }

  lemma TargetUnique(stores: seq<Store>, r: nat, j: nat, r': nat, j': nat)
    requires r < |stores| && r' < |stores| && j < |stores[r].shards| && j' < |stores[r'].shards|
    requires Target(stores, r, j) == Target(stores, r', j')
    ensures r == r' && j == j'
  {
    hide Digits, Padded;
    var counts := ShardCounts(stores);
    ShardFileInjective("shard-", PrefixSum(counts, r) + j, PrefixSum(counts, r') + j');
    ShardIdUnique(counts, r, j, r', j');
  }

  /** A rename keeps the invariant, and its target did not exist. */
  lemma RenameKeepsInv(s: RenameState, t: RenameState, stores: seq<Store>, r: nat)
    requires RenameInv(s, stores) && RenameStep(s, t, stores, r)
    ensures RenameInv(t, stores)
    ensures Target(stores, r, s.done[r]) !in s.fs
  {
    hide Target, LocalShardFile, IndexBytes;
    var k := s.done[r];
    NamesDistinct();
    forall r', j' | 0 <= r' < |stores| && 0 <= j' < |stores[r'].shards| && (r' != r || j' != k)
      ensures Target(stores, r', j') != Target(stores, r, k)
    {
      if Target(stores, r', j') == Target(stores, r, k) {
        TargetUnique(stores, r', j', r, k);
      }
    }
    forall r', j' | 0 <= r' < |stores| && 0 <= j' < |stores[r'].shards| {
      TargetIsFinal(stores, r', j');
    }
  }

  lemma TargetIsFinal(stores: seq<Store>, r: nat, j: nat)
    requires r < |stores|
    ensures Target(stores, r, j).Final?
  {}

  lemma {:induction false} RenamingInv(run: seq<RenameState>, stores: seq<Store>, i: nat)
    requires IsRenaming(run, stores) && i < |run|
    ensures RenameInv(run[i], stores)
  {
    hide RenameInv, RenameStep, RenameInit;
    if i == 0 {
      RenameInitInv(run[0], stores);
    } else {
      RenamingInv(run, stores, i - 1);
      var r: nat :| RenameStep(run[i - 1], run[i], stores, r);
      RenameKeepsInv(run[i - 1], run[i], stores, r);
    }
  }

  lemma RenameInitInv(s: RenameState, stores: seq<Store>)
    requires RenameInit(s, stores)
    ensures RenameInv(s, stores)
  {
    hide IndexBytes, GlobalShardFile, LocalShardFile;
  }

  /** Until every rank is done, some rank can rename its next shard: the barrier is reached. */
  lemma RenamingProgresses(run: seq<RenameState>, stores: seq<Store>, i: nat)
    requires IsRenaming(run, stores) && i < |run| && !AllRenamed(run[i], stores)
    ensures exists t :: RenameNext(run[i], t, stores)
  {
    hide IsRenaming, Target, LocalShardFile, IndexBytes;
    RenamingInv(run, stores, i);
    var s := run[i];
    var r :| 0 <= r < |stores| && s.done[r] != |stores[r].shards|;
    var source := RankFile(r, LocalShardFile(s.done[r]));
    var t := RenameState((s.fs - {source})[Target(stores, r, s.done[r]) := s.fs[source]], s.done[r := s.done[r] + 1]);
    assert RenameStep(s, t, stores, r);
    assert RenameNext(s, t, stores);
  }

  /** The shards still to be renamed. */
  function Unrenamed(s: RenameState, stores: seq<Store>, n: nat): int
    requires n <= |stores| && n <= |s.done|
  {
    if n == 0 then 0 else Unrenamed(s, stores, n - 1) + |stores[n - 1].shards| - s.done[n - 1]
  }

  lemma {:induction false} UnrenamedStep(s: RenameState, t: RenameState, stores: seq<Store>, r: nat, n: nat)
    requires r < |stores| == |s.done| && n <= |stores| && t.done == s.done[r := s.done[r] + 1]
    ensures Unrenamed(t, stores, n) == Unrenamed(s, stores, n) - if r < n then 1 else 0
  {
    if n > 0 {
      UnrenamedStep(s, t, stores, r, n - 1);
    }
  }

  /** Every rename leaves one shard less to rename. */
  lemma RenamingTerminates(s: RenameState, t: RenameState, stores: seq<Store>)
    requires |s.done| == |stores| && RenameNext(s, t, stores)
    ensures |t.done| == |stores| && Unrenamed(t, stores, |stores|) == Unrenamed(s, stores, |stores|) - 1
  {
    hide Target, LocalShardFile, Unrenamed;
    var r: nat :| RenameStep(s, t, stores, r);
    UnrenamedStep(s, t, stores, r, |stores|);
  }

  /** No rename of any interleaving overwrites an existing file. */
  lemma NothingOverwritten(run: seq<RenameState>, stores: seq<Store>, i: nat, r: nat)
    requires IsRenaming(run, stores) && i + 1 < |run| && RenameStep(run[i], run[i + 1], stores, r)
    ensures Target(stores, r, run[i].done[r]) !in run[i].fs
  {
    hide RenameInv, IsRenaming, RenameStep;
    RenamingInv(run, stores, i);
    RenameKeepsInv(run[i], run[i + 1], stores, r);
  }

  /** The barrier after renaming: every rank has renamed all of its shards. */
  predicate AllRenamed(s: RenameState, stores: seq<Store>) {
    |s.done| == |stores| && forall r :: 0 <= r < |stores| ==> s.done[r] == |stores[r].shards|
  }

  /** After the barrier, whatever the interleaving, every shard is under its global name. */
  lemma RenamingResult(run: seq<RenameState>, stores: seq<Store>, r: nat, j: nat)
    requires IsRenaming(run, stores) && AllRenamed(run[|run| - 1], stores)
    requires r < |stores| && j < |stores[r].shards|
    ensures Target(stores, r, j) in run[|run| - 1].fs && run[|run| - 1].fs[Target(stores, r, j)] == stores[r].shards[j]
  {
    hide IsRenaming, Target, LocalShardFile, IndexBytes;
    assert |run| > 0 by { RunIsNotEmpty(run, stores); }
    RenamingInv(run, stores, |run| - 1);
  }

  lemma RunIsNotEmpty(run: seq<RenameState>, stores: seq<Store>)
    requires IsRenaming(run, stores)
    ensures |run| > 0
  {}

  // ------------------------------------------------------------------ the protocol can run

  /** The directory of rank r: its index and its first n shards. */
  function RankFiles(store: Store, r: nat, n: nat): FileSystem
    requires n <= |store.shards|
  {
    if n == 0 then map[RankFile(r, INDEX_FILE) := IndexBytes(store.index)]
    else RankFiles(store, r, n - 1)[RankFile(r, LocalShardFile(n - 1)) := store.shards[n - 1]]
  }

  lemma {:induction false} RankFilesAre(store: Store, r: nat, n: nat)
    requires n <= |store.shards|
    ensures forall p :: p in RankFiles(store, r, n) ==> p.RankFile? && p.rank == r
    ensures RankFile(r, INDEX_FILE) in RankFiles(store, r, n)
    ensures RankFiles(store, r, n)[RankFile(r, INDEX_FILE)] == IndexBytes(store.index)
    ensures forall j :: 0 <= j < n ==>
              RankFile(r, LocalShardFile(j)) in RankFiles(store, r, n)
              && RankFiles(store, r, n)[RankFile(r, LocalShardFile(j))] == store.shards[j]
  {
    hide LocalShardFile, IndexBytes;
    NamesDistinct();
    if n > 0 {
      RankFilesAre(store, r, n - 1);
    }
  }

  /** The directories of the first n ranks. */
  function WrittenFiles(stores: seq<Store>, n: nat): FileSystem
    requires n <= |stores|
  {
    if n == 0 then map[] else WrittenFiles(stores, n - 1) + RankFiles(stores[n - 1], n - 1, |stores[n - 1].shards|)
  }

  lemma {:induction false} WrittenRanks(stores: seq<Store>, n: nat, p: Path)
    requires n <= |stores| && p in WrittenFiles(stores, n)
    ensures p.RankFile? && p.rank < n
  {
    hide RankFiles;
    if n > 0 {
      RankFilesAre(stores[n - 1], n - 1, |stores[n - 1].shards|);
      if p in WrittenFiles(stores, n - 1) {
        WrittenRanks(stores, n - 1, p);
      }
    }
  }

  lemma {:induction false} WrittenFile(stores: seq<Store>, n: nat, r: nat, p: Path)
    requires r < n <= |stores| && p in RankFiles(stores[r], r, |stores[r].shards|)
    ensures p in WrittenFiles(stores, n)
    ensures WrittenFiles(stores, n)[p] == RankFiles(stores[r], r, |stores[r].shards|)[p]
  {
    hide RankFiles;
    if r < n - 1 {
      WrittenFile(stores, n - 1, r, p);
      RankFilesAre(stores[r], r, |stores[r].shards|);
      RankFilesAre(stores[n - 1], n - 1, |stores[n - 1].shards|);
    }
  }

  lemma WrittenIsPrepared(stores: seq<Store>)
    ensures Prepared(WrittenFiles(stores, |stores|), stores)
  {
    hide LocalShardFile, IndexBytes, RankFiles, WrittenFiles;
    var fs := WrittenFiles(stores, |stores|);
    forall r, j | 0 <= r < |stores| && 0 <= j < |stores[r].shards|
      ensures RankFile(r, LocalShardFile(j)) in fs && fs[RankFile(r, LocalShardFile(j))] == stores[r].shards[j]
    {
      RankFilesAre(stores[r], r, |stores[r].shards|);
      WrittenFile(stores, |stores|, r, RankFile(r, LocalShardFile(j)));
    }
    forall r | 0 <= r < |stores|
      ensures RankFile(r, INDEX_FILE) in fs && fs[RankFile(r, INDEX_FILE)] == IndexBytes(stores[r].index)
    {
      RankFilesAre(stores[r], r, |stores[r].shards|);
      WrittenFile(stores, |stores|, r, RankFile(r, INDEX_FILE));
    }
    forall name
      ensures Final(name) !in fs
    {
      if Final(name) in fs {
        WrittenRanks(stores, |stores|, Final(name));
      }
    }
  }

  lemma {:induction false} UnrenamedIsNat(s: RenameState, stores: seq<Store>, n: nat)
    requires n <= |stores| == |s.done| && forall r :: 0 <= r < |stores| ==> s.done[r] <= |stores[r].shards|
    ensures Unrenamed(s, stores, n) >= 0
  {
    if n > 0 {
      UnrenamedIsNat(s, stores, n - 1);
    }
  }

  lemma DoneIsBounded(run: seq<RenameState>, stores: seq<Store>)
    requires IsRenaming(run, stores)
    ensures |run| > 0 && |run[|run| - 1].done| == |stores| && Unrenamed(run[|run| - 1], stores, |stores|) >= 0
  {
    hide Target, LocalShardFile, IndexBytes, Unrenamed;
    RenamingInv(run, stores, |run| - 1);
    UnrenamedIsNat(run[|run| - 1], stores, |stores|);
  }

  /** Every renaming that has begun can be completed. */
  lemma {:induction false} FinishRenaming(run: seq<RenameState>, stores: seq<Store>,
                                          left: nat) returns (done: seq<RenameState>)
    requires IsRenaming(run, stores) && |run| > 0 && |run[|run| - 1].done| == |stores|
    requires left == Unrenamed(run[|run| - 1], stores, |stores|)
    ensures IsRenaming(done, stores) && |done| > 0 && AllRenamed(done[|done| - 1], stores)
    decreases left
  {
    hide RenameNext, RenameInit, Unrenamed, AllRenamed;
    done := run;
    if !AllRenamed(run[|run| - 1], stores) {
      RenamingProgresses(run, stores, |run| - 1);
      var t :| RenameNext(run[|run| - 1], t, stores);
      RenamingTerminates(run[|run| - 1], t, stores);
      var longer := run + [t];
      DoneIsBounded(longer, stores);
      done := FinishRenaming(longer, stores, left - 1);
    }
  }

  /** Whatever the ranks have written, the renames can run to the barrier. */
  lemma RenamingExists(stores: seq<Store>) returns (run: seq<RenameState>)
    ensures IsRenaming(run, stores) && |run| > 0 && AllRenamed(run[|run| - 1], stores)
  {
    hide Prepared, Unrenamed, AllRenamed, RenameNext;
    WrittenIsPrepared(stores);
    var s := RenameState(WrittenFiles(stores, |stores|), seq(|stores|, r => 0));
    run := [s];
    DoneIsBounded(run, stores);
    run := FinishRenaming(run, stores, Unrenamed(s, stores, |stores|));
  }
}
