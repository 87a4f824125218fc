/** Merging the local indexes, the manifest, and the correctness of the finished cache. */
module CacheIndex {
  import opened Options
  import opened Arith
  import opened IndexFormat
  import opened CacheWriter
  import opened CacheBuild

  // ------------------------------------------------------------------ the merged index

  /** The records of one rank with global sample and shard ids. */
  function Relabel(index: seq<Record>, firstSample: nat, firstShard: nat): (r: seq<Record>)
    ensures |r| == |index|
  {
    seq(|index|, i requires 0 <= i < |index| =>
                   index[i].(sampleId := firstSample + i, shardId := firstShard + index[i].shardId))
  }

  /** The merged records of the first n ranks. */
  function Merged(stores: seq<Store>, n: nat): seq<Record>
    requires n <= |stores|
  {
    if n == 0 then []
    else
      var before := Merged(stores, n - 1);
      before + Relabel(stores[n - 1].index, |before|, PrefixSum(ShardCounts(stores), n - 1))
  }

  lemma {:induction false} MergedPrefix(stores: seq<Store>, m: nat, n: nat)
    requires m <= n <= |stores|
    ensures Merged(stores, m) <= Merged(stores, n)
  {
    hide Relabel;
    if m < n {
      MergedPrefix(stores, m, n - 1);
    }
  }

  /** The record of the j-th local sample of rank r. */
  lemma MergedAt(stores: seq<Store>, n: nat, r: nat, j: nat)
    requires r < n <= |stores| && j < |stores[r].index|
    ensures |Merged(stores, r)| + j < |Merged(stores, n)|
    ensures Merged(stores, n)[|Merged(stores, r)| + j]
         == Relabel(stores[r].index, |Merged(stores, r)|, PrefixSum(ShardCounts(stores), r))[j]
  {
    hide Relabel, PrefixSum;
    MergedPrefix(stores, r + 1, n);
    assert Merged(stores, r + 1)[|Merged(stores, r)| + j]
        == Relabel(stores[r].index, |Merged(stores, r)|, PrefixSum(ShardCounts(stores), r))[j];
  }

  /** Which rank a global sample id comes from. */
  lemma {:induction false} Locate(stores: seq<Store>, n: nat, i: nat) returns (r: nat, j: nat)
    requires n <= |stores| && i < |Merged(stores, n)|
    ensures r < n && j < |stores[r].index| && i == |Merged(stores, r)| + j
  {
    hide Relabel;
    if i < |Merged(stores, n - 1)| {
      r, j := Locate(stores, n - 1, i);
    } else {
      r, j := n - 1, i - |Merged(stores, n - 1)|;
    }
  }

  /** Sample ids of the merged index are dense. */
  lemma MergedIsDense(stores: seq<Store>, i: nat)
    requires i < |Merged(stores, |stores|)|
    ensures Merged(stores, |stores|)[i].sampleId == i
  {
    var r, j := Locate(stores, |stores|, i);
    MergedAt(stores, |stores|, r, j);
  }

  // ------------------------------------------------------------------ finalize_target_cache_index

  /** The records of an index file of any content; only the size must fit. */
  function ParseIndex(bytes: seq<Byte>): (records: seq<Record>)
    requires |bytes| % RECORD_SIZE == 0
    ensures |records| * RECORD_SIZE == |bytes|
  {
    if bytes == [] then []
    else
      var n := |bytes| - RECORD_SIZE;
      ParseIndex(bytes[..n]) + [UnpackRecord(bytes, n).value]
  }

  /** Every file of a fitting size is the index of some records, and each of them fits. */
  lemma {:induction false} ParseIsInverse(bytes: seq<Byte>)
    requires |bytes| % RECORD_SIZE == 0
    ensures IndexBytes(ParseIndex(bytes)) == bytes && AllInRange(ParseIndex(bytes))
  {
    hide InRange, UnpackRecord, RecordBytes, IndexBytes;
    if bytes == [] {
      EmptyIndex();
    } else {
      var n := |bytes| - RECORD_SIZE;
      ParseIsInverse(bytes[..n]);
      var record := LastRecord(bytes);
      IndexAppend(ParseIndex(bytes[..n]), record);
      assert bytes == bytes[..n] + bytes[n..];
    }
  }

  lemma LastRecord(bytes: seq<Byte>) returns (record: Record)
    requires |bytes| >= RECORD_SIZE
    ensures UnpackRecord(bytes, |bytes| - RECORD_SIZE) == Some(record)
    ensures InRange(record) && RecordBytes(record) == bytes[|bytes| - RECORD_SIZE..]
  {
    hide InRange, RecordBytes, Decode;
    record := UnpackRecord(bytes, |bytes| - RECORD_SIZE).value;
    PackUnpacked(bytes, |bytes| - RECORD_SIZE);
    assert bytes[|bytes| - RECORD_SIZE..|bytes|] == bytes[|bytes| - RECORD_SIZE..];
  }

  lemma ParseOfIndex(records: seq<Record>)
    requires AllInRange(records)
    ensures |IndexBytes(records)| % RECORD_SIZE == 0 && ParseIndex(IndexBytes(records)) == records
  {
    hide InRange, UnpackRecord, IndexBytes, ParseIndex;
    IndexLength(records);
    var parsed := ParseIndex(IndexBytes(records));
    ParseIsInverse(IndexBytes(records));
    forall i | 0 <= i < |records|
      ensures parsed[i] == records[i]
    {
      IndexAt(records, i);
      IndexAt(parsed, i);
    }
  }

  /** The new record of a local sample. */
  function Renumber(record: Record, sampleId: nat, localMap: seq<nat>): Record
    requires record.shardId < |localMap|
  {
    record.(sampleId := sampleId, shardId := localMap[record.shardId])
  }

  /** No assertion, lookup or packing of the merge fails on record i. */
  predicate Passes(record: Record, i: nat, firstSample: nat, localMap: seq<nat>) {
    record.sampleId == i && record.shardId < |localMap| && InRange(Renumber(record, firstSample + i, localMap))
  }

  predicate AllPass(index: seq<Record>, firstSample: nat, localMap: seq<nat>) {
    forall i :: 0 <= i < |index| ==> Passes(index[i], i, firstSample, localMap)
  }

  function RenumberAll(index: seq<Record>, firstSample: nat, localMap: seq<nat>): (r: seq<Record>)
    requires AllPass(index, firstSample, localMap)
    ensures |r| == |index|
  {
    seq(|index|, i requires 0 <= i < |index| && Passes(index[i], i, firstSample, localMap) =>
                   Renumber(index[i], firstSample + i, localMap))
  }

  /** The record loop over the bytes of one local index: the ids are checked, replaced, and packed
      again. */
  method MergeRank(localBytes: seq<Byte>, localMap: seq<nat>, firstSample: nat) returns (r: Option<seq<Byte>>)
    ensures r.Some? <==> |localBytes| % RECORD_SIZE == 0 && AllPass(ParseIndex(localBytes), firstSample, localMap)
    ensures r.Some? ==> r.value == IndexBytes(RenumberAll(ParseIndex(localBytes), firstSample, localMap))
  {
    hide InRange, IndexBytes, UnpackRecord, RecordBytes, ParseIndex;
    if |localBytes| % RECORD_SIZE != 0 {
      return None;
    }
    ghost var index := ParseIndex(localBytes);
    ParseIsInverse(localBytes);
    EmptyIndex();
    var out: seq<Byte> := [];
    var offset, local: nat := 0, 0;
    assert RenumberAll(index[..0], firstSample, localMap) == [];
    while offset < |localBytes|
      invariant offset == RECORD_SIZE * local && local <= |index|
      invariant AllPass(index[..local], firstSample, localMap)
      invariant out == IndexBytes(RenumberAll(index[..local], firstSample, localMap))
    {
      IndexAt(index, local);
      var record := UnpackRecord(localBytes, offset).value;
      assert record == index[local];
      if record.sampleId != local || record.shardId >= |localMap| {
        return None;
      }
      var merged := Renumber(record, firstSample + local, localMap);
      var packed := PackRecord(merged);
      if packed.None? {
        return None;
      }
      OneMoreRecord(index, local, firstSample, localMap);
      out := out + packed.value;
      local := local + 1;
      offset := offset + RECORD_SIZE;
    }
    assert index[..local] == index;
    r := Some(out);
  }

  lemma OneMoreRecord(index: seq<Record>, n: nat, firstSample: nat, localMap: seq<nat>)
    requires n < |index| && AllPass(index[..n], firstSample, localMap) && Passes(index[n], n, firstSample, localMap)
    ensures AllPass(index[..n + 1], firstSample, localMap)
    ensures IndexBytes(RenumberAll(index[..n + 1], firstSample, localMap))
         == IndexBytes(RenumberAll(index[..n], firstSample, localMap))
         + RecordBytes(Renumber(index[n], firstSample + n, localMap))
  {
    hide InRange, IndexBytes, RecordBytes;
    assert forall i :: 0 <= i < n ==> index[..n][i] == index[i];
    assert AllPass(index[..n + 1], firstSample, localMap);
    assert RenumberAll(index[..n + 1], firstSample, localMap)
        == RenumberAll(index[..n], firstSample, localMap) + [Renumber(index[n], firstSample + n, localMap)];
    IndexAppend(RenumberAll(index[..n], firstSample, localMap), Renumber(index[n], firstSample + n, localMap));
  }

  lemma EmptyIndex()
    ensures IndexBytes([]) == []
  {}

  lemma {:induction false} IndexConcat(a: seq<Record>, b: seq<Record>)
    ensures IndexBytes(a + b) == IndexBytes(a) + IndexBytes(b)
  {
    hide RecordBytes;
    if b == [] {
      assert a + b == a;
    } else {
      var n := |b| - 1;
      assert (a + b)[..|a + b| - 1] == a + b[..n];
      IndexConcat(a, b[..n]);
    }
  }

  /** The local index of a rank exists, and no check of the merge fails on it. */
  predicate RankPasses(fs: FileSystem, shardMap: map<nat, seq<nat>>, rank: nat, firstSample: nat) {
    && RankFile(rank, INDEX_FILE) in fs && |fs[RankFile(rank, INDEX_FILE)]| % RECORD_SIZE == 0
    && rank in shardMap && AllPass(ParseIndex(fs[RankFile(rank, INDEX_FILE)]), firstSample, shardMap[rank])
  }

  /** The records of the first n ranks in merge order, or nothing when some check fails. */
  function MergedFrom(fs: FileSystem, sorted: seq<RankSummary>, shardMap: map<nat, seq<nat>>,
                      n: nat): Option<seq<Record>>
    requires n <= |sorted|
  {
    if n == 0 then Some([])
    else
      var before, rank := MergedFrom(fs, sorted, shardMap, n - 1), sorted[n - 1].rank;
      if before.None? || !RankPasses(fs, shardMap, rank, |before.value|) then None
      else Some(before.value + RenumberAll(ParseIndex(fs[RankFile(rank, INDEX_FILE)]), |before.value|, shardMap[rank]))
  }

  /** finalize_target_cache_index, on any files and summaries: the bytes of samples.idx and the
      number of samples, or nothing when a check fails. */
  method FinalizeIndex(fs: FileSystem, summaries: seq<RankSummary>, shardMap: map<nat, seq<nat>>)
    returns (r: Option<seq<Byte>>, count: nat)
    ensures var merged := MergedFrom(fs, SortByStart(summaries), shardMap, |SortByStart(summaries)|);
            && (r.Some? <==> merged.Some?)
            && (r.Some? ==> r.value == IndexBytes(merged.value) && count == |merged.value|)
  {
    hide IndexBytes, SortByStart, AllPass, ParseIndex, RenumberAll;
    var sorted := SortByStart(summaries);
    EmptyIndex();
    r, count := Some([]), 0;
    for k := 0 to |sorted|
      invariant MergedFrom(fs, sorted, shardMap, k).Some? && r.Some?
      invariant r.value == IndexBytes(MergedFrom(fs, sorted, shardMap, k).value)
        && count == |MergedFrom(fs, sorted, shardMap, k).value|
    {
      var rank := sorted[k].rank;
      MergedFails(fs, sorted, shardMap, k + 1);
      if RankFile(rank, INDEX_FILE) !in fs || rank !in shardMap {
        return None, 0;
      }
      var merged := MergeRank(fs[RankFile(rank, INDEX_FILE)], shardMap[rank], count);
      if merged.None? {
        return None, 0;
      }
      ghost var records := RenumberAll(ParseIndex(fs[RankFile(rank, INDEX_FILE)]), count, shardMap[rank]);
      IndexConcat(MergedFrom(fs, sorted, shardMap, k).value, records);
      IndexLength(records);
      r, count := Some(r.value + merged.value), count + |merged.value| / RECORD_SIZE;
    }
  }

  lemma {:induction false} MergedFails(fs: FileSystem, sorted: seq<RankSummary>, shardMap: map<nat, seq<nat>>, k: nat)
    requires k <= |sorted|
    ensures MergedFrom(fs, sorted, shardMap, k).None? ==> MergedFrom(fs, sorted, shardMap, |sorted|).None?
    decreases |sorted| - k
  {
    hide RankPasses;
    if k < |sorted| {
      MergedFails(fs, sorted, shardMap, k + 1);
    }
  }

  // ------------------------------------------------------------------ the merge of a build

  /** What the write phase leaves for the merge. */
  ghost predicate Mergeable(store: Store) {
    forall i :: 0 <= i < |store.index| ==>
      InRange(store.index[i]) && store.index[i].sampleId == i && store.index[i].shardId < |store.shards|
  }

  /** On the index of one rank of a build only the width of the new ids can make the merge fail. */
  lemma RankOfBuild(store: Store, firstSample: nat, firstShard: nat)
    requires Mergeable(store)
    ensures AllInRange(store.index)
    ensures AllPass(store.index, firstSample, IdsFrom(firstShard, |store.shards|))
       <==> AllInRange(Relabel(store.index, firstSample, firstShard))
    ensures AllPass(store.index, firstSample, IdsFrom(firstShard, |store.shards|)) ==>
              RenumberAll(store.index, firstSample, IdsFrom(firstShard, |store.shards|))
              == Relabel(store.index, firstSample, firstShard)
  {
    hide InRange;
    var localMap := IdsFrom(firstShard, |store.shards|);
    forall i | 0 <= i < |store.index|
      ensures Renumber(store.index[i], firstSample + i, localMap) == Relabel(store.index, firstSample, firstShard)[i]
    {}
  }

  /** The files, summaries and shard map of a build: the assertions on size and order never fail,
      and the merge yields the merged index unless an id is too wide for the format. */
  lemma {:induction false} MergeOfBuild(fs: FileSystem, summaries: seq<RankSummary>, shardMap: map<nat, seq<nat>>,
                                        stores: seq<Store>, n: nat)
    requires RanksInOrder(summaries) && n <= |summaries| == |stores|
    requires MapsShards(shardMap, ShardCounts(stores), |stores|)
    requires forall k :: 0 <= k < |stores| ==> Mergeable(stores[k])
    requires forall k :: 0 <= k < |stores| ==>
      RankFile(k, INDEX_FILE) in fs && fs[RankFile(k, INDEX_FILE)] == IndexBytes(stores[k].index)
    ensures MergedFrom(fs, summaries, shardMap, n)
         == if AllInRange(Merged(stores, n)) then Some(Merged(stores, n)) else None
  {
    hide InRange, IndexBytes, IdsFrom, Relabel, PrefixSum, Mergeable, AllPass, ParseIndex, RenumberAll;
    if n > 0 {
      var before, base := Merged(stores, n - 1), PrefixSum(ShardCounts(stores), n - 1);
      MergeOfBuild(fs, summaries, shardMap, stores, n - 1);
      RankOfBuild(stores[n - 1], |before|, base);
      ParseOfIndex(stores[n - 1].index);
      RangeOfConcat(before, Relabel(stores[n - 1].index, |before|, base));
    }
  }

  lemma RangeOfConcat(a: seq<Record>, b: seq<Record>)
    ensures AllInRange(a + b) <==> AllInRange(a) && AllInRange(b)
  {
    hide InRange;
    if AllInRange(a + b) {
      assert forall i :: 0 <= i < |a| ==> (a + b)[i] == a[i];
      assert forall i :: 0 <= i < |b| ==> (a + b)[|a| + i] == b[i];
    }
  }

  // ------------------------------------------------------------------ the stores of a build

  /** What each rank has written. */
  function RankStores<T>(source: seq<T>, encode: T -> Option<SampleBytes>, world: nat, limit: int): seq<Store> {
    seq(world, r requires 0 <= r < world => WriteAll(Numbered(Kept(SliceOf(source, r, world), encode)), limit))
  }

  lemma {:induction false} MergedCount<T>(source: seq<T>, encode: T -> Option<SampleBytes>, world: nat, limit: int,
                                          n: nat)
    requires n <= world
    ensures |Merged(RankStores(source, encode, world, limit), n)| == |KeptByRanks(source, encode, n, world)|
  {
    hide WriteAll, SliceOf, Kept;
    if n > 0 {
      MergedCount(source, encode, world, limit, n - 1);
      WriteAllCount(Numbered(Kept(SliceOf(source, n - 1, world), encode)), limit);
    }
  }

  lemma {:induction false} KeptPrefix<T>(source: seq<T>, encode: T -> Option<SampleBytes>, world: nat, m: nat, n: nat)
    requires m <= n <= world
    ensures KeptByRanks(source, encode, m, world) <= KeptByRanks(source, encode, n, world)
  {
    hide SliceOf, Kept;
    if m < n {
      KeptPrefix(source, encode, world, m, n - 1);
    }
  }

  /** The j-th kept sample of rank r, in the order of the whole source. */
  lemma KeptAt<T>(source: seq<T>, encode: T -> Option<SampleBytes>, world: nat, r: nat, j: nat)
    requires r < world && j < |Kept(SliceOf(source, r, world), encode)|
    ensures |KeptByRanks(source, encode, r, world)| + j < |Kept(source, encode)|
    ensures Kept(source, encode)[|KeptByRanks(source, encode, r, world)| + j]
      == Kept(SliceOf(source, r, world), encode)[j]
  {
    hide SliceOf, Kept;
    KeptByAll(source, encode, world);
    KeptPrefix(source, encode, world, r + 1, world);
    assert KeptByRanks(source, encode, r + 1, world)[|KeptByRanks(source, encode, r, world)| + j]
        == Kept(SliceOf(source, r, world), encode)[j];
  }

  /** Every store that a rank has written without an error can be merged. */
  lemma WrittenIsMergeable(samples: seq<SampleBytes>, limit: int)
    requires AllInRange(WriteAll(Numbered(samples), limit).index)
    ensures Mergeable(WriteAll(Numbered(samples), limit))
  {
    hide InRange, WriteAll;
    WriteAllCount(Numbered(samples), limit);
    forall i | 0 <= i < |samples|
      ensures var record := WriteAll(Numbered(samples), limit).index[i];
              record.sampleId == i && record.shardId < |WriteAll(Numbered(samples), limit).shards|
    {
      WriteAllStores(Numbered(samples), limit, i);
    }
  }

  /** In particular when the format can express the rank's samples. */
  lemma StoreIsMergeable(samples: seq<SampleBytes>, limit: int)
    requires Expressible(Numbered(samples))
    ensures Mergeable(WriteAll(Numbered(samples), limit))
  {
    hide InRange, WriteAll, Expressible, Mergeable;
    ExpressibleFits(Numbered(samples), limit);
    WrittenIsMergeable(samples, limit);
  }

  // ------------------------------------------------------------------ the finished cache

  /** The tensors of a sample are found in the final file of the record's shard. */
  ghost predicate StoredIn(fs: FileSystem, r: Record, s: SampleBytes) {
    && r.seqLen == s.seqLen
    && Final(GlobalShardFile(r.shardId)) in fs
    && var file := fs[Final(GlobalShardFile(r.shardId))];
       && Holds(file, r.inputIds, s.inputIds) && Holds(file, r.attentionMask, s.attentionMask)
       && Holds(file, r.lossMask, s.lossMask) && Holds(file, r.hidden, s.hidden)
       && Holds(file, r.lastHidden, s.lastHidden)
  }

  lemma StoredUnderTarget(fs: FileSystem, stores: seq<Store>, r: nat, record: Record, s: SampleBytes)
    requires r < |stores| && Stored(stores[r].shards, record, s)
    requires Target(stores, r, record.shardId) in fs
    requires fs[Target(stores, r, record.shardId)] == stores[r].shards[record.shardId]
    ensures StoredIn(fs, record.(shardId := PrefixSum(ShardCounts(stores), r) + record.shardId), s)
  {
    hide Holds, GlobalShardFile;
  }

  /** The distributed build is correct end to end.  For every source, filter, world size and shard
      limit, and every interleaving of the renames: the merged index has one record per kept
      sample, in source order with dense ids, and each record finds the tensors of its sample in
      the final shard files. */
  lemma BuildIsCorrect<T>(source: seq<T>, encode: T -> Option<SampleBytes>, world: nat, limit: int,
                          run: seq<RenameState>, i: nat)
    requires world > 0 && i < |Kept(source, encode)|
    requires IsRenaming(run, RankStores(source, encode, world, limit))
    requires |run| > 0 && AllRenamed(run[|run| - 1], RankStores(source, encode, world, limit))
    ensures var merged := Merged(RankStores(source, encode, world, limit), world);
            && |merged| == |Kept(source, encode)|
            && merged[i].sampleId == i
            && merged[i].shardId < PrefixSum(ShardCounts(RankStores(source, encode, world, limit)), world)
            && StoredIn(run[|run| - 1].fs, merged[i], Kept(source, encode)[i])
  {
    hide WriteAll, SliceOf, Kept, Stored, StoredIn, IsRenaming, AllRenamed, Target, PrefixSum, KeptByRanks;
    var stores := RankStores(source, encode, world, limit);
    MergedCount(source, encode, world, limit, world);
    KeptByAll(source, encode, world);
    var r, j := Locate(stores, world, i);
    var samples := Kept(SliceOf(source, r, world), encode);
    WriteAllCount(Numbered(samples), limit);
    MergedCount(source, encode, world, limit, r);
    KeptAt(source, encode, world, r, j);
    MergedAt(stores, world, r, j);
    WriteAllStores(Numbered(samples), limit, j);
    var record := stores[r].index[j];
    ShardOfStored(stores[r].shards, record, Numbered(samples)[j]);
    PrefixSumMonotone(ShardCounts(stores), r, world);
    RenamingResult(run, stores, r, record.shardId);
    StoredUnderTarget(run[|run| - 1].fs, stores, r, record, Numbered(samples)[j]);
    StoredIgnoresIds(run[|run| - 1].fs, record.(shardId := PrefixSum(ShardCounts(stores), r) + record.shardId), i,
                     Numbered(samples)[j], j, samples[j]);
  }

  lemma ShardOfStored(shards: seq<seq<Byte>>, r: Record, s: SampleBytes)
    requires Stored(shards, r, s)
    ensures r.shardId < |shards|
  {}

  lemma StoredIgnoresIds(fs: FileSystem, r: Record, id: nat, s: SampleBytes, j: nat, body: SampleBytes)
    requires StoredIn(fs, r, s) && s == body.(sampleId := j)
    ensures StoredIn(fs, r.(sampleId := id), body)
  {
    hide Holds, GlobalShardFile;
  }

  // ------------------------------------------------------------------ the manifest

  const CACHE_VERSION: int := 2

  datatype Manifest = Manifest(
    version: int,
    numSamples: int,
    numShards: int,
    targetLayerIds: seq<int>,
    hiddenDtype: string,
    tokenDtype: string,
    maskDtype: string,
    indexRecordSize: int,
    hiddenSize: int,
    shards: seq<ShardEntry>)

  /** build_target_cache_manifest. */
  function BuildManifest(numSamples: nat, shards: seq<ShardEntry>, layers: seq<int>, hiddenSize: int): Manifest {
    Manifest(CACHE_VERSION, numSamples, |shards|, layers, "bfloat16", "int32", "uint8", RECORD_SIZE, hiddenSize, shards)
  }

  predicate Ascending(layers: seq<int>) {
    forall i :: 0 < i < |layers| ==> layers[i - 1] <= layers[i]
  }

  /** validate_target_cache_manifest, against the files of the cache directory. */
  predicate Validates(m: Manifest, fs: FileSystem) {
    && m.version == CACHE_VERSION
    && m.hiddenDtype == "bfloat16" && m.tokenDtype == "int32" && m.maskDtype == "uint8"
    && m.indexRecordSize == RECORD_SIZE
    && m.hiddenSize > 0
    && m.targetLayerIds != [] && Ascending(m.targetLayerIds)
    && m.numShards == |m.shards|
    && (forall k :: 0 <= k < |m.shards| ==> m.shards[k].id == k && Final(m.shards[k].fileName) in fs)
    && Final("samples.idx") in fs
    && |fs[Final("samples.idx")]| % RECORD_SIZE == 0
    && |fs[Final("samples.idx")]| == m.numSamples * RECORD_SIZE
  }

  lemma {:induction false} LocateShard(counts: seq<nat>, n: nat, k: nat) returns (r: nat, j: nat)
    requires n <= |counts| && k < PrefixSum(counts, n)
    ensures r < n && j < counts[r] && k == PrefixSum(counts, r) + j
  {
    if k < PrefixSum(counts, n - 1) {
      r, j := LocateShard(counts, n - 1, k);
    } else {
      r, j := n - 1, k - PrefixSum(counts, n - 1);
    }
  }

  lemma IndexFileIsNoShard(k: nat)
    ensures GlobalShardFile(k) != "samples.idx"
  {
    hide Digits, Padded;
    var name := GlobalShardFile(k);
    assert name[|name| - 1] == 'n' && "samples.idx"[10] == 'x';
  }

  lemma FinalShardExists(fs: FileSystem, stores: seq<Store>, k: nat)
    requires forall r, j :: 0 <= r < |stores| && 0 <= j < |stores[r].shards| ==> Target(stores, r, j) in fs
    requires k < PrefixSum(ShardCounts(stores), |stores|)
    ensures Final(GlobalShardFile(k)) in fs
  {
    hide GlobalShardFile;
    var r, j := LocateShard(ShardCounts(stores), |stores|, k);
    assert Target(stores, r, j) in fs;
  }

  /** The manifest and index written by the build pass validation exactly when the configured
      layer ids are nonempty and ascending and the hidden size is positive: the builder does not
      sort them, the validator demands it. */
  lemma ManifestValidates(fs: FileSystem, stores: seq<Store>, layers: seq<int>, hiddenSize: int)
    requires forall r, j :: 0 <= r < |stores| && 0 <= j < |stores[r].shards| ==> Target(stores, r, j) in fs
    ensures Validates(BuildManifest(|Merged(stores, |stores|)|, Entries(PrefixSum(ShardCounts(stores), |stores|)),
                                    layers, hiddenSize),
                      fs[Final("samples.idx") := IndexBytes(Merged(stores, |stores|))])
       <==> layers != [] && Ascending(layers) && hiddenSize > 0
  {
    hide GlobalShardFile, Merged, PrefixSum, IndexBytes, Target;
    var merged := Merged(stores, |stores|);
    var total := PrefixSum(ShardCounts(stores), |stores|);
    IndexLength(merged);
    forall k: nat | k < total
      ensures Final(GlobalShardFile(k)) in fs[Final("samples.idx") := IndexBytes(merged)]
    {
      FinalShardExists(fs, stores, k);
    }
    assert forall k :: 0 <= k < |Entries(total)| ==> Entries(total)[k] == ShardEntry(k, GlobalShardFile(k));
  }

  /** A valid manifest stays valid under no change of a field but to an equal value. */
  lemma ChangedManifestIsRejected(m: Manifest, fs: FileSystem, n: int, text: string)
    requires Validates(m, fs)
    ensures Validates(m.(version := n), fs) <==> n == 2
    ensures Validates(m.(hiddenDtype := text), fs) <==> text == "bfloat16"
    ensures Validates(m.(tokenDtype := text), fs) <==> text == "int32"
    ensures Validates(m.(maskDtype := text), fs) <==> text == "uint8"
    ensures Validates(m.(indexRecordSize := n), fs) <==> n == 56
    ensures Validates(m.(hiddenSize := n), fs) <==> n > 0
    ensures Validates(m.(numShards := n), fs) <==> n == |m.shards|
    ensures Validates(m.(numSamples := n), fs) <==> n * 56 == |fs[Final("samples.idx")]|
  {}

  // ------------------------------------------------------------------ the last phase

  /** The summary files of the ranks: ranges, sample counts and shard names of what they wrote. */
  ghost predicate Summarizes(summaries: seq<RankSummary>, stores: seq<Store>, n: nat) {
    && |summaries| == |stores| > 0
    && forall r :: 0 <= r < |summaries| ==>
         && summaries[r].rank == r && summaries[r].start == RangeStart(n, r, |stores|)
         && summaries[r].numSamples == |stores[r].index| && |summaries[r].shardFiles| == |stores[r].shards|
  }

  lemma SummariesInOrder(summaries: seq<RankSummary>, stores: seq<Store>, n: nat)
    requires Summarizes(summaries, stores, n)
    ensures RanksInOrder(summaries) && StartsInOrder(summaries)
    ensures FileCounts(summaries) == ShardCounts(stores)
  {
    hide RangeStart, RangeEnd;
    forall r | 0 < r < |summaries|
      ensures summaries[r - 1].start <= summaries[r].start
    {
      RangesPartition(n, r - 1, |stores|);
    }
  }

  lemma {:induction false} MergedTotal(stores: seq<Store>, counts: seq<nat>, n: nat)
    requires n <= |stores| == |counts| && forall r :: 0 <= r < |stores| ==> counts[r] == |stores[r].index|
    ensures PrefixSum(counts, n) == |Merged(stores, n)|
  {
    hide Relabel;
    if n > 0 {
      MergedTotal(stores, counts, n - 1);
    }
  }

  /** The main rank after the barriers: shard map, merged index, manifest.  The sample count of
      the manifest, which is the sum over the summaries, is the number of merged records. */
  method FinishBuild(fs: FileSystem, summaries: seq<RankSummary>, layers: seq<int>, hiddenSize: int,
                     ghost stores: seq<Store>, ghost n: nat)
    returns (out: Option<FileSystem>, manifest: Manifest)
    requires Summarizes(summaries, stores, n)
    requires forall k :: 0 <= k < |stores| ==> Mergeable(stores[k])
    requires forall k :: 0 <= k < |stores| ==>
      RankFile(k, INDEX_FILE) in fs && fs[RankFile(k, INDEX_FILE)] == IndexBytes(stores[k].index)
    ensures manifest == BuildManifest(|Merged(stores, |stores|)|, Entries(PrefixSum(ShardCounts(stores), |stores|)),
                                      layers, hiddenSize)
    ensures out.Some? <==> AllInRange(Merged(stores, |stores|))
    ensures out.Some? ==> out.value == fs[Final("samples.idx") := IndexBytes(Merged(stores, |stores|))]
  {
    hide Mergeable, IndexBytes, Merged, MergedFrom, PrefixSum, Entries, RangeStart, MapsShards, MapsSorted, SortByStart;
    SummariesInOrder(summaries, stores, n);
    SortKeepsOrder(summaries);
    var shardMap, shards := BuildShardMap(summaries);
    MapsAllRanks(shardMap, summaries);
    MergeOfBuild(fs, summaries, shardMap, stores, |stores|);
    var index, count := FinalizeIndex(fs, summaries, shardMap);
    out := if index.Some? then Some(fs[Final("samples.idx") := index.value]) else None;
    var counts := seq(|summaries|, r requires 0 <= r < |summaries| => summaries[r].numSamples);
    MergedTotal(stores, counts, |stores|);
    manifest := BuildManifest(PrefixSum(counts, |counts|), shards, layers, hiddenSize);
  }
}
