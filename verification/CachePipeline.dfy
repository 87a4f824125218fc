/** The whole way of a sample: written by a rank's asynchronous writer, renamed, merged, listed in the
manifest, opened and read. */
module CachePipeline {
  import opened Options
  import opened Arith
  import opened IndexFormat
  import opened CacheWriter
  import opened CacheBuild
  import opened CacheIndex
  import opened CacheReader
  import AsyncWriter

  // ------------------------------------------------------------------ what a rank leaves

  /** The producer has handed over these samples, in order; the writer numbers them. */
  predicate Submits(submitted: seq<SampleBytes>, bodies: seq<SampleBytes>) {
    && |submitted| == |bodies|
    && forall k :: 0 <= k < |bodies| ==> submitted[k] == bodies[k].(sampleId := submitted[k].sampleId)
  }

  /** A run of the asynchronous writer that ends with a normal return of close. */
  ghost predicate Closed(run: seq<AsyncWriter.State>) {
    && AsyncWriter.IsRun(run) && |run| >= 2
    && AsyncWriter.Join(run[|run| - 2], run[|run| - 1]) && run[|run| - 1].result == AsyncWriter.Returned
  }

  /** A rank has encoded its slice, written every kept sample, and closed its writer. */
  ghost predicate RankWrote<T>(run: seq<AsyncWriter.State>, slice: seq<T>, encode: T -> Option<SampleBytes>,
                               limit: int) {
    && Closed(run) && |run| > 0 && run[|run| - 1].limit == limit
    && Submits(run[|run| - 1].submitted, Kept(slice, encode))
  }

  /** Whatever the interleaving of producer and writer thread, the files of the rank are those of
      writing its kept samples one after the other with ids 0, 1, 2, ..., and every record fits. */
  lemma RankLeavesStore<T>(run: seq<AsyncWriter.State>, slice: seq<T>, encode: T -> Option<SampleBytes>, limit: int)
    requires RankWrote(run, slice, encode, limit)
    ensures |run| > 0 && run[|run| - 1].store == WriteAll(Numbered(Kept(slice, encode)), limit)
    ensures AllInRange(run[|run| - 1].store.index)
  {
    hide AsyncWriter.IsRun, AsyncWriter.Join, WriteAll, InRange, Kept;
    AsyncWriter.CloseIsComplete(run, |run| - 2);
    assert run[|run| - 1].submitted == Numbered(Kept(slice, encode));
  }

  /** Every rank has done so for its slice of the source. */
  ghost predicate AllWrote<T>(writes: seq<seq<AsyncWriter.State>>, source: seq<T>, encode: T -> Option<SampleBytes>,
                              limit: int) {
    && |writes| > 0
    && forall r :: 0 <= r < |writes| ==> RankWrote(writes[r], SliceOf(source, r, |writes|), encode, limit)
  }

  /** What the ranks have left on disk. */
  ghost function StoresOf(writes: seq<seq<AsyncWriter.State>>): seq<Store>
    requires forall r :: 0 <= r < |writes| ==> |writes[r]| > 0
  {
    seq(|writes|, r requires 0 <= r < |writes| => writes[r][|writes[r]| - 1].store)
  }

  lemma RanksLeaveStores<T>(writes: seq<seq<AsyncWriter.State>>, source: seq<T>, encode: T -> Option<SampleBytes>,
                            limit: int)
    requires AllWrote(writes, source, encode, limit)
    ensures |writes| > 0 && forall r :: 0 <= r < |writes| ==> |writes[r]| > 0
    ensures StoresOf(writes) == RankStores(source, encode, |writes|, limit)
    ensures forall r :: 0 <= r < |writes| ==> Mergeable(StoresOf(writes)[r])
  {
    hide RankWrote, WriteAll, InRange, Mergeable, Kept, SliceOf;
    forall r | 0 <= r < |writes|
      ensures |writes[r]| > 0
      ensures writes[r][|writes[r]| - 1].store == WriteAll(Numbered(Kept(SliceOf(source, r, |writes|), encode)), limit)
      ensures Mergeable(writes[r][|writes[r]| - 1].store)
    {
      RankLeavesStore(writes[r], SliceOf(source, r, |writes|), encode, limit);
      WrittenIsMergeable(Kept(SliceOf(source, r, |writes|), encode), limit);
    }
  }

  // ------------------------------------------------------------------ opening a cache

  /** The shard table: the file of every entry under its id, a later entry replacing an earlier one. */
  function ShardTable(fs: FileSystem, shards: seq<ShardEntry>): map<nat, seq<Byte>>
    requires forall k :: 0 <= k < |shards| ==> Final(shards[k].fileName) in fs
  {
    if shards == [] then map[]
    else
      var last := shards[|shards| - 1];
      ShardTable(fs, shards[..|shards| - 1])[last.id := fs[Final(last.fileName)]]
  }

  lemma {:induction false} ShardTableAt(fs: FileSystem, shards: seq<ShardEntry>, k: nat)
    requires forall j :: 0 <= j < |shards| ==> shards[j].id == j && Final(shards[j].fileName) in fs
    requires k < |shards|
    ensures k in ShardTable(fs, shards) && ShardTable(fs, shards)[k] == fs[Final(shards[k].fileName)]
  {
    if k < |shards| - 1 {
      ShardTableAt(fs, shards[..|shards| - 1], k);
    }
  }

  /** Loading a cache directory: the manifest is validated, and its shard list gives the shard table. */
  function OpenCache(fs: FileSystem, m: Manifest): Option<Cache> {
    if !Validates(m, fs) then None
    else
      Some(Cache(fs[Final("samples.idx")], ShardTable(fs, m.shards), m.numSamples, m.hiddenSize, |m.targetLayerIds|))
  }

  lemma OpenedShard(fs: FileSystem, m: Manifest, k: nat)
    requires Validates(m, fs) && k < |m.shards|
    ensures var cache := OpenCache(fs, m).value;
            k in cache.shards && Final(m.shards[k].fileName) in fs && cache.shards[k] == fs[Final(m.shards[k].fileName)]
  {
    ShardTableAt(fs, m.shards, k);
  }

  /** Whatever opens can be looked up: every index below the sample count has a record in the index, and
      every listed shard is in the table. */
  lemma OpenedIsReadable(fs: FileSystem, m: Manifest, i: nat)
    requires OpenCache(fs, m).Some?
    ensures var cache := OpenCache(fs, m).value;
            && (i < cache.numSamples ==> UnpackRecord(cache.index, RECORD_SIZE * i).Some?)
            && (i < |m.shards| ==> i in cache.shards)
  {
    if i < |m.shards| {
      OpenedShard(fs, m, i);
    }
  }

  /** The files after the last phase. */
  function Finished(fs: FileSystem, stores: seq<Store>): FileSystem {
    fs[Final("samples.idx") := IndexBytes(Merged(stores, |stores|))]
  }

  function ManifestOf(stores: seq<Store>, layers: seq<int>, hiddenSize: int): Manifest {
    BuildManifest(|Merged(stores, |stores|)|, Entries(PrefixSum(ShardCounts(stores), |stores|)), layers, hiddenSize)
  }

  /** The finished directory can be opened, and shows the merged index and every final shard. */
  lemma OpensFinished(fs: FileSystem, stores: seq<Store>, layers: seq<int>, hiddenSize: int)
    requires forall r, j :: 0 <= r < |stores| && 0 <= j < |stores[r].shards| ==> Target(stores, r, j) in fs
    ensures OpenCache(Finished(fs, stores), ManifestOf(stores, layers, hiddenSize)).Some?
       <==> layers != [] && Ascending(layers) && hiddenSize > 0
    ensures layers != [] && Ascending(layers) && hiddenSize > 0 ==>
              var cache := OpenCache(Finished(fs, stores), ManifestOf(stores, layers, hiddenSize)).value;
              && cache.index == IndexBytes(Merged(stores, |stores|)) && cache.numSamples == |Merged(stores, |stores|)|
              && cache.hiddenSize == hiddenSize && cache.numLayers == |layers|
              && ShowsShards(cache, fs, PrefixSum(ShardCounts(stores), |stores|))
  {
    hide GlobalShardFile, Merged, PrefixSum, IndexBytes, Target, Validates;
    ManifestValidates(fs, stores, layers, hiddenSize);
    var total := PrefixSum(ShardCounts(stores), |stores|);
    forall k: nat | k < total
      ensures Final(GlobalShardFile(k)) in fs && GlobalShardFile(k) != "samples.idx"
    {
      FinalShardExists(fs, stores, k);
      IndexFileIsNoShard(k);
    }
    if layers != [] && Ascending(layers) && hiddenSize > 0 {
      forall k: nat | k < total {
        OpenedShard(Finished(fs, stores), ManifestOf(stores, layers, hiddenSize), k);
      }
    }
  }

  // ------------------------------------------------------------------ end to end

  /** Every id of the merged index fits the format. */
  predicate MergeFits(stores: seq<Store>) {
    AllInRange(Merged(stores, |stores|))
  }

  lemma ShardsRenamed(run: seq<RenameState>, stores: seq<Store>)
    requires IsRenaming(run, stores) && |run| > 0 && AllRenamed(run[|run| - 1], stores)
    ensures forall r, j :: 0 <= r < |stores| && 0 <= j < |stores[r].shards| ==>
      Target(stores, r, j) in run[|run| - 1].fs
  {
    hide IsRenaming, AllRenamed, Target;
    forall r, j | 0 <= r < |stores| && 0 <= j < |stores[r].shards|
      ensures Target(stores, r, j) in run[|run| - 1].fs
    {
      RenamingResult(run, stores, r, j);
    }
  }

  /** The tensors of an encoded sample that a lookup returns. */
  function ItemOf(s: SampleBytes): Item {
    Item(s.seqLen, s.inputIds, s.lossMask, s.hidden, s.lastHidden)
  }

  /** For every source, filter, number of ranks and shard limit, every interleaving inside each
      rank's writer and every interleaving of the renames: the directory the build leaves, opened
      through the manifest it wrote, has as many samples as the filter keeps, and source sample k, if
      kept, is read back at the index given by the number of kept samples before it. */
  lemma EndToEnd<T>(source: seq<T>, encode: T -> Option<SampleBytes>, limit: int, writes: seq<seq<AsyncWriter.State>>,
                    stores: seq<Store>, run: seq<RenameState>, layers: seq<int>, hiddenSize: int, k: nat)
    requires AllWrote(writes, source, encode, limit) && |stores| == |writes|
    requires forall r :: 0 <= r < |writes| ==> |writes[r]| > 0 && stores[r] == writes[r][|writes[r]| - 1].store
    requires IsRenaming(run, stores) && |run| > 0 && AllRenamed(run[|run| - 1], stores)
    requires MergeFits(stores) && layers != [] && Ascending(layers) && hiddenSize > 0
    requires k < |source| && encode(source[k]).Some? && Shaped(encode(source[k]).value, hiddenSize, |layers|)
    ensures var cache := OpenCache(Finished(run[|run| - 1].fs, stores), ManifestOf(stores, layers, hiddenSize));
            && cache.Some? && cache.value.numSamples == KeptBefore(source, encode, |source|)
            && DirectRead(cache.value, KeptBefore(source, encode, k)) == Ok(ItemOf(encode(source[k]).value))
  {
    hide AllWrote, IsRenaming, AllRenamed, Merged, Kept, RankStores, OpenCache, Shaped, DirectRead, Target, PrefixSum,
         InRange, IndexBytes, ShowsShards, KeptBefore;
    RanksLeaveStores(writes, source, encode, limit);
    assert stores == StoresOf(writes);
    ShardsRenamed(run, stores);
    OpensFinished(run[|run| - 1].fs, stores, layers, hiddenSize);
    KeptIs(source, encode);
    var i := KeptBefore(source, encode, k);
    var cache := OpenCache(Finished(run[|run| - 1].fs, stores), ManifestOf(stores, layers, hiddenSize)).value;
    BuildIsCorrect(source, encode, |writes|, limit, run, i);
    ReadBack(source, encode, |writes|, limit, run, i, cache);
  }

  lemma FinishedCount<T>(source: seq<T>, encode: T -> Option<SampleBytes>, limit: int,
                         writes: seq<seq<AsyncWriter.State>>, stores: seq<Store>)
    requires AllWrote(writes, source, encode, limit) && |stores| == |writes|
    requires forall r :: 0 <= r < |writes| ==> |writes[r]| > 0 && stores[r] == writes[r][|writes[r]| - 1].store
    ensures |Merged(stores, |stores|)| == KeptBefore(source, encode, |source|)
  {
    hide AllWrote, Merged, Kept, RankStores, KeptBefore;
    RanksLeaveStores(writes, source, encode, limit);
    assert stores == StoresOf(writes);
    MergedCount(source, encode, |writes|, limit, |writes|);
    KeptByAll(source, encode, |writes|);
    KeptIs(source, encode);
  }

  /** The main rank's last phase, followed by a fresh process that opens the directory and looks one
      sample up.  Nothing is returned when the merged ids do not fit the format or the manifest does
      not validate; otherwise the lookup yields the source sample with that many kept ones before it, and
      fails beyond the last kept one. */
  method FinishAndRead<T>(fs: FileSystem, summaries: seq<RankSummary>, layers: seq<int>, hiddenSize: int,
                          maxOpenShards: nat, i: nat, ghost source: seq<T>, ghost encode: T -> Option<SampleBytes>,
                          ghost limit: int, ghost writes: seq<seq<AsyncWriter.State>>, ghost stores: seq<Store>,
                          ghost run: seq<RenameState>)
    returns (found: Option<Result<Item>>)
    requires AllWrote(writes, source, encode, limit) && |stores| == |writes|
    requires forall r :: 0 <= r < |writes| ==> |writes[r]| > 0 && stores[r] == writes[r][|writes[r]| - 1].store
    requires IsRenaming(run, stores) && |run| > 0 && AllRenamed(run[|run| - 1], stores) && fs == run[|run| - 1].fs
    requires Summarizes(summaries, stores, |source|)
    ensures found.Some? <==> MergeFits(stores) && layers != [] && Ascending(layers) && hiddenSize > 0
    ensures found.Some? && maxOpenShards > 0 ==>
              forall k :: (0 <= k < |source| && encode(source[k]).Some? && KeptBefore(source, encode, k) == i
                           && Shaped(encode(source[k]).value, hiddenSize, |layers|)) ==>
                            found.value == Ok(ItemOf(encode(source[k]).value))
    ensures found.Some? && i >= KeptBefore(source, encode, |source|) ==> found.value == Err(IndexOutOfBounds)
  {
    hide AllWrote, IsRenaming, AllRenamed, Merged, Kept, RankStores, OpenCache, Shaped, DirectRead, Target, PrefixSum,
         InRange, IndexBytes, ShowsShards, Summarizes, Mergeable, CacheDataset.Valid, KeptBefore, ReachesNoShard;
    RanksLeaveStores(writes, source, encode, limit);
    assert stores == StoresOf(writes);
    ShardsRenamed(run, stores);
    OpensFinished(fs, stores, layers, hiddenSize);
    LocalIndexes(run, stores);
    FinishedCount(source, encode, limit, writes, stores);
    var out, manifest := FinishBuild(fs, summaries, layers, hiddenSize, stores, |source|);
    if out.None? {
      return None;
    }
    var loaded := OpenCache(out.value, manifest);
    if loaded.None? {
      return None;
    }
    var dataset := new CacheDataset(loaded.value, maxOpenShards);
    var item := dataset.GetItem(i);
    forall k | 0 <= k < |source| && encode(source[k]).Some? && KeptBefore(source, encode, k) == i
      && Shaped(encode(source[k]).value, hiddenSize, |layers|)
      ensures DirectRead(loaded.value, i) == Ok(ItemOf(encode(source[k]).value))
    {
      EndToEnd(source, encode, limit, writes, stores, run, layers, hiddenSize, k);
    }
    if i >= KeptBefore(source, encode, |source|) {
      BeyondTheEnd(loaded.value, i);
    }
    found := Some(item);
  }

  lemma BeyondTheEnd(cache: Cache, i: nat)
    requires i >= cache.numSamples
    ensures DirectRead(cache, i) == Err(IndexOutOfBounds) && ReachesNoShard(cache, i)
  {}

  /** Whatever samples a rank keeps, if their records fit it can write them: such runs exist. */
  lemma RankCanWrite<T>(slice: seq<T>, encode: T -> Option<SampleBytes>, limit: int, capacity: nat)
    returns (run: seq<AsyncWriter.State>)
    requires AllInRange(WriteAll(Numbered(Kept(slice, encode)), limit).index)
    ensures RankWrote(run, slice, encode, limit)
  {
    hide AsyncWriter.IsRun, WriteAll, InRange, Kept, AsyncWriter.Join;
    run := AsyncWriter.ClosedRun(Numbered(Kept(slice, encode)), limit, capacity);
  }

  /** Every slice's records fit the format. */
  ghost predicate SlicesFit<T>(source: seq<T>, encode: T -> Option<SampleBytes>, limit: int, world: nat) {
    forall r :: 0 <= r < world ==>
      AllInRange(WriteAll(Numbered(Kept(SliceOf(source, r, world), encode)), limit).index)
  }

  lemma {:induction false} RanksCanWrite<T>(source: seq<T>, encode: T -> Option<SampleBytes>, limit: int, world: nat,
                                            n: nat)
    returns (writes: seq<seq<AsyncWriter.State>>)
    requires n <= world && SlicesFit(source, encode, limit, world)
    ensures |writes| == n
    ensures forall r :: 0 <= r < n ==> RankWrote(writes[r], SliceOf(source, r, world), encode, limit)
  {
    hide RankWrote, WriteAll, InRange, Kept, SliceOf;
    if n == 0 {
      writes := [];
    } else {
      writes := RanksCanWrite(source, encode, limit, world, n - 1);
      var run := RankCanWrite(SliceOf(source, n - 1, world), encode, limit, 1);
      writes := writes + [run];
    }
  }

  /** The build can be carried out for every source, filter, world size and limit whose records fit. */
  lemma BuildCanRun<T>(source: seq<T>, encode: T -> Option<SampleBytes>, limit: int, world: nat)
    returns (writes: seq<seq<AsyncWriter.State>>, run: seq<RenameState>)
    requires world > 0 && SlicesFit(source, encode, limit, world)
    ensures |writes| == world && AllWrote(writes, source, encode, limit)
    ensures forall r :: 0 <= r < |writes| ==> |writes[r]| > 0
    ensures IsRenaming(run, StoresOf(writes)) && |run| > 0 && AllRenamed(run[|run| - 1], StoresOf(writes))
  {
    hide RankWrote, IsRenaming, AllRenamed, RankStores;
    writes := RanksCanWrite(source, encode, limit, world, world);
    RanksLeaveStores(writes, source, encode, limit);
    run := RenamingExists(StoresOf(writes));
  }

  /** The renames leave the local indexes alone. */
  lemma LocalIndexes(run: seq<RenameState>, stores: seq<Store>)
    requires IsRenaming(run, stores) && |run| > 0
    ensures forall k :: 0 <= k < |stores| ==>
              RankFile(k, INDEX_FILE) in run[|run| - 1].fs
              && run[|run| - 1].fs[RankFile(k, INDEX_FILE)] == IndexBytes(stores[k].index)
  {
    hide IsRenaming, Target, LocalShardFile, IndexBytes;
    RenamingInv(run, stores, |run| - 1);
  }
}
