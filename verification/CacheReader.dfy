/** Reading a target cache: the index lookup, the tensor slices, and the table of open shards
that is kept in least-recently-used order. */
module CacheReader {
  import opened Options
  import opened Arith
  import opened IndexFormat
  import opened CacheWriter
  import opened CacheBuild
  import opened CacheIndex

  datatype Result<+T> = Ok(value: T) | Err(error: Error)

  datatype Error =
    | IndexOutOfBounds | BrokenIndex | WrongSampleId | EmptySample | UnknownShard | BeyondShard | ShardEvicted

  /** The tensors a lookup returns; the attention mask is stored but not read back. */
  datatype Item = Item(seqLen: nat, inputIds: seq<Byte>, lossMask: seq<Byte>, hidden: seq<Byte>, lastHidden: seq<Byte>)

  /** The parts of a cache directory the reader uses. */
  datatype Cache = Cache(index: seq<Byte>, shards: map<nat, seq<Byte>>, numSamples: nat, hiddenSize: nat,
                         numLayers: nat)

  // ------------------------------------------------------------------ uncached reads

  function HiddenBytes(seqLen: nat, layers: nat, hiddenSize: nat): nat {
    MulNonNegative(layers, hiddenSize);
    MulNonNegative(seqLen, Mul(layers, hiddenSize));
    2 * Mul(seqLen, Mul(layers, hiddenSize))
  }

  function ReadTensor(file: seq<Byte>, offset: nat, nbytes: nat): Result<seq<Byte>> {
    if offset + nbytes <= |file| then Ok(file[offset..offset + nbytes]) else Err(BeyondShard)
  }

  /** The record of a sample: read, checked against its index, and of positive length. */
  function ReadRecord(cache: Cache, index: int): (r: Result<Record>)
    ensures r.Ok? ==> r.value.sampleId == index && r.value.seqLen > 0 && 0 <= index < cache.numSamples
  {
    if !(0 <= index < cache.numSamples) then Err(IndexOutOfBounds)
    else
      var record := UnpackRecord(cache.index, RECORD_SIZE * index);
      if record.None? then Err(BrokenIndex)
      else if record.value.sampleId != index then Err(WrongSampleId)
      else if record.value.seqLen == 0 then Err(EmptySample)
      else Ok(record.value)
  }

  function ReadTensors(cache: Cache, record: Record, file: seq<Byte>): Result<Item> {
    var inputIds := ReadTensor(file, record.inputIds, 4 * record.seqLen);
    var lossMask := ReadTensor(file, record.lossMask, record.seqLen);
    var hidden := ReadTensor(file, record.hidden, HiddenBytes(record.seqLen, cache.numLayers, cache.hiddenSize));
    var lastHidden := ReadTensor(file, record.lastHidden, HiddenBytes(record.seqLen, 1, cache.hiddenSize));
    if inputIds.Err? || lossMask.Err? || hidden.Err? || lastHidden.Err? then Err(BeyondShard)
    else Ok(Item(record.seqLen, inputIds.value, lossMask.value, hidden.value, lastHidden.value))
  }

  /** A lookup that opens the shard file anew. */
  function DirectRead(cache: Cache, index: int): Result<Item> {
    var record := ReadRecord(cache, index);
    if record.Err? then Err(record.error)
    else if record.value.shardId !in cache.shards then Err(UnknownShard)
    else ReadTensors(cache, record.value, cache.shards[record.value.shardId])
  }

  // ------------------------------------------------------------------ recency

  function Without(ids: seq<nat>, x: nat): seq<nat> {
    if ids == [] then []
    else if ids[|ids| - 1] == x then Without(ids[..|ids| - 1], x)
    else Without(ids[..|ids| - 1], x) + [ids[|ids| - 1]]
  }

  /** The distinct ids of an access trace, the most recently used last. */
  function Recency(trace: seq<nat>): seq<nat> {
    if trace == [] then [] else Without(Recency(trace[..|trace| - 1]), trace[|trace| - 1]) + [trace[|trace| - 1]]
  }

  function LastUpTo(ids: seq<nat>, k: nat): seq<nat> {
    if |ids| <= k then ids else ids[|ids| - k..]
  }

  /** One more than the position of the last use; 0 for an id that was never used. */
  function LastUse(trace: seq<nat>, x: nat): nat {
    if trace == [] then 0 else if trace[|trace| - 1] == x then |trace| else LastUse(trace[..|trace| - 1], x)
  }

  predicate Distinct(ids: seq<nat>) {
    forall i, j :: 0 <= i < j < |ids| ==> ids[i] != ids[j]
  }

  lemma {:induction false} WithoutFacts(ids: seq<nat>, x: nat)
    ensures x !in Without(ids, x)
    ensures forall y :: y in Without(ids, x) <==> y in ids && y != x
    ensures Distinct(ids) ==> Distinct(Without(ids, x))
    ensures x !in ids ==> Without(ids, x) == ids
  {
    if ids != [] {
      var n := |ids| - 1;
      WithoutFacts(ids[..n], x);
      assert Distinct(ids) ==> ids[n] !in ids[..n];
    }
  }

  lemma {:induction false} WithoutConcat(a: seq<nat>, b: seq<nat>, x: nat)
    ensures Without(a + b, x) == Without(a, x) + Without(b, x)
  {
    if b == [] {
      assert a + b == a;
    } else {
      assert (a + b)[..|a + b| - 1] == a + b[..|b| - 1];
      WithoutConcat(a, b[..|b| - 1], x);
    }
  }

  /** Ids ordered by their last use. */
  predicate ByLastUse(trace: seq<nat>, ids: seq<nat>) {
    forall i, j :: 0 <= i < j < |ids| ==> LastUse(trace, ids[i]) < LastUse(trace, ids[j])
  }

  lemma {:induction false} WithoutByLastUse(trace: seq<nat>, ids: seq<nat>, x: nat)
    requires ByLastUse(trace, ids)
    ensures ByLastUse(trace, Without(ids, x))
  {
    hide LastUse;
    if ids != [] {
      var n := |ids| - 1;
      WithoutByLastUse(trace, ids[..n], x);
      WithoutFacts(ids[..n], x);
      forall y | y in Without(ids[..n], x)
        ensures LastUse(trace, y) < LastUse(trace, ids[n])
      {
        assert y in ids[..n];
      }
    }
  }

  lemma {:induction false} LastUseBound(trace: seq<nat>, x: nat)
    ensures LastUse(trace, x) <= |trace| && (LastUse(trace, x) > 0 <==> x in trace)
  {
    if trace != [] {
      LastUseBound(trace[..|trace| - 1], x);
    }
  }

  /** After its last use an id does not occur any more. */
  lemma {:induction false} LastUseIs(trace: seq<nat>, x: nat)
    requires x in trace
    ensures 0 < LastUse(trace, x) <= |trace| && trace[LastUse(trace, x) - 1] == x
    ensures forall i :: LastUse(trace, x) <= i < |trace| ==> trace[i] != x
  {
    if trace[|trace| - 1] != x {
      LastUseIs(trace[..|trace| - 1], x);
    }
  }

  lemma LastUseStep(trace: seq<nat>, x: nat, y: nat)
    ensures LastUse(trace + [x], y) == if y == x then |trace| + 1 else LastUse(trace, y)
  {
    assert (trace + [x])[..|trace|] == trace;
  }

  lemma UseKeepsOrder(trace: seq<nat>, ids: seq<nat>, x: nat)
    requires ByLastUse(trace, ids) && x !in ids
    ensures ByLastUse(trace + [x], ids + [x])
  {
    hide LastUse;
    forall i | 0 <= i < |ids|
      ensures LastUse(trace + [x], ids[i]) == LastUse(trace, ids[i]) <= |trace|
    {
      LastUseStep(trace, x, ids[i]);
      LastUseBound(trace, ids[i]);
    }
    LastUseStep(trace, x, x);
  }

  /** Recency lists every used id once, ordered by its last use. */
  lemma {:induction false} RecencyFacts(trace: seq<nat>)
    ensures Distinct(Recency(trace))
    ensures forall x :: x in Recency(trace) <==> x in trace
    ensures ByLastUse(trace, Recency(trace))
  {
    hide LastUse, Without, ByLastUse;
    if trace == [] {
      NothingUsed();
    } else {
      var n := |trace| - 1;
      var before, x := Recency(trace[..n]), trace[n];
      assert trace == trace[..n] + [x];
      RecencyFacts(trace[..n]);
      WithoutFacts(before, x);
      WithoutByLastUse(trace[..n], before, x);
      UseKeepsOrder(trace[..n], Without(before, x), x);
    }
  }

  lemma NothingUsed()
    ensures ByLastUse([], [])
  {}

  lemma {:induction false} WithoutLength(ids: seq<nat>, x: nat)
    requires Distinct(ids)
    ensures |Without(ids, x)| == |ids| - if x in ids then 1 else 0
  {
    if ids != [] {
      WithoutLength(ids[..|ids| - 1], x);
    }
  }

  lemma LastOfConcat(a: seq<nat>, b: seq<nat>, k: nat)
    requires |b| >= k
    ensures LastUpTo(a + b, k) == LastUpTo(b, k)
  {}

  lemma SuffixStep(all: seq<nat>, x: nat, k: nat)
    requires Distinct(all)
    ensures LastUpTo(Without(all, x) + [x], k) == LastUpTo(Without(LastUpTo(all, k), x) + [x], k)
  {
    hide Without;
    if |all| > k {
      var cut := |all| - k;
      var open := all[cut..];
      assert all == all[..cut] + open;
      WithoutConcat(all[..cut], open, x);
      WithoutLength(open, x);
      var dropped, kept := Without(all[..cut], x), Without(open, x);
      assert dropped + kept + [x] == dropped + (kept + [x]);
      LastOfConcat(dropped, kept + [x], k);
    }
  }

  /** Keeping only the last k ids step by step gives the last k ids of the whole recency list. */
  lemma RecencyStep(trace: seq<nat>, x: nat, k: nat)
    ensures LastUpTo(Recency(trace + [x]), k) == LastUpTo(Without(LastUpTo(Recency(trace), k), x) + [x], k)
    ensures Distinct(LastUpTo(Recency(trace + [x]), k))
  {
    RecencyFacts(trace);
    RecencyFacts(trace + [x]);
    assert (trace + [x])[..|trace|] == trace;
    SuffixStep(Recency(trace), x, k);
  }

  lemma WithoutFirst(ids: seq<nat>)
    requires ids != [] && Distinct(ids)
    ensures Without(ids, ids[0]) == ids[1..]
  {
    assert ids == [ids[0]] + ids[1..];
    WithoutConcat([ids[0]], ids[1..], ids[0]);
    WithoutFacts(ids[1..], ids[0]);
  }

  // ------------------------------------------------------------------ the dataset

  /** An open memory map: the handle it was made from, and the bytes it shows. */
  datatype Mapping = Mapping(handle: nat, bytes: seq<Byte>)

  /** Every entry of the table shows its shard through its own open handle. */
  ghost predicate EntriesShow(shards: map<nat, seq<Byte>>, handles: map<nat, nat>, mappings: map<nat, Mapping>,
                              nextHandle: nat, open: set<nat>)
  {
    forall id :: id in handles ==>
      && id in shards && id in mappings && mappings[id] == Mapping(handles[id], shards[id])
      && handles[id] < nextHandle && handles[id] in open
  }

  /** No two entries share a handle. */
  ghost predicate HandlesDiffer(handles: map<nat, nat>) {
    forall a, b :: a in handles && b in handles && handles[a] == handles[b] ==> a == b
  }

  /** The table of open shards: every entry shows its shard through its own handle, and exactly
      the handles in the table are open. */
  ghost predicate Consistent(shards: map<nat, seq<Byte>>, order: seq<nat>, handles: map<nat, nat>,
                             mappings: map<nat, Mapping>, nextHandle: nat, open: set<nat>)
  {
    && Distinct(order)
    && handles.Keys == mappings.Keys == Ids(order)
    && EntriesShow(shards, handles, mappings, nextHandle, open)
    && HandlesDiffer(handles)
    && open <= handles.Values
  }

  function Ids(order: seq<nat>): set<nat> {
    set id | id in order
  }

  lemma MoveKeeps(shards: map<nat, seq<Byte>>, order: seq<nat>, handles: map<nat, nat>, mappings: map<nat, Mapping>,
                  nextHandle: nat, open: set<nat>, id: nat)
    requires Consistent(shards, order, handles, mappings, nextHandle, open) && id in order
    ensures Consistent(shards, Without(order, id) + [id], handles, mappings, nextHandle, open)
  {
    hide Without;
    WithoutFacts(order, id);
    assert Ids(Without(order, id) + [id]) == Ids(order);
  }

  lemma ValuesAfterOpen(handles: map<nat, nat>, open: set<nat>, id: nat, handle: nat)
    requires open <= handles.Values && id !in handles
    ensures open + {handle} <= handles[id := handle].Values
  {
    var after := handles[id := handle];
    assert after[id] == handle;
    forall h | h in open
      ensures h in after.Values
    {
      var x :| x in handles && handles[x] == h;
      assert after[x] == h;
    }
  }

  lemma EntriesAfterOpen(shards: map<nat, seq<Byte>>, handles: map<nat, nat>, mappings: map<nat, Mapping>,
                         nextHandle: nat, open: set<nat>, id: nat)
    requires EntriesShow(shards, handles, mappings, nextHandle, open) && HandlesDiffer(handles) && id in shards
    ensures EntriesShow(shards, handles[id := nextHandle], mappings[id := Mapping(nextHandle, shards[id])],
                        nextHandle + 1, open + {nextHandle})
    ensures id !in handles ==> HandlesDiffer(handles[id := nextHandle])
  {}

  lemma OpenKeeps(shards: map<nat, seq<Byte>>, order: seq<nat>, handles: map<nat, nat>, mappings: map<nat, Mapping>,
                  nextHandle: nat, open: set<nat>, id: nat)
    requires Consistent(shards, order, handles, mappings, nextHandle, open) && id !in order && id in shards
    ensures Consistent(shards, order + [id], handles[id := nextHandle], mappings[id := Mapping(nextHandle, shards[id])],
                       nextHandle + 1, open + {nextHandle})
  {
    hide EntriesShow, HandlesDiffer;
    assert Ids(order + [id]) == Ids(order) + {id} && id !in Ids(order);
    ValuesAfterOpen(handles, open, id, nextHandle);
    EntriesAfterOpen(shards, handles, mappings, nextHandle, open, id);
  }

  lemma ValuesAfterEvict(handles: map<nat, nat>, open: set<nat>, id: nat)
    requires open <= handles.Values && id in handles
    ensures open - {handles[id]} <= (handles - {id}).Values
  {
    var after := handles - {id};
    forall h | h in open - {handles[id]}
      ensures h in after.Values
    {
      var x :| x in handles && handles[x] == h;
      assert after[x] == h;
    }
  }

  lemma EntriesAfterEvict(shards: map<nat, seq<Byte>>, handles: map<nat, nat>, mappings: map<nat, Mapping>,
                          nextHandle: nat, open: set<nat>, id: nat)
    requires EntriesShow(shards, handles, mappings, nextHandle, open) && HandlesDiffer(handles) && id in handles
    ensures EntriesShow(shards, handles - {id}, mappings - {id}, nextHandle, open - {handles[id]})
    ensures HandlesDiffer(handles - {id}) && id in mappings && mappings[id].handle == handles[id]
  {}

  lemma EvictKeeps(shards: map<nat, seq<Byte>>, order: seq<nat>, handles: map<nat, nat>, mappings: map<nat, Mapping>,
                   nextHandle: nat, open: set<nat>)
    requires Consistent(shards, order, handles, mappings, nextHandle, open) && order != []
    ensures order[0] in handles && order[0] in mappings && mappings[order[0]].handle == handles[order[0]]
    ensures Consistent(shards, order[1..], handles - {order[0]}, mappings - {order[0]}, nextHandle,
                       open - {handles[order[0]]})
  {
    hide EntriesShow, HandlesDiffer;
    assert order[0] in Ids(order);
    assert Ids(order[1..]) == Ids(order) - {order[0]};
    ValuesAfterEvict(handles, open, order[0]);
    EntriesAfterEvict(shards, handles, mappings, nextHandle, open, order[0]);
  }

  class CacheDataset {
    const cache: Cache
    const maxOpenShards: nat

    /** The two ordered tables, oldest entry first. */
    var handleOrder: seq<nat>
    var handles: map<nat, nat>
    var mappingOrder: seq<nat>
    var mappings: map<nat, Mapping>

    /** Handles are numbered as they are opened; these are the ones not closed yet. */
    var nextHandle: nat
    var openHandles: set<nat>
    var openMappings: set<nat>

    /** The shard accesses so far. */
    ghost var trace: seq<nat>

    /** The two tables agree. */
    ghost predicate TablesAgree()
      reads this
    {
      && handleOrder == mappingOrder && openMappings == openHandles
      && Consistent(cache.shards, mappingOrder, handles, mappings, nextHandle, openHandles)
    }

    /** The open shards are the most recently used ones, in recency order. */
    ghost predicate Valid()
      reads this
    {
      TablesAgree() && mappingOrder == LastUpTo(Recency(trace), maxOpenShards)
    }

    constructor (cache: Cache, maxOpenShards: nat)
      ensures Valid() && trace == [] && this.cache == cache && this.maxOpenShards == maxOpenShards
    {
      this.cache, this.maxOpenShards := cache, maxOpenShards;
      handleOrder, handles, mappingOrder, mappings := [], map[], [], map[];
      nextHandle, openHandles, openMappings, trace := 0, {}, {}, [];
    }

    /** move_to_end on both tables. */
    method MoveToEnd(id: nat)
      requires TablesAgree() && id in mappingOrder
      modifies this
      ensures TablesAgree() && mappingOrder == Without(old(mappingOrder), id) + [id] && trace == old(trace)
    {
      hide Consistent;
      MoveKeeps(cache.shards, mappingOrder, handles, mappings, nextHandle, openHandles, id);
      mappingOrder := Without(mappingOrder, id) + [id];
      handleOrder := Without(handleOrder, id) + [id];
    }

    /** Opens a shard file and maps it, as the newest entry of both tables. */
    method OpenShard(id: nat)
      requires TablesAgree() && id !in mappingOrder && id in cache.shards
      modifies this
      ensures TablesAgree() && mappingOrder == old(mappingOrder) + [id] && trace == old(trace)
    {
      hide Consistent;
      OpenKeeps(cache.shards, mappingOrder, handles, mappings, nextHandle, openHandles, id);
      var handle := nextHandle;
      nextHandle := nextHandle + 1;
      openHandles := openHandles + {handle};
      handles := handles[id := handle];
      handleOrder := handleOrder + [id];
      openMappings := openMappings + {handle};
      mappings := mappings[id := Mapping(handle, cache.shards[id])];
      mappingOrder := mappingOrder + [id];
    }

    /** Drops the oldest entry of the mappings, and the handle of the same shard, closing both. */
    method EvictOldest()
      requires TablesAgree() && mappingOrder != []
      modifies this
      ensures TablesAgree() && mappingOrder == old(mappingOrder)[1..] && trace == old(trace)
    {
      hide Consistent, Without;
      EvictKeeps(cache.shards, mappingOrder, handles, mappings, nextHandle, openHandles);
      assert Distinct(mappingOrder) by {
        ConsistentIsDistinct(cache.shards, mappingOrder, handles, mappings, nextHandle, openHandles);
      }
      WithoutFirst(mappingOrder);
      var evicted := mappingOrder[0];
      openMappings := openMappings - {mappings[evicted].handle};
      mappings := mappings - {evicted};
      mappingOrder := mappingOrder[1..];
      openHandles := openHandles - {handles[evicted]};
      handles := handles - {evicted};
      handleOrder := Without(handleOrder, evicted);
    }

    /** The eviction loop. */
    method EvictDown()
      requires TablesAgree()
      modifies this
      ensures TablesAgree() && mappingOrder == LastUpTo(old(mappingOrder), maxOpenShards) && trace == old(trace)
    {
      hide Consistent;
      while |mappingOrder| > maxOpenShards
        invariant TablesAgree() && trace == old(trace)
        invariant |mappingOrder| <= |old(mappingOrder)| && mappingOrder == LastUpTo(old(mappingOrder), |mappingOrder|)
        invariant |mappingOrder| >= maxOpenShards || mappingOrder == old(mappingOrder)
        decreases |mappingOrder|
      {
        EvictOldest();
      }
    }

    /** _get_shard_mmap.  Without room for a single shard, the one just opened is evicted before
        it is looked up. */
    method GetShard(id: nat) returns (r: Result<seq<Byte>>)
      requires Valid() && id in cache.shards
      modifies this
      ensures Valid() && trace == old(trace) + [id]
      ensures r == if maxOpenShards > 0 then Ok(cache.shards[id]) else Err(ShardEvicted)
    {
      hide Recency, Without, Consistent;
      ghost var order := mappingOrder;
      RecencyIsDistinct(trace, maxOpenShards);
      RecencyStep(trace, id, maxOpenShards);
      WithoutFacts(order, id);
      WithoutLength(order, id);
      if id in mappingOrder {
        MoveToEnd(id);
      } else {
        OpenShard(id);
        EvictDown();
      }
      trace := trace + [id];
      assert maxOpenShards > 0 ==> mappingOrder[|mappingOrder| - 1] == id;
      ConsistentAt(cache.shards, mappingOrder, handles, mappings, nextHandle, openHandles, id);
      r := if id in mappings then Ok(mappings[id].bytes) else Err(ShardEvicted);
    }

    /** __getitem__: the same result as an uncached read, after any sequence of accesses, provided
        that one shard may be open. */
    method GetItem(index: int) returns (r: Result<Item>)
      requires Valid()
      modifies this
      ensures Valid()
      ensures maxOpenShards > 0 || ReachesNoShard(cache, index) ==> r == DirectRead(cache, index)
      ensures maxOpenShards == 0 && !ReachesNoShard(cache, index) ==> r == Err(ShardEvicted)
      ensures ReachesNoShard(cache, index) ==> trace == old(trace)
      ensures !ReachesNoShard(cache, index) ==> trace == old(trace) + [ReadRecord(cache, index).value.shardId]
    {
      hide TablesAgree, Recency, UnpackRecord, ReadTensors;
      var record := ReadRecord(cache, index);
      if record.Err? {
        return Err(record.error);
      }
      if record.value.shardId !in cache.shards {
        return Err(UnknownShard);
      }
      var bytes := GetShard(record.value.shardId);
      r := if bytes.Ok? then ReadTensors(cache, record.value, bytes.value) else Err(bytes.error);
    }
  }

  /** The lookup fails before a shard is opened. */
  predicate ReachesNoShard(cache: Cache, index: int) {
    ReadRecord(cache, index).Err? || ReadRecord(cache, index).value.shardId !in cache.shards
  }

  lemma ConsistentIsDistinct(shards: map<nat, seq<Byte>>, order: seq<nat>, handles: map<nat, nat>,
                             mappings: map<nat, Mapping>, nextHandle: nat, open: set<nat>)
    requires Consistent(shards, order, handles, mappings, nextHandle, open)
    ensures Distinct(order)
  {}

  lemma ConsistentAt(shards: map<nat, seq<Byte>>, order: seq<nat>, handles: map<nat, nat>, mappings: map<nat, Mapping>,
                     nextHandle: nat, open: set<nat>, id: nat)
    requires Consistent(shards, order, handles, mappings, nextHandle, open)
    ensures id in mappings <==> id in order
    ensures id in order ==> id in shards && mappings[id].bytes == shards[id]
  {
    assert id in Ids(order) <==> id in order;
  }

  lemma RecencyIsDistinct(trace: seq<nat>, k: nat)
    ensures Distinct(LastUpTo(Recency(trace), k))
  {
    hide Recency;
    RecencyFacts(trace);
  }

  // ------------------------------------------------------------------ reading back a build

  /** The byte lengths of a sample fit the model the cache was built for. */
  predicate Shaped(s: SampleBytes, hiddenSize: nat, numLayers: nat) {
    && s.seqLen > 0
    && |s.inputIds| == 4 * s.seqLen && |s.attentionMask| == s.seqLen && |s.lossMask| == s.seqLen
    && |s.hidden| == 2 * s.seqLen * numLayers * hiddenSize
    && |s.lastHidden| == 2 * s.seqLen * hiddenSize
  }

  lemma HiddenBytesAre(seqLen: nat, layers: nat, hiddenSize: nat)
    ensures HiddenBytes(seqLen, layers, hiddenSize) == 2 * seqLen * layers * hiddenSize
  {}

  lemma ReadStored(cache: Cache, record: Record, file: seq<Byte>, s: SampleBytes)
    requires Shaped(s, cache.hiddenSize, cache.numLayers) && record.seqLen == s.seqLen
    requires Holds(file, record.inputIds, s.inputIds) && Holds(file, record.lossMask, s.lossMask)
    requires Holds(file, record.hidden, s.hidden) && Holds(file, record.lastHidden, s.lastHidden)
    ensures ReadTensors(cache, record, file) == Ok(Item(s.seqLen, s.inputIds, s.lossMask, s.hidden, s.lastHidden))
  {
    hide HiddenBytes;
    HiddenBytesAre(s.seqLen, cache.numLayers, cache.hiddenSize);
    HiddenBytesAre(s.seqLen, 1, cache.hiddenSize);
  }

  /** The cache shows the first n final shard files. */
  ghost predicate ShowsShards(cache: Cache, fs: FileSystem, n: nat) {
    forall k :: 0 <= k < n ==>
      k in cache.shards && Final(GlobalShardFile(k)) in fs && cache.shards[k] == fs[Final(GlobalShardFile(k))]
  }

  /** Reading index i of a finished cache returns exactly the tensors of the i-th kept sample of
      the source, for every world size, shard limit and interleaving of the build. */
  lemma ReadBack<T>(source: seq<T>, encode: T -> Option<SampleBytes>, world: nat, limit: int, run: seq<RenameState>,
                    i: nat, cache: Cache)
    requires world > 0 && i < |Kept(source, encode)|
    requires IsRenaming(run, RankStores(source, encode, world, limit))
    requires |run| > 0 && AllRenamed(run[|run| - 1], RankStores(source, encode, world, limit))
    requires AllInRange(Merged(RankStores(source, encode, world, limit), world))
    requires cache.index == IndexBytes(Merged(RankStores(source, encode, world, limit), world))
    requires cache.numSamples == |Kept(source, encode)|
    requires ShowsShards(cache, run[|run| - 1].fs,
                         PrefixSum(ShardCounts(RankStores(source, encode, world, limit)), world))
    requires Shaped(Kept(source, encode)[i], cache.hiddenSize, cache.numLayers)
    ensures var s := Kept(source, encode)[i];
            DirectRead(cache, i) == Ok(Item(s.seqLen, s.inputIds, s.lossMask, s.hidden, s.lastHidden))
  {
    hide Kept, IsRenaming, AllRenamed, Merged, WriteAll, SliceOf, UnpackRecord, Holds, GlobalShardFile, IndexBytes,
         InRange, ReadTensors;
    var merged, s := Merged(RankStores(source, encode, world, limit), world), Kept(source, encode)[i];
    BuildIsCorrect(source, encode, world, limit, run, i);
    IndexAt(merged, i);
    var record := merged[i];
    ReadStored(cache, record, cache.shards[record.shardId], s);
  }
}
