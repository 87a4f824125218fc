/** The local target-cache writer: samples are appended to shard files, next-fit, and one index
record per sample says where its five tensors lie. */
module CacheWriter {
  import opened Options
  import opened Arith
  import opened IndexFormat

  /** The serialized tensors of one sample. */
  datatype SampleBytes = SampleBytes(
    sampleId: nat,
    seqLen: nat,
    inputIds: seq<Byte>,
    attentionMask: seq<Byte>,
    lossMask: seq<Byte>,
    hidden: seq<Byte>,
    lastHidden: seq<Byte>)

  function Payload(s: SampleBytes): seq<Byte> {
    s.inputIds + s.attentionMask + s.lossMask + s.hidden + s.lastHidden
  }

  /** The shard files, in order of their local ids, and the index records. */
  datatype Store = Store(shards: seq<seq<Byte>>, index: seq<Record>)

  const EMPTY: Store := Store([], [])

  function LastOf(shards: seq<seq<Byte>>): seq<Byte>
    requires shards != []
  {
    shards[|shards| - 1]
  }

  /** _ensure_shard: a first shard, or a new one when the current one is not empty and would
      exceed the limit. */
  predicate OpensShard(shards: seq<seq<Byte>>, nbytes: nat, limit: int) {
    shards == [] || (|LastOf(shards)| > 0 && |LastOf(shards)| + nbytes > limit)
  }

  function EnsureShard(shards: seq<seq<Byte>>, nbytes: nat, limit: int): (r: seq<seq<Byte>>)
    ensures r != []
  {
    if OpensShard(shards, nbytes, limit) then shards + [[]] else shards
  }

  function AppendLast(shards: seq<seq<Byte>>, bytes: seq<Byte>): seq<seq<Byte>>
    requires shards != []
  {
    shards[|shards| - 1 := LastOf(shards) + bytes]
  }

  /** The record of a sample written at the end of the last shard. */
  function Place(shards: seq<seq<Byte>>, s: SampleBytes): Record
    requires shards != []
  {
    var start := |LastOf(shards)|;
    Record(s.sampleId, |shards| - 1, s.seqLen, start, start + |s.inputIds|, start + |s.inputIds| + |s.attentionMask|,
           start + |s.inputIds| + |s.attentionMask| + |s.lossMask|,
           start + |s.inputIds| + |s.attentionMask| + |s.lossMask| + |s.hidden|)
  }

  /** Every field of the sample's record fits the format. */
  predicate Fits(st: Store, s: SampleBytes, limit: int) {
    InRange(Place(EnsureShard(st.shards, |Payload(s)|, limit), s))
  }

  function Write(st: Store, s: SampleBytes, limit: int): Store {
    var shards := EnsureShard(st.shards, |Payload(s)|, limit);
    Store(AppendLast(shards, Payload(s)), st.index + [Place(shards, s)])
  }

  function WriteAll(samples: seq<SampleBytes>, limit: int): Store {
    if samples == [] then EMPTY else Write(WriteAll(samples[..|samples| - 1], limit), samples[|samples| - 1], limit)
  }

  // ------------------------------------------------------------------ what is stored where

  /** All five tensors of the sample lie where the record says. */
  ghost predicate Stored(shards: seq<seq<Byte>>, r: Record, s: SampleBytes) {
    && r.seqLen == s.seqLen && r.shardId < |shards|
    && Holds(shards[r.shardId], r.inputIds, s.inputIds)
    && Holds(shards[r.shardId], r.attentionMask, s.attentionMask)
    && Holds(shards[r.shardId], r.lossMask, s.lossMask)
    && Holds(shards[r.shardId], r.hidden, s.hidden)
    && Holds(shards[r.shardId], r.lastHidden, s.lastHidden)
  }

  lemma HoldsInside(before: seq<Byte>, payload: seq<Byte>, x: seq<Byte>, field: seq<Byte>, y: seq<Byte>)
    requires payload == x + field + y
    ensures Holds(before + payload, |before| + |x|, field)
  {
    hide Holds;
    HoldsMiddle(before + x, field, y);
    assert before + x + field + y == before + payload;
  }

  lemma PayloadParts(s: SampleBytes)
    ensures Payload(s) == [] + s.inputIds + (s.attentionMask + s.lossMask + s.hidden + s.lastHidden)
    ensures Payload(s) == s.inputIds + s.attentionMask + (s.lossMask + s.hidden + s.lastHidden)
    ensures Payload(s) == (s.inputIds + s.attentionMask) + s.lossMask + (s.hidden + s.lastHidden)
    ensures Payload(s) == (s.inputIds + s.attentionMask + s.lossMask) + s.hidden + s.lastHidden
    ensures Payload(s) == (s.inputIds + s.attentionMask + s.lossMask + s.hidden) + s.lastHidden + []
  {}

  lemma PlacedIsStored(shards: seq<seq<Byte>>, s: SampleBytes)
    requires shards != []
    ensures Stored(AppendLast(shards, Payload(s)), Place(shards, s), s)
  {
    hide Holds, Payload;
    var before, p := LastOf(shards), Payload(s);
    PayloadParts(s);
    HoldsInside(before, p, [], s.inputIds, s.attentionMask + s.lossMask + s.hidden + s.lastHidden);
    HoldsInside(before, p, s.inputIds, s.attentionMask, s.lossMask + s.hidden + s.lastHidden);
    HoldsInside(before, p, s.inputIds + s.attentionMask, s.lossMask, s.hidden + s.lastHidden);
    HoldsInside(before, p, s.inputIds + s.attentionMask + s.lossMask, s.hidden, s.lastHidden);
    HoldsInside(before, p, s.inputIds + s.attentionMask + s.lossMask + s.hidden, s.lastHidden, []);
  }

  /** Shards only grow: later files extend earlier ones. */
  predicate Grown(before: seq<seq<Byte>>, after: seq<seq<Byte>>) {
    |before| <= |after| && forall i :: 0 <= i < |before| ==> before[i] <= after[i]
  }

  lemma WriteGrows(st: Store, s: SampleBytes, limit: int)
    ensures Grown(st.shards, Write(st, s, limit).shards)
  {}

  lemma HoldsInGrown(before: seq<Byte>, after: seq<Byte>, offset: nat, bytes: seq<Byte>)
    requires before <= after && Holds(before, offset, bytes)
    ensures Holds(after, offset, bytes)
  {
    assert after == before + after[|before|..];
    HoldsExtend(before, after[|before|..], offset, bytes);
  }

  lemma StoredInGrown(before: seq<seq<Byte>>, after: seq<seq<Byte>>, r: Record, s: SampleBytes)
    requires Grown(before, after) && Stored(before, r, s)
    ensures Stored(after, r, s)
  {
    hide Holds;
    HoldsInGrown(before[r.shardId], after[r.shardId], r.inputIds, s.inputIds);
    HoldsInGrown(before[r.shardId], after[r.shardId], r.attentionMask, s.attentionMask);
    HoldsInGrown(before[r.shardId], after[r.shardId], r.lossMask, s.lossMask);
    HoldsInGrown(before[r.shardId], after[r.shardId], r.hidden, s.hidden);
    HoldsInGrown(before[r.shardId], after[r.shardId], r.lastHidden, s.lastHidden);
  }

  /** After any sequence of writes every sample is still where its record says. */
  lemma {:induction false} WriteAllStores(samples: seq<SampleBytes>, limit: int, i: nat)
    requires i < |samples|
    ensures |WriteAll(samples, limit).index| == |samples|
    ensures WriteAll(samples, limit).index[i].sampleId == samples[i].sampleId
    ensures Stored(WriteAll(samples, limit).shards, WriteAll(samples, limit).index[i], samples[i])
  {
    hide Stored, Payload;
    var n := |samples| - 1;
    var before := WriteAll(samples[..n], limit);
    WriteAllCount(samples[..n], limit);
    if i < n {
      WriteAllStores(samples[..n], limit, i);
      WriteGrows(before, samples[n], limit);
      StoredInGrown(before.shards, WriteAll(samples, limit).shards, before.index[i], samples[i]);
    } else {
      PlacedIsStored(EnsureShard(before.shards, |Payload(samples[n])|, limit), samples[n]);
    }
  }

  lemma {:induction false} WriteAllCount(samples: seq<SampleBytes>, limit: int)
    ensures |WriteAll(samples, limit).index| == |samples|
    ensures |WriteAll(samples, limit).shards| <= |samples|
  {
    if samples != [] {
      WriteAllCount(samples[..|samples| - 1], limit);
    }
  }

  // ------------------------------------------------------------------ when all fields fit

  function TotalBytes(shards: seq<seq<Byte>>): nat {
    if shards == [] then 0 else TotalBytes(shards[..|shards| - 1]) + |LastOf(shards)|
  }

  function SampleTotal(samples: seq<SampleBytes>): nat {
    if samples == [] then 0 else SampleTotal(samples[..|samples| - 1]) + |Payload(samples[|samples| - 1])|
  }

  /** No byte is lost or added: the files together are as long as the payloads. */
  lemma {:induction false} WriteAllTotal(samples: seq<SampleBytes>, limit: int)
    ensures TotalBytes(WriteAll(samples, limit).shards) == SampleTotal(samples)
  {
    if samples != [] {
      var n := |samples| - 1;
      var before := WriteAll(samples[..n], limit);
      WriteAllTotal(samples[..n], limit);
      var shards := EnsureShard(before.shards, |Payload(samples[n])|, limit);
      assert TotalBytes(shards) == TotalBytes(before.shards) by {
        assert (before.shards + [[]])[..|before.shards|] == before.shards;
      }
      var after := AppendLast(shards, Payload(samples[n]));
      assert after[..|after| - 1] == shards[..|shards| - 1];
    }
  }

  lemma {:induction false} ShardAtMostTotal(shards: seq<seq<Byte>>, i: nat)
    requires i < |shards|
    ensures |shards[i]| <= TotalBytes(shards)
  {
    if i < |shards| - 1 {
      ShardAtMostTotal(shards[..|shards| - 1], i);
    }
  }

  /** The sizes the record format can express. */
  predicate Expressible(samples: seq<SampleBytes>) {
    && |samples| <= Limit(4) && SampleTotal(samples) < Limit(8)
    && forall i :: 0 <= i < |samples| ==> samples[i].seqLen < Limit(4) && samples[i].sampleId < Limit(8)
  }

  lemma RecordsInRange(samples: seq<SampleBytes>, limit: int, i: nat)
    requires Expressible(samples) && i < |samples|
    ensures |WriteAll(samples, limit).index| == |samples|
    ensures InRange(WriteAll(samples, limit).index[i])
  {
    hide Limit, WriteAll, TotalBytes, SampleTotal;
    var st := WriteAll(samples, limit);
    WriteAllStores(samples, limit, i);
    WriteAllCount(samples, limit);
    WriteAllTotal(samples, limit);
    ShardAtMostTotal(st.shards, st.index[i].shardId);
  }

  // ------------------------------------------------------------------ next-fit

  /** The samples that share a shard. */
  function Bytes(group: seq<SampleBytes>): seq<Byte> {
    if group == [] then [] else Bytes(group[..|group| - 1]) + Payload(group[|group| - 1])
  }

  function PlanNext(groups: seq<seq<SampleBytes>>, s: SampleBytes, limit: int): seq<seq<SampleBytes>> {
    if groups == [] || (|Bytes(groups[|groups| - 1])| > 0 && |Bytes(groups[|groups| - 1])| + |Payload(s)| > limit)
    then groups + [[s]]
    else groups[|groups| - 1 := groups[|groups| - 1] + [s]]
  }

  /** Next-fit packing, described on samples alone. */
  function Plan(samples: seq<SampleBytes>, limit: int): seq<seq<SampleBytes>> {
    if samples == [] then [] else PlanNext(Plan(samples[..|samples| - 1], limit), samples[|samples| - 1], limit)
  }

  lemma BytesAppend(group: seq<SampleBytes>, s: SampleBytes)
    ensures Bytes(group + [s]) == Bytes(group) + Payload(s)
  {
    assert (group + [s])[..|group|] == group;
  }

  ghost predicate FilesOf(shards: seq<seq<Byte>>, groups: seq<seq<SampleBytes>>) {
    |shards| == |groups| && forall i :: 0 <= i < |groups| ==> shards[i] == Bytes(groups[i])
  }

  lemma PlanStep(shards: seq<seq<Byte>>, groups: seq<seq<SampleBytes>>, s: SampleBytes, limit: int)
    requires FilesOf(shards, groups)
    ensures FilesOf(AppendLast(EnsureShard(shards, |Payload(s)|, limit), Payload(s)), PlanNext(groups, s, limit))
  {
    hide Payload, Bytes;
    EmptyGroup();
    BytesAppend([], s);
    assert [] + [s] == [s];
    if groups != [] {
      BytesAppend(groups[|groups| - 1], s);
    }
  }

  /** The shard files are the groups of the plan, in order. */
  lemma {:induction false} ShardsFollowPlan(samples: seq<SampleBytes>, limit: int)
    ensures FilesOf(WriteAll(samples, limit).shards, Plan(samples, limit))
  {
    hide FilesOf, PlanNext, AppendLast, Place, Payload, EnsureShard;
    if samples == [] {
      NoFiles();
    } else {
      var n := |samples| - 1;
      ShardsFollowPlan(samples[..n], limit);
      PlanStep(WriteAll(samples[..n], limit).shards, Plan(samples[..n], limit), samples[n], limit);
    }
  }

  lemma NoFiles()
    ensures FilesOf([], [])
  {}

  /** Every group is within the limit or holds a single sample, and the first sample of a group
      did not fit behind the group before it. */
  ghost predicate WellPacked(groups: seq<seq<SampleBytes>>, limit: int) {
    && (forall i :: 0 <= i < |groups| ==> |groups[i]| > 0 && |Bytes(groups[i])| > 0)
    && (forall i :: 0 <= i < |groups| ==> |Bytes(groups[i])| <= limit || |groups[i]| == 1)
    && (forall i :: 0 < i < |groups| && |groups[i]| > 0 ==> |Bytes(groups[i - 1])| + |Payload(groups[i][0])| > limit)
  }

  /** The rule of next-fit, for any samples: a sample goes behind the ones before it when their shard is
      empty or holds it within the limit, and opens a new shard otherwise. */
  ghost predicate FollowsRule(groups: seq<seq<SampleBytes>>, limit: int) {
    && (forall i :: 0 <= i < |groups| ==> |groups[i]| > 0)
    && (forall i, k :: 0 <= i < |groups| && 0 < k < |groups[i]| ==> Joins(groups[i][..k], groups[i][k], limit))
    && (forall i :: 0 <= i < |groups| - 1 && |groups[i + 1]| > 0 ==> !Joins(groups[i], groups[i + 1][0], limit))
  }

  predicate Joins(group: seq<SampleBytes>, s: SampleBytes, limit: int) {
    |Bytes(group)| == 0 || |Bytes(group)| + |Payload(s)| <= limit
  }

  function Concat(groups: seq<seq<SampleBytes>>): seq<SampleBytes> {
    if groups == [] then [] else Concat(groups[..|groups| - 1]) + groups[|groups| - 1]
  }

  lemma ConcatLast(groups: seq<seq<SampleBytes>>, s: SampleBytes)
    ensures Concat(groups + [[s]]) == Concat(groups) + [s]
    ensures groups != [] ==> Concat(groups[|groups| - 1 := groups[|groups| - 1] + [s]]) == Concat(groups) + [s]
  {
    assert (groups + [[s]])[..|groups|] == groups;
    if groups != [] {
      var n := |groups| - 1;
      assert groups[n := groups[n] + [s]][..n] == groups[..n];
    }
  }

  lemma RuleStep(groups: seq<seq<SampleBytes>>, s: SampleBytes, limit: int)
    requires FollowsRule(groups, limit)
    ensures FollowsRule(PlanNext(groups, s, limit), limit)
  {
    hide Payload, Bytes;
    EmptyGroup();
    if groups != [] {
      var last := groups[|groups| - 1];
      assert (last + [s])[..|last|] == last && (last + [s])[0] == last[0];
      assert forall k :: 0 < k < |last| ==> (last + [s])[..k] == last[..k];
    }
  }

  /** The plan holds the samples in order and follows the rule. */
  lemma {:induction false} PlanIsNextFit(samples: seq<SampleBytes>, limit: int)
    ensures FollowsRule(Plan(samples, limit), limit) && Concat(Plan(samples, limit)) == samples
  {
    hide FollowsRule, Concat;
    if samples == [] {
      NoGroups(limit);
    } else {
      var n := |samples| - 1;
      PlanIsNextFit(samples[..n], limit);
      RuleStep(Plan(samples[..n], limit), samples[n], limit);
      ConcatLast(Plan(samples[..n], limit), samples[n]);
    }
  }

  lemma NoGroups(limit: int)
    ensures FollowsRule([], limit) && Concat([]) == []
  {}

  lemma {:induction false} NextFit(samples: seq<SampleBytes>, limit: int)
    requires forall i :: 0 <= i < |samples| ==> |Payload(samples[i])| > 0
    ensures WellPacked(Plan(samples, limit), limit)
  {
    hide Payload, Bytes;
    if samples != [] {
      var n := |samples| - 1;
      NextFit(samples[..n], limit);
      var groups, s := Plan(samples[..n], limit), samples[n];
      EmptyGroup();
      BytesAppend([], s);
      assert [] + [s] == [s];
      if groups != [] && !(|Bytes(groups[|groups| - 1])| > 0 && |Bytes(groups[|groups| - 1])| + |Payload(s)| > limit) {
        BytesAppend(groups[|groups| - 1], s);
        assert (groups[|groups| - 1] + [s])[0] == groups[|groups| - 1][0];
      }
    }
  }

  lemma EmptyGroup()
    ensures Bytes([]) == []
  {}

  lemma {:induction false} FirstOfGroup(group: seq<SampleBytes>)
    requires group != []
    ensures |Payload(group[0])| <= |Bytes(group)|
  {
    hide Payload;
    if |group| > 1 {
      FirstOfGroup(group[..|group| - 1]);
    }
  }

  /** Two adjacent shards together exceed the limit. */
  lemma AdjacentShards(samples: seq<SampleBytes>, limit: int, i: nat)
    requires forall j :: 0 <= j < |samples| ==> |Payload(samples[j])| > 0
    requires i + 1 < |WriteAll(samples, limit).shards|
    ensures |WriteAll(samples, limit).shards[i]| + |WriteAll(samples, limit).shards[i + 1]| > limit
  {
    hide Payload, Bytes, WriteAll, Plan;
    NextFit(samples, limit);
    ShardsFollowPlan(samples, limit);
    FirstOfGroup(Plan(samples, limit)[i + 1]);
  }

  lemma {:induction false} PairsExceed(shards: seq<seq<Byte>>, limit: int)
    requires forall i :: 0 <= i < |shards| - 1 ==> |shards[i]| + |shards[i + 1]| > limit
    ensures TotalBytes(shards) >= Mul(|shards| / 2, limit + 1)
  {
    hide Mul;
    var n := |shards|;
    if n < 2 {
      MulLaws(limit + 1, 0, 0);
    } else {
      PairsExceed(shards[..n - 2], limit);
      assert shards[..n - 1][..n - 2] == shards[..n - 2];
      assert |shards[n - 2]| + |shards[n - 2 + 1]| > limit;
      MulLaws((n - 2) / 2, 1, limit + 1);
      MulLaws(limit + 1, 0, 0);
    }
  }

  /** With at least two shards, half as many full limits are less than the bytes written. */
  lemma HalfFull(samples: seq<SampleBytes>, limit: int)
    requires forall j :: 0 <= j < |samples| ==> |Payload(samples[j])| > 0
    requires |WriteAll(samples, limit).shards| >= 2
    ensures Mul(|WriteAll(samples, limit).shards| / 2, limit) < SampleTotal(samples)
  {
    hide Mul, WriteAll, SampleTotal, TotalBytes, Payload;
    var shards := WriteAll(samples, limit).shards;
    forall i | 0 <= i < |shards| - 1
      ensures |shards[i]| + |shards[i + 1]| > limit
    {
      AdjacentShards(samples, limit, i);
    }
    PairsExceed(shards, limit);
    WriteAllTotal(samples, limit);
    MulLaws(limit, 1, |shards| / 2);
    MulLaws(|shards| / 2, 0, 0);
  }

  // ------------------------------------------------------------------ the writer object

  const INDEX_FILE: string := "samples.local.idx"

  function LocalShardFile(id: nat): string {
    ShardFile("shard-local-", id)
  }

  lemma LocalNames(a: nat, b: nat)
    ensures LocalShardFile(a) == LocalShardFile(b) ==> a == b
    ensures LocalShardFile(a) != INDEX_FILE
  {
    hide Padded, Digits;
    var name := LocalShardFile(a);
    assert name[|name| - 1] == 'n';
    assert INDEX_FILE[|INDEX_FILE| - 1] == 'x';
    if LocalShardFile(a) == LocalShardFile(b) {
      ShardFileInjective("shard-local-", a, b);
    }
  }

  lemma NamesDistinct()
    ensures forall a: nat, b: nat :: LocalShardFile(a) == LocalShardFile(b) ==> a == b
    ensures forall a: nat :: LocalShardFile(a) != INDEX_FILE
  {
    forall a: nat, b: nat
      ensures LocalShardFile(a) == LocalShardFile(b) ==> a == b
      ensures LocalShardFile(a) != INDEX_FILE
    {
      LocalNames(a, b);
    }
  }

  class LocalCacheWriter {
    const maxShardBytes: int
    var files: map<string, seq<Byte>>
    var currentShardId: int
    var currentShardSize: nat
    var localShardFiles: seq<string>
    var numLocalSamples: nat

    /** What has been written so far. */
    ghost var store: Store

    ghost predicate Valid()
      reads this
    {
      && currentShardId == |store.shards| - 1
      && (store.shards != [] ==> currentShardSize == |LastOf(store.shards)|)
      && |localShardFiles| == |store.shards|
      && (forall i :: 0 <= i < |store.shards| ==>
            localShardFiles[i] == LocalShardFile(i) && LocalShardFile(i) in files
            && files[LocalShardFile(i)] == store.shards[i])
      && INDEX_FILE in files && files[INDEX_FILE] == IndexBytes(store.index)
      && numLocalSamples == |store.index|
    }

    constructor (maxShardBytes: int)
      ensures Valid() && store == EMPTY && this.maxShardBytes == maxShardBytes
    {
      this.maxShardBytes := maxShardBytes;
      files := map[INDEX_FILE := []];
      currentShardId, currentShardSize, localShardFiles, numLocalSamples := -1, 0, [], 0;
      store := EMPTY;
    }

    /** _ensure_shard and _open_new_shard. */
    method EnsureOpenShard(nbytes: nat)
      requires Valid()
      modifies this
      ensures Valid() && store == Store(EnsureShard(old(store).shards, nbytes, maxShardBytes), old(store).index)
    {
      hide Digits, Padded, IndexBytes, LocalShardFile;
      if currentShardId < 0 || (currentShardSize > 0 && currentShardSize + nbytes > maxShardBytes) {
        NamesDistinct();
        currentShardId := currentShardId + 1;
        var name := LocalShardFile(currentShardId);
        files := files[name := []];
        currentShardSize := 0;
        localShardFiles := localShardFiles + [name];
        store := Store(store.shards + [[]], store.index);
      }
    }

    /** One write to the current shard; the offset it starts at is returned. */
    method Append(bytes: seq<Byte>) returns (offset: nat)
      requires Valid() && store.shards != []
      modifies this
      ensures Valid() && store == Store(AppendLast(old(store).shards, bytes), old(store).index)
      ensures offset == |LastOf(old(store).shards)|
    {
      hide Digits, Padded, IndexBytes, LocalShardFile;
      NamesDistinct();
      offset := currentShardSize;
      var name := LocalShardFile(currentShardId);
      files := files[name := files[name] + bytes];
      currentShardSize := currentShardSize + |bytes|;
      store := Store(AppendLast(store.shards, bytes), store.index);
    }

    /** The five tensor writes, in file order. */
    method AppendTensors(s: SampleBytes) returns (record: Record)
      requires Valid() && store.shards != []
      modifies this
      ensures Valid() && store == Store(AppendLast(old(store).shards, Payload(s)), old(store).index)
      ensures record == Place(old(store).shards, s)
    {
      hide Valid, Payload;
      ghost var shards := store.shards;
      var inputIds := Append(s.inputIds);
      var attentionMask := Append(s.attentionMask);
      var lossMask := Append(s.lossMask);
      var hidden := Append(s.hidden);
      var lastHidden := Append(s.lastHidden);
      FiveAppends(shards, s);
      var id := ShardId();
      record := Record(s.sampleId, id, s.seqLen, inputIds, attentionMask, lossMask, hidden, lastHidden);
    }

    method ShardId() returns (id: nat)
      requires Valid() && store.shards != []
      ensures id == |store.shards| - 1
    {
      id := currentShardId;
    }

    /** write_sample_bytes.  A record field that does not fit raises after the tensors are
        written, and then no index record is added. */
    method WriteSampleBytes(s: SampleBytes) returns (ok: bool)
      requires Valid()
      modifies this
      ensures Valid()
      ensures ok <==> Fits(old(store), s, maxShardBytes)
      ensures ok ==> store == Write(old(store), s, maxShardBytes)
      ensures !ok ==> store == Store(Write(old(store), s, maxShardBytes).shards, old(store).index)
    {
      hide Digits, Padded, IndexBytes, LocalShardFile, RecordBytes, Limit;
      EnsureOpenShard(|s.inputIds| + |s.attentionMask| + |s.lossMask| + |s.hidden| + |s.lastHidden|);
      var record := AppendTensors(s);
      var packed := PackRecord(record);
      ok := packed.Some?;
      if ok {
        NamesDistinct();
        IndexAppend(store.index, record);
        files := files[INDEX_FILE := files[INDEX_FILE] + packed.value];
        numLocalSamples := numLocalSamples + 1;
        store := Store(store.shards, store.index + [record]);
      }
    }
  }

  lemma FiveAppends(shards: seq<seq<Byte>>, s: SampleBytes)
    requires shards != []
    ensures var a := AppendLast(shards, s.inputIds);
            var b := AppendLast(a, s.attentionMask);
            var c := AppendLast(b, s.lossMask);
            var d := AppendLast(c, s.hidden);
            AppendLast(d, s.lastHidden) == AppendLast(shards, Payload(s))
  {
    var before := LastOf(shards);
    assert before + s.inputIds + s.attentionMask + s.lossMask + s.hidden + s.lastHidden == before + Payload(s);
  }
}
