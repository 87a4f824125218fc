# Verified models of DeepSpec's decoding, cache and training core

Dafny models of the parts of DeepSpec that carry its correctness, with proofs about them, and of two
small algorithms: the config scanner of the FLOP tools and the span layout of sglang's trace converter.
`dafny verify dfyconfig.toml` checks the whole project.

**Speculative decoding.** `Rows`, `Sampling`, `Logits`, `Verdicts`, `Lossless` and `Decoding` model one
verification round and the whole generation loop. The target is a function from a token prefix to logits,
the proposer is an arbitrary function, and the random draws are explicit. `Decoding` is the imperative
loop over the token buffer and the key/value cache: for every proposer and every draw it returns, at low
temperature, exactly the text of argmax decoding; at any temperature the text is the one the target rows
and draws lead to, round by round. `Lossless` is the same loop as an expectation: the whole block is
drafted, every position is kept or not by an independent draw, the verdict is taken, a replacement or
bonus token is drawn, and the loop goes on. Without the two floors of 1e-8 its law is exactly that of
plain sampling, and with them it is within (V/2 + 2) 1e-8 per generated token. That the floors make the
law inexact is shown by a concrete pair of rows, together with the exact condition on the rows under
which a position is exact. `Coupling` ties the two descriptions of a round together: for given draws a
turn of the imperative loop is exactly the branch that these draws select, and each choice is a draw
falling into an interval as long as its probability. `Metrics` covers the counters and rates of an
evaluation.

**Target cache.** `IndexFormat`, `CacheWriter`, `AsyncWriter`, `CacheBuild`, `CacheIndex`, `CacheReader`
and `CachePipeline` follow a sample from the source to a read: the slices of the ranks, the filter, the
next-fit shard writer, the writer thread behind a bounded queue, the renames of all ranks in any
interleaving, the merge of the local indexes, the manifest, and lookups through a table of open shards.
`CachePipeline.EndToEnd` and `FinishAndRead` are the end-to-end statements: from the asynchronous
writers of all ranks to a lookup in the directory opened through the manifest the build wrote.

**Training schedule.** `Sampler` and `Training` model the stateless sampler, the batch schedule, the
one-ahead prefetcher, checkpoints, suspensions and crashes. The content of an optimizer step does not
depend on the world size or the local batch size, and a run that is interrupted any number of times
trains on the same micro-batches as one that is not.

**Others.** `LineIndex` is the JSONL line index, `Scanner` the bracket, string and comment scanner with
a printer for nested literals, `SpanLayout` the allocation of trace spans to lines, for arbitrary spans.
`Arith` holds the integer arithmetic, `Options` the optional values.

Code that changes state step by step is modelled by classes and methods with loops, each proved against
a specification function or predicate; protocols between threads or processes are transition systems
whose steps interleave arbitrarily; everything else is functions and lemmas.

Where the code and its comments or promises differ, the model follows the code:

- With `max_new_tokens = 0` a first token that is a stop token is still returned
  (`GenerateDecodingSample` states both cases).
- A sample written to the asynchronous writer after `close` is accepted and lost (`LateWriteIsLost`);
  `ClosedWriter` says exactly when nothing is lost. Once the queue is full such a write hangs
  (`LateWriteHangs`).
- The manifest builder does not sort the layer ids which the validator wants ascending
  (`ManifestValidates` is an equivalence).
- With `max_open_shards = 0` the shard just opened is evicted before it is used (`GetShard`, `GetItem`).
- The residual fallback and the floored quotient make the sampled law inexact for some rows
  (`FloorIsNotLossless`, `EmittedExactly`).
- An empty trace span is placed on the line of its request without an overlap check and then hides a
  longer span from its neighbours (`EmptySpanExample`). Spans stay disjoint exactly when none is empty
  (`DisjointIffNoneEmpty`), and lines are opened only when needed exactly when all spans are proper,
  neither empty nor inverted (`ThriftyIffAllProper`); for one line, `MissesNothing` and `CriesNoWolf`
  say exactly when the two-neighbour check is complete and when it is sound.

## Model

| member | source | states |
|---|---|---|
| `Sampling.ArgMax` | DeepSpec/deepspec/utils/sampling.py:6-11 | the first index of a largest logit: no entry is larger, every earlier one is smaller |
| `Logits.ColdRow` | DeepSpec/deepspec/utils/sampling.py:7-10 | below temperature 1e-5 all weight is on the first of the largest logits |
| `Logits.WarmRow` | DeepSpec/deepspec/utils/sampling.py:11-11 | from temperature 1e-5 on the row is a distribution in which every token has weight, and two tokens are as likely as the exponentials of their logits over the temperature |
| `Logits.RatioLawIsSoftmax` | DeepSpec/deepspec/utils/sampling.py:11-11 | that ratio law has one solution of mass one, the softmax row |
| `Logits.SoftmaxKeepsOrder` | DeepSpec/deepspec/utils/sampling.py:11-11 | a token is more likely exactly when its logit is larger |
| `Logits.SoftmaxIgnoresShift` | DeepSpec/deepspec/utils/sampling.py:11-11 | adding one number to all logits changes nothing |
| `Sampling.KeepBounds` | DeepSpec/deepspec/eval/base_evaluator.py:288-295 | the floor under the draft probability costs a token at most eps/4 of min(p, q), and costs it something if and only if both of its probabilities lie strictly between 0 and the floor |
| `Sampling.KeptIff` | DeepSpec/deepspec/eval/base_evaluator.py:288-296 | a draw u keeps a drafted token if and only if u times the floored draft probability is below the target probability |
| `Sampling.ResidualIsDistribution` | DeepSpec/deepspec/utils/sampling.py:34-44 | the replacement row is a distribution: the target row when the excess mass is at most the floor, else the excess rescaled to mass one |
| `Sampling.EmittedLaw` | DeepSpec/deepspec/eval/base_evaluator.py:281-325 | for every vocabulary size V and all rows p, q the token that leaves a position is distributed within (V/2 + 2) eps of p in L1 norm |
| `Sampling.EmittedExactly` | DeepSpec/deepspec/utils/sampling.py:38-44 | the emitted law equals the target row if and only if what the floors take from each token is proportional to what the replacement row gives back |
| `Sampling.ExactWithoutTinyTokens` | DeepSpec/deepspec/eval/base_evaluator.py:284-298 | without a token that is below the floor in both rows, and with excess mass above the floor or zero, the emitted law is exactly the target row |
| `Sampling.ExactUnderGuards` | DeepSpec/deepspec/utils/sampling.py:38-44 | without tiny tokens the law is exact if and only if the excess mass m is 0, or above the floor, or q = (1 - m) p wherever p has weight |
| `Sampling.FloorIsNotLossless` | DeepSpec/deepspec/utils/sampling.py:40-42 | two concrete rows for which the program's floor of 1e-8 makes the emitted law differ from the target row |
| `Verdicts.FirstStop` | DeepSpec/deepspec/eval/base_evaluator.py:311-313 | the position of the first stop token, or the length when there is none |
| `Verdicts.CountAccepted` | DeepSpec/deepspec/eval/base_evaluator.py:296-298 | the length of the longest prefix of kept positions |
| `Verdicts.Judge` | DeepSpec/deepspec/eval/base_evaluator.py:302-316 | a kept stop token ends the block right after itself; otherwise all leading kept tokens are accepted and none of them is a stop token |
| `Verdicts.JudgeAtStop` | DeepSpec/deepspec/eval/base_evaluator.py:304-316 | whenever everything up to the first stop token is kept, the block is cut there, whatever the later draws say |
| `Lossless.DrawFirst` | DeepSpec/deepspec/eval/base_evaluator.py:281-298 | averaging over drafts and then draws equals taking the draw of an already drafted position first, although the whole block is drafted before any draw |
| `Lossless.DraftClose` | DeepSpec/deepspec/eval/base_evaluator.py:281-333 | with a kept, stop-free draft prefix, the rest of the round and of the run is worth what plain sampling is worth after that prefix, up to the error budget |
| `Lossless.RunClose` | DeepSpec/deepspec/eval/base_evaluator.py:425-471 | the loop from any committed text and any history is worth what plain sampling is worth from there, up to beta per token still to come |
| `Lossless.GenerateClose` | DeepSpec/deepspec/eval/base_evaluator.py:394-481 | a whole run, for every target, proposer, stop set and bounded payoff, is within beta per generated token but the first of plain autoregressive sampling |
| `Lossless.NumericBound` | DeepSpec/deepspec/eval/base_evaluator.py:284-298 | with the program's floors the distance is at most (V/2 + 2) eps per generated token but the first |
| `Lossless.LastToken` | DeepSpec/deepspec/eval/base_evaluator.py:281-333 | with one token to go and a block drafted for it, the last token has exactly the emitted law of its position |
| `Lossless.RunIsNotLossless` | DeepSpec/deepspec/utils/sampling.py:40-42 | a concrete run of two tokens whose law the floors change |
| `Lossless.ExactRun` | DeepSpec/deepspec/eval/base_evaluator.py:281-333 | when every pair of target and draft rows is balanced, a run has exactly the law of plain sampling |
| `Lossless.LosslessRun` | DeepSpec/deepspec/eval/base_evaluator.py:281-333 | in exact arithmetic without the floors speculative decoding is lossless, for every proposer and block length |
| `Lossless.PlainLikelihood` | DeepSpec/deepspec/eval/base_evaluator.py:347-481 | plain sampling returns a text with the product of the target's conditional probabilities |
| `Lossless.ProbabilityOfText` | DeepSpec/deepspec/eval/base_evaluator.py:347-481 | the probability that a run returns a given text is the product of the target's conditional probabilities: exactly without the floors, within the numeric bound with them |
| `Coupling.BranchIsOutcome` | DeepSpec/deepspec/eval/base_evaluator.py:327-344 | the averaged loop is worth on a branch what the tokens of that branch are worth |
| `Coupling.VerifiesIffSelects` | DeepSpec/deepspec/eval/base_evaluator.py:281-325 | for given draws, a verification result of a drafted block is possible if and only if the draws select that branch of the averaged loop |
| `Coupling.FollowsIffSelects` | DeepSpec/deepspec/eval/base_evaluator.py:426-469 | one turn of the decoding loop leads to exactly the tokens of the branch that the draws select, and to no others |
| `Coupling.PickInterval` | DeepSpec/deepspec/utils/sampling.py:14-17 | a draw picks a token if and only if it falls into an interval as long as the token's weight |
| `Coupling.KeepInterval` | DeepSpec/deepspec/eval/base_evaluator.py:292-296 | a draw keeps a drafted token if and only if it falls into an interval as long as the token's acceptance probability |
| `Decoding.SomeTargetIsProper` | DeepSpec/deepspec/utils/sampling.py:6-11 | the laws demanded of a target can be met |
| `Decoding.SampleFromProbs` | DeepSpec/deepspec/utils/sampling.py:14-17 | the draw, scaled by the mass, falls into the interval of the returned token, which has positive weight |
| `Decoding.KvCache.Forward` | DeepSpec/deepspec/eval/base_evaluator.py:257-263 | one row per input token, each conditioned on the cached tokens and the inputs up to itself; the cache grows by the inputs |
| `Decoding.KvCache.Crop` | DeepSpec/deepspec/eval/base_evaluator.py:458-465 | the cache keeps its first tokens and nothing else |
| `Decoding.PicksOne` | DeepSpec/deepspec/utils/sampling.py:14-17 | a draw picks at most one token |
| `Decoding.SomeDrawPicks` | DeepSpec/deepspec/utils/sampling.py:14-17 | every token with weight is picked by some draw |
| `Decoding.FirstTokenIsPicked` | DeepSpec/deepspec/eval/base_evaluator.py:394-397 | the first generated token is the one that the first draw picks from the row after the prompt |
| `Decoding.AnyFirstToken` | DeepSpec/deepspec/eval/base_evaluator.py:394-397 | from temperature 1e-5 on every token of the vocabulary is the first generated token for some draw, whatever the proposer and the later draws |
| `Decoding.VerifyDraftTokens` | DeepSpec/deepspec/eval/base_evaluator.py:226-344 | succeeds if and only if the proposal is admissible and otherwise names the first check that fails; the mask, the verdict and the next token are those of the rows and draws of the round; the cache has grown exactly when the target was called |
| `Decoding.GreedyVerification` | DeepSpec/deepspec/eval/base_evaluator.py:281-325 | below temperature 1e-5 a position is kept if and only if its token is the argmax, and the next token is the argmax, for all draft rows and all draws |
| `Decoding.CommitRound` | DeepSpec/deepspec/eval/base_evaluator.py:451-462 | the accepted tokens, and the next one unless the run ended, replace the buffer from start on |
| `Decoding.CommitRoundKeeps` | DeepSpec/deepspec/eval/base_evaluator.py:447-469 | a verified round keeps the committed text free of inner stop tokens and, at low temperature, greedy |
| `Decoding.DecodeRound` | DeepSpec/deepspec/eval/base_evaluator.py:426-469 | one turn of the loop: the text is extended by exactly the verified tokens, the cache again holds exactly the tokens before start, every slice is in bounds |
| `Decoding.DecodeLoop` | DeepSpec/deepspec/eval/base_evaluator.py:425-471 | at every loop head the cache is the buffer before start, start is the prompt length plus the sum of acceptance lengths, writes stay in the buffer, and the loop terminates; the text is the one the draws lead to |
| `Decoding.GreedyTextIsUnique` | DeepSpec/deepspec/eval/base_evaluator.py:425-481 | a greedy text that ends at its only stop token or at the limit is the text of plain argmax decoding |
| `Decoding.TrimIsFirstStop` | DeepSpec/deepspec/eval/base_evaluator.py:98-112 | the trimmed ids are a prefix that ends right after the first stop token behind the prompt, or all |
| `Decoding.TrimChangesNothing` | DeepSpec/deepspec/eval/base_evaluator.py:98-112 | trimming a text with no inner stop token is the identity |
| `Decoding.FinalText` | DeepSpec/deepspec/eval/base_evaluator.py:471-481 | cutting the committed tokens at the limit leaves no inner stop token and, at low temperature, the text of plain argmax decoding |
| `Decoding.GenerateDecodingSample` | DeepSpec/deepspec/eval/base_evaluator.py:347-481 | never raises on admissible proposals; the returned text follows round by round from the target rows and draws, the three lists record the rounds, a stop token occurs only last, the number of tokens is min(1 + sum of acceptance lengths, max_new_tokens), or with a limit of 0 one exactly when the first token is a stop token; at low temperature the text is plain argmax decoding for every proposer and every draw |
| `Metrics.CountPositions` | DeepSpec/deepspec/eval/base_evaluator.py:644-648 | each position counter grows by one exactly when the length reaches past it |
| `Metrics.AddResponse` | DeepSpec/deepspec/eval/base_evaluator.py:617-648 | the counters grow by the contribution of the response, defined by sums and counts over its lists |
| `Metrics.LocalMetrics` | DeepSpec/deepspec/eval/base_evaluator.py:604-648 | the counters of a rank are the total over its responses |
| `Metrics.RunDataset` | DeepSpec/deepspec/eval/base_evaluator.py:580-598 | a rank answers exactly the indexes congruent to its rank, in order |
| `Metrics.ReducedSummary` | DeepSpec/deepspec/eval/base_evaluator.py:650-680 | the sum over ranks is the summary of a single process, for every number of ranks |
| `Metrics.HistogramSum` | DeepSpec/deepspec/eval/base_evaluator.py:644-648 | the counts per position of a list of lengths add up to the lengths |
| `Metrics.TotalConserved` | DeepSpec/deepspec/eval/base_evaluator.py:635-648 | position counts add up to the length totals, acceptances never exceed proposals, both are nonincreasing in the position |
| `Metrics.CountAboveIs` | DeepSpec/deepspec/eval/base_evaluator.py:644-648 | a position counter is the number of rounds whose length reaches past the position |
| `Metrics.TotalIs` | DeepSpec/deepspec/eval/base_evaluator.py:604-648 | the summary counts samples, rounds, acceptance and proposal lengths and positions over the rounds of all responses |
| `Metrics.RowIsAverages` | DeepSpec/deepspec/eval/base_evaluator.py:515-551 | the averages times the number of rounds are the totals, and the rate of a position times its proposals is its acceptances; without rounds everything is zero |
| `Metrics.RatesAreProportions` | DeepSpec/deepspec/eval/base_evaluator.py:509-551 | every reported rate lies between 0 and 1, a position has a rate if and only if it was proposed, and the verify rate times a full round (drafts + 1) is the acceptance length |
| `IndexFormat.DecodeEncode` | DeepSpec/deepspec/data/target_cache_dataset.py:21-22 | decoding a little-endian number undoes encoding it |
| `IndexFormat.EncodeDecode` | DeepSpec/deepspec/data/target_cache_dataset.py:21-22 | encoding undoes decoding, and every byte string decodes to a number in range |
| `IndexFormat.EncodeAt` | DeepSpec/deepspec/data/target_cache_dataset.py:21-22 | byte k of a number is n / 256^k mod 256: little-endian |
| `IndexFormat.FieldsOfRecord` | DeepSpec/deepspec/data/target_cache_dataset.py:77-97 | where each field lies in the 56 bytes of a record |
| `IndexFormat.UnpackPacked` | DeepSpec/deepspec/data/target_cache_dataset.py:77-120 | unpacking undoes packing at any offset of any buffer, for in-range fields |
| `IndexFormat.PackUnpacked` | DeepSpec/deepspec/data/target_cache_dataset.py:77-120 | packing undoes unpacking: every 56 bytes are some in-range record |
| `IndexFormat.IndexAt` | DeepSpec/deepspec/data/target_cache_dataset.py:697-705 | record i of an index file is read back at byte 56 i |
| `IndexFormat.ShardFileInjective` | DeepSpec/deepspec/data/target_cache_dataset.py:335-335 | different shard ids have different zero-padded file names, also beyond five digits |
| `IndexFormat.PaddedIs` | DeepSpec/deepspec/data/target_cache_dataset.py:335-335 | the id in a file name is written in decimal with at least five digits, and with more only when it has them |
| `CacheBuild.ShardNames` | DeepSpec/deepspec/data/target_cache_dataset.py:524-536 | local and global shard files carry their id in decimal with at least five digits |
| `CacheWriter.LocalCacheWriter.EnsureOpenShard` | DeepSpec/deepspec/data/target_cache_dataset.py:329-349 | a shard is opened when there is none or when the current one is not empty and would exceed the limit; files and counters agree with the store |
| `CacheWriter.LocalCacheWriter.Append` | DeepSpec/deepspec/data/target_cache_dataset.py:360-374 | the bytes are added to the current shard at the returned offset; nothing else changes |
| `CacheWriter.LocalCacheWriter.WriteSampleBytes` | DeepSpec/deepspec/data/target_cache_dataset.py:351-387 | the shard bytes and the index record are those of the specification; a field that does not fit leaves the bytes but adds no record |
| `CacheWriter.WriteAllStores` | DeepSpec/deepspec/data/target_cache_dataset.py:351-387 | after any sequence of writes every sample's five tensors are still where its record says |
| `CacheWriter.WriteAllTotal` | DeepSpec/deepspec/data/target_cache_dataset.py:351-387 | the shard files together hold exactly as many bytes as the payloads |
| `CacheWriter.RecordsInRange` | DeepSpec/deepspec/data/target_cache_dataset.py:375-386 | every record fits the format when counts and totals do |
| `CacheWriter.ShardsFollowPlan` | DeepSpec/deepspec/data/target_cache_dataset.py:341-387 | the shard files are the groups of a next-fit packing of the samples, in order |
| `CacheWriter.PlanIsNextFit` | DeepSpec/deepspec/data/target_cache_dataset.py:341-349 | the groups hold the samples in order; a sample joins the last group exactly when that is empty of bytes or stays within the limit |
| `CacheWriter.NextFit` | DeepSpec/deepspec/data/target_cache_dataset.py:341-349 | each shard is within the limit or holds one sample, and the first sample of a shard did not fit behind the shard before it |
| `CacheWriter.AdjacentShards` | DeepSpec/deepspec/data/target_cache_dataset.py:341-349 | two adjacent shards together exceed the limit |
| `CacheWriter.HalfFull` | DeepSpec/deepspec/data/target_cache_dataset.py:329-387 | with S >= 2 shards, floor(S/2) times the limit is less than the bytes written |
| `AsyncWriter.NextKeepsInv` | DeepSpec/deepspec/data/target_cache_dataset.py:438-502 | every step of producer and writer thread keeps the invariant |
| `AsyncWriter.InOrder` | DeepSpec/deepspec/data/target_cache_dataset.py:438-502 | in every unfailed state of every run, also while and after close joins, samples written, in flight and queued are the submitted ones in order |
| `AsyncWriter.CloseIsComplete` | DeepSpec/deepspec/data/target_cache_dataset.py:490-502 | when close returns normally every submitted sample is written, the files are those of the synchronous writer and every record fits the format |
| `AsyncWriter.CloseEndsOnlySo` | DeepSpec/deepspec/data/target_cache_dataset.py:490-502 | close ends in one of three ways: at once when already closed, in the put loop, or after the join |
| `AsyncWriter.CloseRaisesIffFailed` | DeepSpec/deepspec/data/target_cache_dataset.py:490-502 | at every one of these exits close raises if and only if the writer thread failed; the lost-samples assertion never fires by itself |
| `AsyncWriter.FailureIsSticky` | DeepSpec/deepspec/data/target_cache_dataset.py:448-459 | a failure is never forgotten |
| `AsyncWriter.ClosedWriter` | DeepSpec/deepspec/data/target_cache_dataset.py:490-502 | a closed writer without failure has written exactly the samples submitted before close, so nothing is lost if and only if nothing was written after it |
| `AsyncWriter.LateWriteIsLost` | DeepSpec/deepspec/data/target_cache_dataset.py:470-493 | a run in which a sample written after close is lost although close returns normally again |
| `AsyncWriter.LateWriteHangs` | DeepSpec/deepspec/data/target_cache_dataset.py:461-468 | after close, a write to a full bounded queue neither returns nor raises, ever |
| `AsyncWriter.LateWriteCanHang` | DeepSpec/deepspec/data/target_cache_dataset.py:461-493 | a run that reaches such a state |
| `AsyncWriter.NoDeadlock` | DeepSpec/deepspec/data/target_cache_dataset.py:461-497 | before close has joined no call waits for nothing: while joining the thread has a step or is dead; in the put loop the thread has a step, or it failed, or there is room |
| `AsyncWriter.FailedCheckRaises` | DeepSpec/deepspec/data/target_cache_dataset.py:457-463 | at the check of the put loop a failure of the thread ends the call with an error |
| `AsyncWriter.WriteOutcome` | DeepSpec/deepspec/data/target_cache_dataset.py:461-488 | a call of write returns and has submitted exactly its sample, or raises because the thread failed and has submitted nothing; a call that starts after a failure raises |
| `AsyncWriter.SubmittedAfterFailure` | DeepSpec/deepspec/data/target_cache_dataset.py:457-468 | after a failure at most the one put that has passed its check is still submitted |
| `AsyncWriter.QueueIsBounded` | DeepSpec/deepspec/data/target_cache_dataset.py:423-423 | the queue never holds more than its bound |
| `AsyncWriter.FailuresAreFree` | DeepSpec/deepspec/data/target_cache_dataset.py:438-455 | any write and the closing of the files can fail, and a record that does not fit makes the write fail |
| `AsyncWriter.CallsAreFree` | DeepSpec/deepspec/data/target_cache_dataset.py:470-502 | between calls any next sample can be written and the writer can be closed |
| `AsyncWriter.ClosedRun` | DeepSpec/deepspec/data/target_cache_dataset.py:410-502 | any numbered samples whose records fit can be written and the writer closed normally, with any bound on the queue |
| `AsyncWriter.JoinTerminates` | DeepSpec/deepspec/data/target_cache_dataset.py:438-456 | while close joins every step uses up work of the thread, so close ends after at most as many steps as there is work |
| `AsyncWriter.PutTerminates` | DeepSpec/deepspec/data/target_cache_dataset.py:461-468 | a call in the put loop sees at most as many thread steps as there is work |
| `CacheBuild.RangesPartition` | DeepSpec/deepspec/data/target_cache_dataset.py:231-236 | the ranges of the ranks are adjacent and cover the source |
| `CacheBuild.RangeSizes` | DeepSpec/deepspec/data/target_cache_dataset.py:231-236 | the ranges differ in length by at most one, the longer ones first |
| `CacheBuild.KeptIs` | DeepSpec/scripts/data/prepare_target_cache.py:284-327 | as many samples are kept as the collator keeps, and each kept source sample stands once, at the position given by the number of kept ones before it |
| `CacheBuild.KeptByAll` | DeepSpec/scripts/data/prepare_target_cache.py:243-273 | the ranks together keep exactly what one process would keep, in source order |
| `CacheBuild.PrepareRank` | DeepSpec/scripts/data/prepare_target_cache.py:280-348 | whatever the batch size, writing the kept samples batch by batch leaves the files of writing them in order with ids 0, 1, 2, ...; it fails if and only if a record does not fit the format |
| `CacheBuild.SortFacts` | DeepSpec/deepspec/data/target_cache_dataset.py:514-517 | the ranks are merged by first source sample, none lost or added |
| `CacheBuild.BuildShardMap` | DeepSpec/deepspec/data/target_cache_dataset.py:510-529 | for summaries in any order, the shards get consecutive global ids and names in merge order |
| `CacheBuild.ShardIdUnique` | DeepSpec/deepspec/data/target_cache_dataset.py:518-528 | a global shard id belongs to one local shard of one rank |
| `CacheBuild.RenameKeepsInv` | DeepSpec/deepspec/data/target_cache_dataset.py:532-537 | a rename by any rank keeps every shard at its source or target, and its target did not exist |
| `CacheBuild.NothingOverwritten` | DeepSpec/scripts/data/prepare_target_cache.py:365-371 | no rename of any interleaving overwrites a file |
| `CacheBuild.RenamingResult` | DeepSpec/scripts/data/prepare_target_cache.py:365-371 | after the barrier every shard is under its global name, for every interleaving |
| `CacheBuild.RenamingProgresses` | DeepSpec/scripts/data/prepare_target_cache.py:365-371 | until every rank is done some rank can rename its next shard |
| `CacheBuild.RenamingTerminates` | DeepSpec/scripts/data/prepare_target_cache.py:365-371 | every rename leaves one shard less to rename |
| `CacheBuild.RenamingExists` | DeepSpec/scripts/data/prepare_target_cache.py:349-371 | whatever the ranks have written, the renames can run to the barrier |
| `CacheIndex.ParseIsInverse` | DeepSpec/deepspec/data/target_cache_dataset.py:556-562 | every index file of a fitting size is the index of some records, and each of them is in range |
| `CacheIndex.MergeRank` | DeepSpec/deepspec/data/target_cache_dataset.py:554-573 | on any bytes: succeeds if and only if size, id order, shard ids and widths pass; then the output is the renumbered records |
| `CacheIndex.FinalizeIndex` | DeepSpec/deepspec/data/target_cache_dataset.py:540-577 | on any files and summaries: succeeds if and only if every check passes, and then writes the merged records |
| `CacheIndex.MergeOfBuild` | DeepSpec/deepspec/data/target_cache_dataset.py:540-577 | on the files of a build the size and order assertions never fail; only an id too wide for the format can |
| `CacheIndex.MergedIsDense` | DeepSpec/deepspec/data/target_cache_dataset.py:567-573 | the merged sample ids are 0, 1, ..., N - 1 |
| `CacheIndex.WrittenIsMergeable` | DeepSpec/deepspec/data/target_cache_dataset.py:351-387 | what a rank writes without an error passes the checks of the merge |
| `CacheIndex.StoreIsMergeable` | DeepSpec/deepspec/data/target_cache_dataset.py:351-387 | in particular when counts and sizes are within the format |
| `CacheIndex.BuildIsCorrect` | DeepSpec/scripts/data/prepare_target_cache.py:243-389 | end to end: for every source, filter, world size, shard limit and interleaving of renames, record i of the merged index finds the tensors of the i-th kept sample in the final shard files |
| `CacheIndex.ManifestValidates` | DeepSpec/deepspec/data/target_cache_dataset.py:132-200 | the manifest and index of a build pass validation if and only if the layer ids are nonempty and ascending and the hidden size is positive |
| `CacheIndex.ChangedManifestIsRejected` | DeepSpec/deepspec/data/target_cache_dataset.py:150-200 | a valid manifest with another version, dtype, record size, shard count or sample count is refused |
| `CacheIndex.FinishBuild` | DeepSpec/scripts/data/prepare_target_cache.py:351-388 | the last phase writes the merged index and a manifest whose sample count, the sum over the summaries, is the number of merged records |
| `CacheReader.RecencyFacts` | DeepSpec/deepspec/data/target_cache_dataset.py:677-695 | the recency list holds every used shard once, ordered by last use |
| `CacheReader.LastUseIs` | DeepSpec/deepspec/data/target_cache_dataset.py:677-682 | after its last use an id does not occur any more |
| `CacheReader.RecencyStep` | DeepSpec/deepspec/data/target_cache_dataset.py:691-694 | evicting step by step keeps exactly the last k entries of the whole recency list |
| `CacheReader.CacheDataset.GetShard` | DeepSpec/deepspec/data/target_cache_dataset.py:677-695 | after any trace the open shards are the most recently used ones in recency order, both tables agree, exactly their handles are open; the shard's bytes are returned if and only if one shard may be open |
| `CacheReader.CacheDataset.GetItem` | DeepSpec/deepspec/data/target_cache_dataset.py:753-798 | after any accesses a lookup returns what an uncached read returns, errors included, when at least one shard may be open; with none it fails after opening the shard |
| `CacheReader.ReadBack` | DeepSpec/deepspec/data/target_cache_dataset.py:697-798 | a cache that shows the merged index and the final shards returns at index i exactly the tensors of the i-th kept sample |
| `CachePipeline.RankLeavesStore` | DeepSpec/scripts/data/prepare_target_cache.py:274-348 | in every interleaving of a rank's asynchronous writer, a normal close leaves the store of writing its kept samples in order, with every record in range |
| `CachePipeline.OpensFinished` | DeepSpec/deepspec/data/target_cache_dataset.py:616-637 | the directory a build leaves can be opened if and only if the layer ids are nonempty and ascending and the hidden size is positive, and then shows the merged index and every final shard |
| `CachePipeline.OpenedIsReadable` | DeepSpec/deepspec/data/target_cache_dataset.py:182-200 | in whatever opens, every index below the sample count has a record and every listed shard is in the table |
| `CachePipeline.EndToEnd` | DeepSpec/scripts/data/prepare_target_cache.py:243-389 | for every source, filter, number of ranks, shard limit, every interleaving inside each writer and of the renames: the directory opened through its manifest has as many samples as the filter keeps, and source sample k, if kept, is read back at the index given by the number of kept samples before it |
| `CachePipeline.FinishAndRead` | DeepSpec/scripts/data/prepare_target_cache.py:351-388 | the last phase of the build followed by opening the directory and one lookup yields the source sample with that many kept ones before it, and an error beyond the last; it stops earlier if and only if a merged id is too wide or the manifest does not validate |
| `CachePipeline.RankCanWrite` | DeepSpec/scripts/data/prepare_target_cache.py:274-336 | whatever samples a rank keeps, if their records fit some run of its writer writes them and closes normally |
| `CachePipeline.BuildCanRun` | DeepSpec/scripts/data/prepare_target_cache.py:243-371 | the build can be carried out for every source, filter, world size and limit whose records fit |
| `Sampler.ScheduledIff` | DeepSpec/deepspec/trainer/base_trainer.py:84-99 | the settings are accepted if and only if the global batch is a multiple of world size times local batch size and not larger than the dataset |
| `Sampler.ScheduleFacts` | DeepSpec/deepspec/trainer/base_trainer.py:81-139 | an epoch has as many optimizer steps as the dataset has full global batches, whatever the world size and the local batch size |
| `Sampler.EpochsHoldSteps` | DeepSpec/deepspec/trainer/base_trainer.py:123-130 | the number of epochs is the least that holds all optimizer steps, given or derived |
| `Sampler.TakeSlice` | DeepSpec/deepspec/utils/distributed.py:117-118 | every replicas-th entry of the epoch's shuffle from the own rank on |
| `Sampler.IterateStream` | DeepSpec/deepspec/utils/distributed.py:120-140 | the samples from an offset on, across epochs, are those of the endless stream of the rank |
| `Sampler.MicrosAreContiguous` | DeepSpec/deepspec/trainer/base_trainer.py:361-369 | consecutive micro-batches are a contiguous part of the stream |
| `Sampler.RankStepIsColumn` | DeepSpec/deepspec/utils/distributed.py:112-118 | a rank's part of an optimizer step is one column of the step's block of the shuffle |
| `Sampler.StepConsumesBlock` | DeepSpec/deepspec/trainer/base_trainer.py:361-382 | over all ranks and micro-steps, step s consumes exactly a block of global-batch-size entries of the shuffle of epoch s div steps-per-epoch |
| `Sampler.EpochConsumesPrefix` | DeepSpec/deepspec/trainer/base_trainer.py:93-99 | the steps of an epoch go through its shuffle from the front, each entry once |
| `Sampler.ParallelismDoesNotMatter` | DeepSpec/deepspec/trainer/base_trainer.py:81-139 | the content of every step is the same for all world sizes and local batch sizes whose product divides the global batch |
| `Training.LoaderYields` | DeepSpec/deepspec/trainer/base_trainer.py:296-315 | a loader that starts at a micro-step yields all micro-batches of the uninterrupted run from there on; nothing is dropped |
| `Training.NextKeepsInv` | DeepSpec/deepspec/trainer/base_trainer.py:356-415 | every step of loop, prefetch thread, checkpointing, suspension and crash keeps the invariant |
| `Training.ResumeEquivalence` | DeepSpec/deepspec/trainer/base_trainer.py:356-415 | after any suspensions, crashes and resumptions the model was trained on exactly the first micro-batches of the uninterrupted run, in order |
| `Training.FinishedRun` | DeepSpec/deepspec/trainer/base_trainer.py:358-364 | a finished run has taken exactly max_train_steps optimizer steps |
| `Training.CheckpointsAreAligned` | DeepSpec/deepspec/trainer/ckpt_manager.py:136-219 | the alignment assertions at save and load never fail |
| `Training.CanResume` | DeepSpec/deepspec/trainer/ckpt_manager.py:84-133 | a stopped process can always be started again |
| `Training.StartRestores` | DeepSpec/deepspec/trainer/ckpt_manager.py:97-133 | a started process continues at exactly the stored counter and with the stored history, and is finished at once exactly when no optimizer step is left |
| `Training.SuspendedAndResumed` | DeepSpec/deepspec/trainer/base_trainer.py:347-354 | a suspension loses nothing: what comes next starts with the same counter and history |
| `Training.TurnsAreProgress` | DeepSpec/deepspec/trainer/base_trainer.py:356-415 | in every run the turns of the loop are the micro-steps the training stands at, plus those that crashes have undone |
| `Training.NothingTrainedTwice` | DeepSpec/deepspec/trainer/base_trainer.py:374-382 | without crashes there are as many turns as the counter says, so no micro-batch is trained twice |
| `Training.FinishedIsSaved` | DeepSpec/deepspec/trainer/base_trainer.py:415-415 | a finished run that had steps to take has stored its final state |
| `Training.TurnsAreFree` | DeepSpec/deepspec/trainer/base_trainer.py:374-411 | a ready batch can always be trained, after an optimizer step with any choice of saving and suspending; a process can die at any time |
| `Training.SessionProgresses` | DeepSpec/deepspec/data/cuda_prefetcher.py:27-70 | loop and prefetch thread are never both stuck: some step is enabled |
| `Training.SessionTerminates` | DeepSpec/deepspec/trainer/base_trainer.py:356-415 | every step of a session uses up work, so a session ends after at most two steps per micro-step left and two more, in any interleaving |
| `Training.TrainingConsumesBlocks` | DeepSpec/deepspec/trainer/base_trainer.py:356-415 | whatever interrupted the runs of the ranks, what all of them trained on in optimizer step s is the block of the shuffle that belongs to s |
| `LineIndex.LinesConcat` | DeepSpec/deepspec/data/jsonl_dataset.py:111-121 | the lines of a file concatenate back to it |
| `LineIndex.LinesAreLines` | DeepSpec/deepspec/data/jsonl_dataset.py:111-121 | a newline is only ever the last byte of a line, and every line but the last has one |
| `LineIndex.BuildLineStarts` | DeepSpec/deepspec/data/jsonl_dataset.py:107-121 | start i is the total length of the lines before line i, and the line read there is line i, with or without a final newline; only an empty file fails |
| `LineIndex.StartsIncrease` | DeepSpec/deepspec/data/jsonl_dataset.py:111-121 | starts are strictly increasing, so no position is recorded twice |
| `LineIndex.CumulativeCounts` | DeepSpec/deepspec/data/jsonl_dataset.py:26-28 | entry k is the number of lines before file k |
| `LineIndex.BuildDataset` | DeepSpec/deepspec/data/jsonl_dataset.py:15-29 | the index of a list of files; fails if and only if one is empty |
| `LineIndex.BisectRight` | DeepSpec/deepspec/data/jsonl_dataset.py:59-62 | the first entry that exceeds the number |
| `LineIndex.MapGlobalToLocal` | DeepSpec/deepspec/data/jsonl_dataset.py:59-62 | the only file and local number a global number stands for, files without lines included |
| `LineIndex.AllLinesAt` | DeepSpec/deepspec/data/jsonl_dataset.py:34-44 | where a file's lines lie among all lines |
| `LineIndex.GetLine` | DeepSpec/deepspec/data/jsonl_dataset.py:34-44 | global number i is exactly the i-th line across the files; any other number fails |
| `Scanner.ExtractAssignmentExpression` | DeepSpec/scripts/flops/flops_core.py:126-188 | the scanning loop computes the step-by-step specification on every source |
| `Scanner.BodyPasses` | DeepSpec/scripts/flops/flops_core.py:148-166 | an escaped string body never ends the string, whatever brackets, quotes or comment signs it holds |
| `Scanner.LiteralPasses` | DeepSpec/scripts/flops/flops_core.py:139-188 | scanning a printed literal leaves the bracket stack as it was |
| `Scanner.RoundTrip` | DeepSpec/scripts/flops/flops_core.py:126-188 | for every nested literal whose printed form is bracketed, extraction returns exactly the printed text, whatever precedes and follows it |
| `Scanner.LineRoundTrip` | DeepSpec/scripts/flops/flops_core.py:126-188 | a literal without brackets is returned up to the end of its line or of the file, without the blanks around it |
| `Scanner.CommentStaysOnTheLine` | DeepSpec/scripts/flops/flops_core.py:141-147 | without brackets a comment ends with the line and is part of what is returned |
| `Scanner.UnclosedIsRefused` | DeepSpec/scripts/flops/flops_core.py:186-187 | a bracket that is never closed is reported |
| `Scanner.MismatchIsRefused` | DeepSpec/scripts/flops/flops_core.py:178-180 | a bracket closed by another one is reported |
| `Scanner.StrayCloseIsRefused` | DeepSpec/scripts/flops/flops_core.py:178-180 | a closing bracket without an opening one is reported |
| `Scanner.AsciiSpaces` | DeepSpec/scripts/flops/flops_core.py:128-129 | the white space of ASCII, and no printable character, counts as space |
| `SpanLayout.FirstFrom` | sglang/scripts/convert_otel_2_perfetto.py:58-59 | the stored spans before the result start earlier, the others do not |
| `SpanLayout.CheckOverlap` | sglang/scripts/convert_otel_2_perfetto.py:58-70 | on any sorted line and any span: whether the neighbour on either side reaches into the span |
| `SpanLayout.MissesNothing` | sglang/scripts/convert_otel_2_perfetto.py:58-70 | the check reports every conflict of every proper span if and only if no stored span is still running when a later one is out of the way and no further one has started |
| `SpanLayout.CriesNoWolf` | sglang/scripts/convert_otel_2_perfetto.py:58-70 | the check reports only conflicts, for every proper span, if and only if every empty or inverted stored span starts while another one is running |
| `SpanLayout.NeighboursDecide` | sglang/scripts/convert_otel_2_perfetto.py:58-70 | on ordered proper spans two neighbours decide: true if and only if some stored span overlaps |
| `SpanLayout.InsertSpan` | sglang/scripts/convert_otel_2_perfetto.py:72-73 | for any span the line stays sorted and holds that span and the stored ones |
| `SpanLayout.Layout.FindLine` | sglang/scripts/convert_otel_2_perfetto.py:95-120 | for any span: the request's line when the span is empty or passes the check there, else the first line that passes, else a new one, which is announced |
| `SpanLayout.PickedLine` | sglang/scripts/convert_otel_2_perfetto.py:95-120 | among proper spans the picked line has no conflict, and a new line is picked only when every existing one has |
| `SpanLayout.Layout.PlaceSpan` | sglang/scripts/convert_otel_2_perfetto.py:282-292 | any span is inserted on the line picked for it and nothing else changes |
| `SpanLayout.LayOut` | sglang/scripts/convert_otel_2_perfetto.py:269-309 | for any spans the placement is that of the specification: every span gets a line in order, and an empty one stays on the line of its request; without empty spans no two on the same process and line overlap; with proper spans each stays on its request's line while that is free and else goes to the lowest free line |
| `SpanLayout.LayoutIsByRule` | sglang/scripts/convert_otel_2_perfetto.py:95-120 | an empty span always stays on the line of its request; among proper spans every span stays on the line of its request while no earlier span there overlaps it, and gets the lowest line without overlap otherwise |
| `SpanLayout.DisjointWithoutEmpty` | sglang/scripts/convert_otel_2_perfetto.py:269-309 | layouts without empty spans have no overlaps; inverted spans do no harm |
| `SpanLayout.ThriftyWhenProper` | sglang/scripts/convert_otel_2_perfetto.py:269-309 | layouts of proper spans open a line only for a span that every lower line refuses |
| `SpanLayout.DisjointIffNoneEmpty` | sglang/scripts/convert_otel_2_perfetto.py:98-99 | whatever proper spans are around, further spans never lead to an overlap if and only if none of them is empty, which is the guard of the unchecked branch |
| `SpanLayout.ThriftyIffAllProper` | sglang/scripts/convert_otel_2_perfetto.py:66-69 | further spans never lead to a needless line if and only if all of them are proper |
| `SpanLayout.EmptySpanExample` | sglang/scripts/convert_otel_2_perfetto.py:98-99 | the request with spans (0, 10), (5, 5) and (6, 8) puts all three on one line, where the last overlaps the first |

## Left out

- Model forward passes, hooks, FSDP, CUDA streams, optimizer numerics, learning-rate schedule and saved
  random-generator states: the target, the proposer and the draws are parameters, and what a checkpoint
  stores of the model is the list of micro-batches it was trained on.
- Floating-point rounding and the values of the exponential function: weights are reals, and the
  exponential is any positive function that turns sums into products.
- The concrete proposers and their state: a proposer is any function of what it can have seen.  In
  `Lossless` its drafted tokens are drawn from the rows it reports; without that no law holds.
- The integral over uniform draws: `Coupling` shows that each choice of a round is a draw falling into an
  interval as long as its probability; that lengths of intervals are probabilities is not formalized.
- Lossless.ProbabilityOfText: texts have between 1 and `max_new_tokens` tokens; with a limit of 0 the code
  returns a first stop token, which no sampling within that limit would.
- Batches of more than one prompt: the code asserts a batch size of one.
- Calibration hooks, TensorBoard logging, prompt dumps, progress output and argument parsing.
- Tokenizer, chat templates and loss masks: encoding a source line is a parameter that keeps or drops it.
- Real files, fsync, mmap, JSON and pickle: files are byte sequences in a map, and a rename is one step.
- Cached line-index files of an earlier process, which the JSONL dataset trusts.
- The rank that waits at a barrier for a rank that failed: phases are complete when their barrier is
  passed.
- Removal of temporary directories, the check for an empty output directory, and extra manifest fields.
- The attention mask: it is stored and proved to be stored, but a lookup does not read it back.
- Padding of batches and the training collators.
- Closing the reader and its behaviour in copied worker processes.
- The sampler without a sample count, which serves the rest of one epoch; training always gives one.
- Resuming with other batch settings: the loader asserts that they are unchanged.
- Errors inside the prefetch thread other than the end of the data: the code does not pass them on.
- Profiling runs, which end without the last checkpoint.
- Parsing the extracted expression into values; only the extent of the expression is modelled.
- The sorting of spans before the layout: the statements hold for spans in any order.  The lists of lines
  are values in the layout object, not objects of their own.
- The unfinished realtime dataset, the dataset converters and sglang's benchmark clients.
