/** The asynchronous writer: a producer, a bounded queue and a writer thread, as a transition
system whose steps interleave arbitrarily.

The producer may call write and close in any order and any number of times.  A write by the
thread, or the final closing of its files, may fail at any moment. */
module AsyncWriter {
  import opened IndexFormat
  import opened CacheWriter

  datatype Item = Data(sample: SampleBytes) | Sentinel

  /** Where the producer stands: between calls, in the check of the put loop, in the put itself,
      or joining the thread inside close. */
  datatype Producer = Idle | Checking(item: Item) | Putting(item: Item) | Joining

  datatype Thread = Waiting | Writing(item: Item) | Closing | Dead

  /** How the latest call of the producer ended. */
  datatype Result = NoCall | Returned | Raised

  datatype State = State(
    limit: int,
    capacity: nat,
    producer: Producer,
    result: Result,
    closed: bool,
    queue: seq<Item>,
    thread: Thread,
    failed: bool,
    store: Store,
    submitted: seq<SampleBytes>,
    written: seq<SampleBytes>,
    taken: seq<Item>,
    sealedAt: nat)

  // `submitted` are the samples put into the queue, and its length is the producer's counter
  // num_local_samples.  `failed` says that _exception is set.  The last three fields only record
  // history: samples written, items taken, and how many samples were submitted when close joined.

  ghost predicate Init(s: State) {
    && s.producer == Idle && s.result == NoCall && !s.closed && s.queue == [] && s.thread == Waiting && !s.failed
    && s.store == EMPTY && s.submitted == [] && s.written == [] && s.taken == [] && s.sealedAt == 0
  }

  predicate HasRoom(s: State) {
    s.capacity == 0 || |s.queue| < s.capacity
  }

  // ------------------------------------------------------------------ producer steps

  /** write_sample: the sample is numbered by the counter and handed to _put. */
  ghost predicate CallWrite(s: State, t: State) {
    exists sample: SampleBytes :: s.producer == Idle && sample.sampleId == |s.submitted|
      && t == s.(producer := Checking(Data(sample)), result := NoCall)
  }

  /** close: a closed writer only reports failures; a failed one is joined without a sentinel. */
  ghost predicate CallClose(s: State, t: State) {
    && s.producer == Idle
    && t == if s.closed then s.(result := if s.failed then Raised else Returned)
            else if s.failed then s.(producer := Joining, result := NoCall)
            else s.(producer := Checking(Sentinel), result := NoCall)
  }

  /** The failure check at the head of the put loop. */
  ghost predicate CheckFailure(s: State, t: State) {
    && s.producer.Checking?
    && t == if s.failed then s.(producer := Idle, result := Raised) else s.(producer := Putting(s.producer.item))
  }

  /** queue.put with a timeout: it succeeds when there is room and otherwise starts over. */
  ghost predicate TryPut(s: State, t: State) {
    && s.producer.Putting?
    && t == if !HasRoom(s) then s.(producer := Checking(s.producer.item))
            else if s.producer.item.Sentinel? then s.(queue := s.queue + [Sentinel], producer := Joining)
            else s.(queue := s.queue + [s.producer.item], submitted := s.submitted + [s.producer.item.sample],
                    producer := Idle, result := Returned)
  }

  /** The join returns once the thread is dead; close then raises if it failed. */
  ghost predicate Join(s: State, t: State) {
    && s.producer == Joining && s.thread == Dead
    && t == s.(producer := Idle, closed := true, sealedAt := |s.submitted|,
               result := if s.failed || |s.store.index| != |s.submitted| then Raised else Returned)
  }

  // ------------------------------------------------------------------ thread steps

  ghost predicate Get(s: State, t: State) {
    && s.thread == Waiting && s.queue != []
    && t == s.(thread := Writing(s.queue[0]), queue := s.queue[1..], taken := s.taken + [s.queue[0]])
  }

  ghost predicate WriteItem(s: State, t: State) {
    && s.thread.Writing? && s.thread.item.Data? && Fits(s.store, s.thread.item.sample, s.limit)
    && t == s.(thread := Waiting, store := Write(s.store, s.thread.item.sample, s.limit),
               written := s.written + [s.thread.item.sample])
  }

  /** A write may fail for any reason, and does when a record field does not fit; a failing write
      leaves the files in an unknown state. */
  ghost predicate FailItem(s: State, t: State) {
    exists partial: Store :: s.thread.Writing? && s.thread.item.Data?
      && t == s.(thread := Closing, failed := true, store := partial)
  }

  ghost predicate TakeSentinel(s: State, t: State) {
    s.thread == Writing(Sentinel) && t == s.(thread := Closing)
  }

  ghost predicate CloseFiles(s: State, t: State) {
    s.thread == Closing && (t == s.(thread := Dead) || t == s.(thread := Dead, failed := true))
  }

  ghost predicate ThreadStep(s: State, t: State) {
    Get(s, t) || WriteItem(s, t) || FailItem(s, t) || TakeSentinel(s, t) || CloseFiles(s, t)
  }

  ghost predicate Next(s: State, t: State) {
    CallWrite(s, t) || CallClose(s, t) || CheckFailure(s, t) || TryPut(s, t) || Join(s, t) || ThreadStep(s, t)
  }

  ghost predicate IsRun(run: seq<State>)
    ensures IsRun(run) ==> |run| > 0
  {
    && |run| > 0 && Init(run[0])
    && forall i :: 0 < i < |run| ==> Next(run[i - 1], run[i])
  }

  // ------------------------------------------------------------------ the invariant

  function Items(samples: seq<SampleBytes>): (items: seq<Item>)
    ensures |items| == |samples| && forall i :: 0 <= i < |samples| ==> items[i] == Data(samples[i])
  {
    seq(|samples|, i requires 0 <= i < |samples| => Data(samples[i]))
  }

  /** All items ever put: the samples, with the sentinel where close put it. */
  function Puts(s: State): seq<Item>
    requires s.sealedAt <= |s.submitted|
  {
    if s.closed then Items(s.submitted[..s.sealedAt]) + [Sentinel] + Items(s.submitted[s.sealedAt..])
    else if s.producer == Joining then Items(s.submitted) + [Sentinel]
    else Items(s.submitted)
  }

  /** The samples carry the local ids 0, 1, 2, ... */
  predicate Numbered(samples: seq<SampleBytes>) {
    forall i :: 0 <= i < |samples| ==> samples[i].sampleId == i
  }

  ghost predicate Inv(s: State) {
    && s.sealedAt <= |s.submitted|
    && Numbered(s.submitted)
    && (s.producer.Checking? || s.producer.Putting? ==>
          match s.producer.item case Data(x) => x.sampleId == |s.submitted| case Sentinel => !s.closed)
    && (s.producer == Joining ==> !s.closed)
    && (s.closed ==> s.thread == Dead)
    && (s.failed ==> s.thread == Closing || s.thread == Dead)
    && (!s.failed ==>
          && s.taken + s.queue == Puts(s)
          && s.store == WriteAll(s.written, s.limit) && AllInRange(s.store.index)
          && match s.thread
             case Waiting => s.taken == Items(s.written)
             case Writing(item) => s.taken == Items(s.written) + [item]
             case _ => s.taken == Items(s.written) + [Sentinel])
  }

  lemma ItemsAppend(samples: seq<SampleBytes>, x: SampleBytes)
    ensures Items(samples + [x]) == Items(samples) + [Data(x)]
  {}

  lemma WriteAllAppend(samples: seq<SampleBytes>, x: SampleBytes, limit: int)
    ensures WriteAll(samples + [x], limit) == Write(WriteAll(samples, limit), x, limit)
  {
    assert (samples + [x])[..|samples|] == samples;
  }

  lemma WriteStaysInRange(st: Store, x: SampleBytes, limit: int)
    requires AllInRange(st.index) && Fits(st, x, limit)
    ensures AllInRange(Write(st, x, limit).index)
  {}

  lemma ProducerKeepsInv(s: State, t: State)
    requires Inv(s) && (CallWrite(s, t) || CallClose(s, t) || CheckFailure(s, t))
    ensures Inv(t)
  {
    hide WriteAll;
  }

  lemma TryPutKeepsInv(s: State, t: State)
    requires Inv(s) && TryPut(s, t)
    ensures Inv(t)
  {
    hide WriteAll;
    if HasRoom(s) && !s.failed {
      var item := s.producer.item;
      assert s.taken + (s.queue + [item]) == Puts(s) + [item];
      if item.Data? {
        ItemsAppend(s.submitted, item.sample);
        if s.closed {
          assert t.submitted[s.sealedAt..] == s.submitted[s.sealedAt..] + [item.sample];
          assert t.submitted[..s.sealedAt] == s.submitted[..s.sealedAt];
        }
      }
    }
  }

  lemma JoinKeepsInv(s: State, t: State)
    requires Inv(s) && Join(s, t)
    ensures Inv(t)
  {
    hide WriteAll;
    assert s.submitted[..|s.submitted|] == s.submitted;
    assert Items(s.submitted) + [Sentinel] + Items([]) == Items(s.submitted) + [Sentinel];
  }

  lemma GetKeepsInv(s: State, t: State)
    requires Inv(s) && Get(s, t)
    ensures Inv(t)
  {
    hide WriteAll, AllInRange;
    assert s.taken + s.queue == (s.taken + [s.queue[0]]) + s.queue[1..];
  }

  lemma WriteKeepsInv(s: State, t: State)
    requires Inv(s) && WriteItem(s, t)
    ensures Inv(t)
  {
    hide WriteAll, Write, AllInRange, Fits;
    ItemsAppend(s.written, s.thread.item.sample);
    WriteAllAppend(s.written, s.thread.item.sample, s.limit);
    if !s.failed {
      WriteStaysInRange(s.store, s.thread.item.sample, s.limit);
    }
  }

  lemma EndKeepsInv(s: State, t: State)
    requires Inv(s) && (FailItem(s, t) || TakeSentinel(s, t) || CloseFiles(s, t))
    ensures Inv(t)
  {
    hide WriteAll, AllInRange;
  }

  lemma ThreadKeepsInv(s: State, t: State)
    requires Inv(s) && ThreadStep(s, t)
    ensures Inv(t)
  {
    hide Inv, Get, WriteItem, FailItem, TakeSentinel, CloseFiles;
    if Get(s, t) {
      GetKeepsInv(s, t);
    } else if WriteItem(s, t) {
      WriteKeepsInv(s, t);
    } else {
      EndKeepsInv(s, t);
    }
  }

  /** Every step of either thread keeps the invariant. */
  lemma NextKeepsInv(s: State, t: State)
    requires Inv(s) && Next(s, t)
    ensures Inv(t)
  {
    hide *;
    if ThreadStep(s, t) {
      ThreadKeepsInv(s, t);
    } else if TryPut(s, t) {
      TryPutKeepsInv(s, t);
    } else if Join(s, t) {
      JoinKeepsInv(s, t);
    } else {
      NextCases(s, t);
      ProducerKeepsInv(s, t);
    }
  }

  lemma NextCases(s: State, t: State)
    requires Next(s, t)
    ensures CallWrite(s, t) || CallClose(s, t) || CheckFailure(s, t) || TryPut(s, t) || Join(s, t) || ThreadStep(s, t)
  {}

  lemma {:induction false} RunInv(run: seq<State>, i: nat)
    requires IsRun(run) && i < |run|
    ensures Inv(run[i])
  {
    hide Next, Inv, Init;
    if i == 0 {
      InitInv(run[0]);
    } else {
      RunInv(run, i - 1);
      NextKeepsInv(run[i - 1], run[i]);
    }
  }

  lemma InitInv(s: State)
    requires Init(s)
    ensures Inv(s)
  {}

  // ------------------------------------------------------------------ what the runs guarantee

  /** The samples among queue items. */
  function DataOf(items: seq<Item>): seq<SampleBytes> {
    if items == [] then []
    else DataOf(items[..|items| - 1]) + match items[|items| - 1] case Data(x) => [x] case Sentinel => []
  }

  lemma {:induction false} DataConcat(a: seq<Item>, b: seq<Item>)
    ensures DataOf(a + b) == DataOf(a) + DataOf(b)
  {
    if b == [] {
      assert a + b == a;
    } else {
      assert (a + b)[..|a + b| - 1] == a + b[..|b| - 1];
      DataConcat(a, b[..|b| - 1]);
    }
  }

  lemma {:induction false} DataOfItems(samples: seq<SampleBytes>)
    ensures DataOf(Items(samples)) == samples
  {
    if samples != [] {
      var n := |samples| - 1;
      DataOfItems(samples[..n]);
      assert Items(samples)[..n] == Items(samples[..n]);
    }
  }

  lemma DataOfOne(item: Item)
    ensures DataOf([item]) == match item case Data(x) => [x] case Sentinel => []
  {
    assert [item][..0] == [];
  }

  lemma DataOfPuts(s: State)
    requires s.sealedAt <= |s.submitted|
    ensures DataOf(Puts(s)) == s.submitted
  {
    hide DataOf, Items;
    var early, late := s.submitted[..s.sealedAt], s.submitted[s.sealedAt..];
    DataOfOne(Sentinel);
    DataOfItems(s.submitted);
    DataOfItems(early);
    DataOfItems(late);
    DataConcat(Items(s.submitted), [Sentinel]);
    DataConcat(Items(early), [Sentinel]);
    DataConcat(Items(early) + [Sentinel], Items(late));
    assert early + late == s.submitted;
  }

  /** The sample the thread is writing. */
  function InFlight(s: State): seq<SampleBytes> {
    if s.thread.Writing? && s.thread.item.Data? then [s.thread.item.sample] else []
  }

  /** Until a failure, in every state of every run, samples written, in flight and queued are the
      submitted ones, in order. */
  lemma InOrder(run: seq<State>, i: nat)
    requires IsRun(run) && i < |run| && !run[i].failed
    ensures run[i].submitted == run[i].written + InFlight(run[i]) + DataOf(run[i].queue)
  {
    hide IsRun, WriteAll, DataOf;
    RunInv(run, i);
    var s := run[i];
    DataOfPuts(s);
    DataConcat(s.taken, s.queue);
    DataOfItems(s.written);
    DataOfOne(Sentinel);
    DataConcat(Items(s.written), [Sentinel]);
    if s.thread.Writing? {
      DataOfOne(s.thread.item);
      DataConcat(Items(s.written), [s.thread.item]);
    }
  }

  /** When close returns, after any interleaving, every submitted sample was written, and the
      files are those of the synchronous writer. */
  lemma CloseIsComplete(run: seq<State>, i: nat)
    requires IsRun(run) && i + 1 < |run|
    requires Join(run[i], run[i + 1]) && run[i + 1].result == Returned
    ensures run[i + 1].written == run[i + 1].submitted
    ensures run[i + 1].store == WriteAll(run[i + 1].submitted, run[i + 1].limit)
    ensures Numbered(run[i + 1].submitted) && AllInRange(run[i + 1].store.index)
  {
    hide IsRun, WriteAll;
    RunInv(run, i);
    DeadTookAll(run[i]);
  }

  lemma DeadTookAll(s: State)
    requires Inv(s) && !s.failed && s.thread == Dead && s.producer == Joining
    ensures s.written == s.submitted && s.queue == []
  {
    hide WriteAll;
    assert Items(s.written) + [Sentinel] + s.queue == Items(s.submitted) + [Sentinel];
    var left, right := Items(s.written) + [Sentinel] + s.queue, Items(s.submitted) + [Sentinel];
    assert |s.written| >= |s.submitted| by {
      assert left[|s.written|] == Sentinel;
      assert forall k :: 0 <= k < |s.submitted| ==> right[k] == Data(s.submitted[k]);
    }
    assert |s.queue| == 0;
    forall k | 0 <= k < |s.submitted|
      ensures s.written[k] == s.submitted[k]
    {
      assert left[k] == Data(s.written[k]) && right[k] == Data(s.submitted[k]);
    }
  }

  /** A call of close is under way. */
  predicate InClose(s: State) {
    s.producer == Checking(Sentinel) || s.producer == Putting(Sentinel) || s.producer == Joining
  }

  /** A call of close ends: a second call returns at once, the put loop raises, or the join is over. */
  ghost predicate CloseEnds(s: State, t: State) {
    || (CallClose(s, t) && s.closed)
    || (CheckFailure(s, t) && s.producer == Checking(Sentinel) && s.failed)
    || Join(s, t)
  }

  /** These are all the ways in which close can end. */
  lemma CloseEndsOnlySo(s: State, t: State)
    requires CallClose(s, t) || (InClose(s) && Next(s, t))
    ensures InClose(t) || CloseEnds(s, t)
  {
    hide Write, Fits;
    if InClose(s) && ThreadStep(s, t) {
      assert t.producer == s.producer;
    }
  }

  /** Close raises exactly when the writer thread failed, at every one of its exits: the lost-samples
      assertion never fires by itself. */
  lemma CloseRaisesIffFailed(run: seq<State>, i: nat)
    requires IsRun(run) && i + 1 < |run| && CloseEnds(run[i], run[i + 1])
    ensures run[i + 1].result == (if run[i + 1].failed then Raised else Returned)
  {
    hide IsRun;
    RunInv(run, i);
    if Join(run[i], run[i + 1]) && !run[i].failed {
      DeadTookAll(run[i]);
      WriteAllCount(run[i].written, run[i].limit);
    }
  }

  /** A failure is never forgotten. */
  lemma {:induction false} FailureIsSticky(run: seq<State>, i: nat, j: nat)
    requires IsRun(run) && i <= j < |run| && run[i].failed
    ensures run[j].failed
    decreases j
  {
    if i < j {
      FailureIsSticky(run, i, j - 1);
      assert Next(run[j - 1], run[j]);
    }
  }

  // ------------------------------------------------------------------ a closed writer

  /** What a closed writer without a failure has written: the samples submitted before close. */
  lemma ClosedWriter(run: seq<State>, i: nat)
    requires IsRun(run) && i < |run| && run[i].closed && !run[i].failed
    ensures run[i].sealedAt <= |run[i].submitted| && run[i].written == run[i].submitted[..run[i].sealedAt]
    ensures run[i].written == run[i].submitted <==> |run[i].submitted| == run[i].sealedAt
  {
    hide IsRun, WriteAll;
    RunInv(run, i);
    var s := run[i];
    var early := s.submitted[..s.sealedAt];
    var left := Items(s.written) + [Sentinel] + s.queue;
    var right := Items(early) + [Sentinel] + Items(s.submitted[s.sealedAt..]);
    assert left == right;
    assert |s.written| == |early| by {
      assert left[|s.written|] == Sentinel && right[|early|] == Sentinel;
      assert forall k :: 0 <= k < |right| && right[k] == Sentinel ==> k == |early|;
    }
    forall k | 0 <= k < |early|
      ensures s.written[k] == early[k]
    {
      assert left[k] == Data(s.written[k]) && right[k] == Data(early[k]);
    }
  }

  // ------------------------------------------------------------------ the queue and failures

  /** The queue never holds more than its bound. */
  lemma {:induction false} QueueIsBounded(run: seq<State>, i: nat)
    requires IsRun(run) && i < |run|
    ensures run[i].capacity == run[0].capacity && (run[i].capacity > 0 ==> |run[i].queue| <= run[i].capacity)
  {
    hide Write, Fits;
    if i > 0 {
      QueueIsBounded(run, i - 1);
      assert Next(run[i - 1], run[i]);
    }
  }

  /** A write can fail at any moment and does when the record does not fit; closing the files can fail. */
  lemma FailuresAreFree(s: State)
    ensures s.thread.Writing? && s.thread.item.Data? ==> exists t :: FailItem(s, t) && t.failed
    ensures s.thread == Closing ==> exists t :: CloseFiles(s, t) && t.failed
    ensures s.thread.Writing? && s.thread.item.Data? && !Fits(s.store, s.thread.item.sample, s.limit) ==>
              forall t :: ThreadStep(s, t) ==> t.failed
  {
    hide Write, Fits;
    if s.thread.Writing? && s.thread.item.Data? {
      assert FailItem(s, s.(thread := Closing, failed := true, store := s.store));
    }
    if s.thread == Closing {
      assert CloseFiles(s, s.(thread := Dead, failed := true));
    }
  }

  // ------------------------------------------------------------------ runs that exist

  lemma StartRun(s: State) returns (run: seq<State>)
    requires Init(s)
    ensures IsRun(run) && |run| > 0 && run[|run| - 1] == s
  {
    run := [s];
  }

  lemma ExtendRun(run: seq<State>, s: State, t: State) returns (longer: seq<State>)
    requires IsRun(run) && |run| > 0 && run[|run| - 1] == s && Next(s, t)
    ensures IsRun(longer) && longer == run + [t]
  {
    hide Next, Init;
    longer := run + [t];
  }

  /** The state after the given samples were submitted and written. */
  function Served(samples: seq<SampleBytes>, limit: int, capacity: nat): State {
    State(limit, capacity, Idle, if samples == [] then NoCall else Returned, false, [], Waiting, false,
          WriteAll(samples, limit), samples, samples, Items(samples), 0)
  }

  lemma ServeOne(run: seq<State>, samples: seq<SampleBytes>, x: SampleBytes, limit: int, capacity: nat)
    returns (longer: seq<State>)
    requires IsRun(run) && |run| > 0 && run[|run| - 1] == Served(samples, limit, capacity)
    requires x.sampleId == |samples| && Fits(WriteAll(samples, limit), x, limit)
    ensures IsRun(longer) && |longer| > 0 && longer[|longer| - 1] == Served(samples + [x], limit, capacity)
  {
    hide IsRun, WriteAll, Write, Fits;
    var s0 := Served(samples, limit, capacity);
    var s1 := s0.(producer := Checking(Data(x)), result := NoCall);
    var s2 := s1.(producer := Putting(Data(x)));
    var s3 := s2.(queue := [Data(x)], submitted := samples + [x], producer := Idle, result := Returned);
    var s4 := s3.(thread := Writing(Data(x)), queue := [], taken := s3.taken + [Data(x)]);
    var s5 := Served(samples + [x], limit, capacity);
    ItemsAppend(samples, x);
    WriteAllAppend(samples, x, limit);
    assert CallWrite(s0, s1) && CheckFailure(s1, s2) && TryPut(s2, s3) && Get(s3, s4) && WriteItem(s4, s5);
    longer := ExtendRun(run, s0, s1);
    longer := ExtendRun(longer, s1, s2);
    longer := ExtendRun(longer, s2, s3);
    longer := ExtendRun(longer, s3, s4);
    longer := ExtendRun(longer, s4, s5);
  }

  /** All records of the list fit the format as they are written. */
  lemma FitsInTurn(samples: seq<SampleBytes>, x: SampleBytes, limit: int)
    requires AllInRange(WriteAll(samples + [x], limit).index)
    ensures AllInRange(WriteAll(samples, limit).index) && Fits(WriteAll(samples, limit), x, limit)
  {
    hide InRange, WriteAll;
    WriteAllAppend(samples, x, limit);
    var st := WriteAll(samples, limit);
    var index := Write(st, x, limit).index;
    assert index[|st.index|] == Place(EnsureShard(st.shards, |Payload(x)|, limit), x);
    assert forall i :: 0 <= i < |st.index| ==> index[i] == st.index[i];
  }

  lemma {:induction false} ServedRun(samples: seq<SampleBytes>, limit: int, capacity: nat) returns (run: seq<State>)
    requires Numbered(samples) && AllInRange(WriteAll(samples, limit).index)
    ensures IsRun(run) && |run| > 0 && run[|run| - 1] == Served(samples, limit, capacity)
  {
    hide IsRun, Write, InRange, Fits;
    if samples == [] {
      run := StartRun(Served([], limit, capacity));
    } else {
      var n := |samples| - 1;
      assert samples == samples[..n] + [samples[n]];
      FitsInTurn(samples[..n], samples[n], limit);
      run := ServedRun(samples[..n], limit, capacity);
      run := ServeOne(run, samples[..n], samples[n], limit, capacity);
    }
  }

  /** The state after closing that writer. */
  function ClosedAfter(samples: seq<SampleBytes>, limit: int, capacity: nat): State {
    State(limit, capacity, Idle, Returned, true, [], Dead, false, WriteAll(samples, limit), samples, samples,
          Items(samples) + [Sentinel], |samples|)
  }

  /** Any numbered samples whose records fit can be written and the writer closed normally, with any
      bound on the queue. */
  lemma ClosedRun(samples: seq<SampleBytes>, limit: int, capacity: nat) returns (run: seq<State>)
    requires Numbered(samples) && AllInRange(WriteAll(samples, limit).index)
    ensures IsRun(run) && |run| >= 2 && Join(run[|run| - 2], run[|run| - 1])
    ensures run[|run| - 1] == ClosedAfter(samples, limit, capacity)
  {
    hide IsRun, WriteAll;
    run := ServedRun(samples, limit, capacity);
    WriteAllCount(samples, limit);
    var s0 := Served(samples, limit, capacity);
    var s1 := s0.(producer := Checking(Sentinel), result := NoCall);
    var s2 := s1.(producer := Putting(Sentinel));
    var s3 := s2.(queue := [Sentinel], producer := Joining);
    var s4 := s3.(thread := Writing(Sentinel), queue := [], taken := s3.taken + [Sentinel]);
    var s5 := s4.(thread := Closing);
    var s6 := s5.(thread := Dead);
    var s7 := ClosedAfter(samples, limit, capacity);
    assert CallClose(s0, s1) && CheckFailure(s1, s2) && TryPut(s2, s3) && Get(s3, s4);
    assert TakeSentinel(s4, s5) && CloseFiles(s5, s6) && Join(s6, s7);
    run := ExtendRun(run, s0, s1);
    run := ExtendRun(run, s1, s2);
    run := ExtendRun(run, s2, s3);
    run := ExtendRun(run, s3, s4);
    run := ExtendRun(run, s4, s5);
    run := ExtendRun(run, s5, s6);
    run := ExtendRun(run, s6, s7);
  }

  // ------------------------------------------------------------------ what a call of write does

  /** Between calls any next sample can be written, and the writer can be closed. */
  lemma CallsAreFree(s: State, x: SampleBytes)
    requires s.producer == Idle && x.sampleId == |s.submitted|
    ensures exists t :: CallWrite(s, t) && t.producer == Checking(Data(x))
    ensures exists t :: CallClose(s, t)
  {
    var t := s.(producer := Checking(Data(x)), result := NoCall);
    assert CallWrite(s, t) && t.producer == Checking(Data(x));
    var u := if s.closed then s.(result := if s.failed then Raised else Returned)
             else if s.failed then s.(producer := Joining, result := NoCall)
             else s.(producer := Checking(Sentinel), result := NoCall);
    assert CallClose(s, u);
  }

  /** At the check, a failure of the thread ends the call with an error. */
  lemma FailedCheckRaises(s: State, t: State)
    requires s.failed && s.producer.Checking? && Next(s, t) && !ThreadStep(s, t)
    ensures t.producer == Idle && t.result == Raised && t.submitted == s.submitted && t.queue == s.queue
  {
    hide ThreadStep;
  }

  /** The sample of a call of write that is under way. */
  predicate Writes(s: State, x: SampleBytes) {
    s.producer == Checking(Data(x)) || s.producer == Putting(Data(x))
  }

  lemma WriteStep(s: State, t: State, x: SampleBytes)
    requires Writes(s, x) && Next(s, t)
    ensures Writes(t, x) || t.producer == Idle
    ensures Writes(t, x) ==> t.submitted == s.submitted
    ensures t.producer == Idle ==>
              || (t.result == Returned && t.submitted == s.submitted + [x] && s.producer.Putting?)
              || (t.result == Raised && t.submitted == s.submitted && s.failed && t.failed)
    ensures s.failed && s.producer.Checking? ==>
              t.failed && (t.producer.Checking? || (t.producer == Idle && t.result == Raised))
  {
    hide Write, Fits;
    if ThreadStep(s, t) {
      assert t.producer == s.producer && t.submitted == s.submitted;
    }
  }

  lemma {:induction false} WriteUnderWay(run: seq<State>, k: nat, j: nat, x: SampleBytes)
    requires IsRun(run) && k < j < |run| && CallWrite(run[k], run[k + 1]) && run[k + 1].producer == Checking(Data(x))
    requires forall m :: k < m <= j ==> run[m].producer != Idle
    ensures Writes(run[j], x) && run[j].submitted == run[k].submitted
    ensures run[k].failed ==> run[j].failed && run[j].producer.Checking?
    decreases j
  {
    hide Next, Init;
    if k + 1 < j {
      WriteUnderWay(run, k, j - 1, x);
      WriteStep(run[j - 1], run[j], x);
    }
  }

  /** A call of write ends in one of two ways: it returns and has submitted its sample, or it raises
      because the thread failed and has submitted nothing.  A call that starts after a failure raises. */
  lemma WriteOutcome(run: seq<State>, k: nat, j: nat, x: SampleBytes)
    requires IsRun(run) && k + 1 < j < |run| && CallWrite(run[k], run[k + 1])
    requires run[k + 1].producer == Checking(Data(x)) && run[j].producer == Idle
    requires forall m :: k < m < j ==> run[m].producer != Idle
    ensures || (run[j].result == Returned && run[j].submitted == run[k].submitted + [x])
            || (run[j].result == Raised && run[j].submitted == run[k].submitted && run[j].failed)
    ensures run[k].failed ==> run[j].result == Raised
  {
    hide Next, Init;
    WriteUnderWay(run, k, j - 1, x);
    WriteStep(run[j - 1], run[j], x);
  }

  /** The put that has already passed its check. */
  function Pending(s: State): nat {
    if s.producer.Putting? && s.producer.item.Data? then 1 else 0
  }

  lemma SubmitStep(s: State, t: State)
    requires s.failed && Next(s, t)
    ensures t.failed && s.submitted <= t.submitted
    ensures |t.submitted| + Pending(t) <= |s.submitted| + Pending(s)
  {
    hide Write, Fits;
  }

  /** After a failure at most the put that has already passed its check is still submitted. */
  lemma {:induction false} SubmittedAfterFailure(run: seq<State>, i: nat, j: nat)
    requires IsRun(run) && i <= j < |run| && run[i].failed
    ensures run[j].failed && run[i].submitted <= run[j].submitted
    ensures |run[j].submitted| + Pending(run[j]) <= |run[i].submitted| + Pending(run[i])
    decreases j
  {
    hide Next, Init;
    if i < j {
      SubmittedAfterFailure(run, i, j - 1);
      SubmitStep(run[j - 1], run[j]);
    }
  }

  // ------------------------------------------------------------------ writes after close

  /** The state after closing a writer that was never written to. */
  function ClosedEmpty(limit: int): State {
    ClosedAfter([], limit, 1)
  }

  lemma NothingWritten(limit: int)
    ensures WriteAll([], limit) == EMPTY && AllInRange(WriteAll([], limit).index)
  {}

  /** The state after one late write. */
  function AfterLateWrite(sample: SampleBytes, limit: int): State {
    ClosedEmpty(limit).(queue := [Data(sample)], submitted := [sample])
  }

  lemma LostWrite(sample: SampleBytes, limit: int) returns (run: seq<State>)
    requires sample.sampleId == 0
    ensures IsRun(run) && |run| > 0 && run[|run| - 1] == AfterLateWrite(sample, limit)
  {
    hide IsRun, WriteAll;
    NothingWritten(limit);
    run := ClosedRun([], limit, 1);
    var s0 := ClosedEmpty(limit);
    var s1 := s0.(producer := Checking(Data(sample)), result := NoCall);
    var s2 := s1.(producer := Putting(Data(sample)));
    var s3 := AfterLateWrite(sample, limit);
    assert CallWrite(s0, s1) && CheckFailure(s1, s2) && TryPut(s2, s3);
    run := ExtendRun(run, s0, s1);
    run := ExtendRun(run, s1, s2);
    run := ExtendRun(run, s2, s3);
  }

  /** A sample written after close is lost although a further close returns normally. */
  lemma LateWriteIsLost(sample: SampleBytes, limit: int)
    requires sample.sampleId == 0
    ensures exists run: seq<State>, last: State ::
              && IsRun(run) && run[|run| - 1] == last
              && last.result == Returned && last.closed && last.submitted == [sample] && last.written == []
  {
    hide IsRun, WriteAll;
    var run := LostWrite(sample, limit);
    var last := AfterLateWrite(sample, limit);
    assert CallClose(last, last);
    run := ExtendRun(run, last, last);
  }

  /** A write to a writer whose queue nobody empties any more. */
  predicate Stuck(s: State) {
    && s.closed && !s.failed && s.thread == Dead && 0 < s.capacity <= |s.queue|
    && (s.producer.Checking? || s.producer.Putting?)
  }

  /** After close, a write to a full bounded queue never returns and never raises. */
  lemma {:induction false} LateWriteHangs(run: seq<State>, i: nat, j: nat)
    requires IsRun(run) && i <= j < |run|
    requires run[i].closed && !run[i].failed && 0 < run[i].capacity <= |run[i].queue|
    requires run[i].producer.Checking? || run[i].producer.Putting?
    ensures Stuck(run[j])
    decreases j
  {
    hide Write, Fits, WriteAll;
    if i < j {
      LateWriteHangs(run, i, j - 1);
      assert Next(run[j - 1], run[j]);
    } else {
      RunInv(run, i);
    }
  }

  /** Such a state is reached: with room for one sample, the second write after close hangs. */
  lemma LateWriteCanHang(sample: SampleBytes, limit: int)
    requires sample.sampleId == 0
    ensures exists run: seq<State> :: IsRun(run) && |run| > 0 && Stuck(run[|run| - 1])
  {
    hide IsRun, WriteAll;
    var run := LostWrite(sample, limit);
    var s0 := run[|run| - 1];
    var s1 := s0.(producer := Checking(Data(sample.(sampleId := 1))), result := NoCall);
    assert CallWrite(s0, s1);
    run := ExtendRun(run, s0, s1);
    assert |run| > 0 && Stuck(run[|run| - 1]);
  }

  // ------------------------------------------------------------------ progress

  /** How many steps the thread can still take on what is in the queue. */
  function Work(s: State): nat {
    match s.thread
    case Dead => 0
    case Closing => 1
    case Waiting => 2 + 2 * |s.queue|
    case Writing(_) => 3 + 2 * |s.queue|
  }

  lemma ThreadStepWorks(s: State, t: State)
    requires ThreadStep(s, t)
    ensures Work(t) < Work(s) && t.producer == s.producer
  {
    hide Write, Fits;
  }

  /** The thread is idle or dead: it has no step to take. */
  predicate Resting(s: State) {
    s.thread == Dead || (s.thread == Waiting && s.queue == [])
  }

  lemma ThreadCanStep(s: State)
    requires !Resting(s)
    ensures exists t :: ThreadStep(s, t)
  {
    hide Write, Fits;
    match s.thread {
      case Waiting =>
        var t := s.(thread := Writing(s.queue[0]), queue := s.queue[1..], taken := s.taken + [s.queue[0]]);
        assert Get(s, t) && ThreadStep(s, t);
      case Writing(Data(x)) =>
        var t := s.(thread := Closing, failed := true, store := s.store);
        assert FailItem(s, t) && ThreadStep(s, t);
        var u := s.(thread := Waiting, store := Write(s.store, x, s.limit), written := s.written + [x]);
        assert Fits(s.store, x, s.limit) ==> WriteItem(s, u) && ThreadStep(s, u);
      case Writing(Sentinel) =>
        var t := s.(thread := Closing);
        assert TakeSentinel(s, t) && ThreadStep(s, t);
      case Closing =>
        var t := s.(thread := Dead);
        assert CloseFiles(s, t) && ThreadStep(s, t);
      case Dead =>
    }
  }

  /** The producer is in the put loop. */
  predicate InPut(s: State) {
    s.producer.Checking? || s.producer.Putting?
  }

  /** Before close has joined, no call waits for nothing: while it joins, the thread has a step to
      take or is dead; and in the put loop the thread has a step to take, or the next check raises,
      or there is room. */
  lemma NoDeadlock(run: seq<State>, i: nat)
    requires IsRun(run) && i < |run| && !run[i].closed
    ensures run[i].producer == Joining ==> (exists t :: ThreadStep(run[i], t)) || run[i].thread == Dead
    ensures InPut(run[i]) ==> (exists t :: ThreadStep(run[i], t)) || run[i].failed || HasRoom(run[i])
  {
    hide IsRun, ThreadStep, WriteAll, AllInRange, Puts;
    RunInv(run, i);
    if !Resting(run[i]) {
      ThreadCanStep(run[i]);
    } else if !run[i].failed {
      SentinelPut(run[i]);
    }
  }

  /** The sentinel is under way or taken exactly while close joins; an idle thread has not taken it,
      and a dead one has. */
  lemma SentinelPut(s: State)
    requires Inv(s) && !s.failed && !s.closed
    ensures Sentinel in s.taken || Sentinel in s.queue <==> s.producer == Joining
    ensures s.thread == Waiting ==> Sentinel !in s.taken
    ensures s.thread == Dead ==> Sentinel in s.taken
  {
    hide WriteAll, AllInRange;
    assert Sentinel in s.taken + s.queue <==> Sentinel in Puts(s);
  }

  /** While close joins, every step is one of the thread and uses up work: close ends after at most
      as many steps as there is work. */
  lemma {:induction false} JoinTerminates(run: seq<State>, i: nat, j: nat)
    requires IsRun(run) && i <= j < |run| && forall k :: i <= k <= j ==> run[k].producer == Joining
    ensures j - i + Work(run[j]) <= Work(run[i])
    decreases j
  {
    hide ThreadStep, Work;
    if i < j {
      JoinTerminates(run, i, j - 1);
      assert Next(run[j - 1], run[j]);
      ThreadStepWorks(run[j - 1], run[j]);
    }
  }

  /** The number of thread steps between two states. */
  ghost function ThreadSteps(run: seq<State>, i: nat, j: nat): nat
    requires i <= j < |run|
    decreases j
  {
    if i == j then 0 else ThreadSteps(run, i, j - 1) + if ThreadStep(run[j - 1], run[j]) then 1 else 0
  }

  lemma PutStepWorks(s: State, t: State)
    requires InPut(s) && InPut(t) && Next(s, t)
    ensures if ThreadStep(s, t) then Work(t) < Work(s) else Work(t) == Work(s)
  {
    hide ThreadStep;
    if ThreadStep(s, t) {
      ThreadStepWorks(s, t);
    }
  }

  /** A call in the put loop sees at most as many thread steps as there is work. */
  lemma {:induction false} PutTerminates(run: seq<State>, i: nat, j: nat)
    requires IsRun(run) && i <= j < |run| && forall k :: i <= k <= j ==> InPut(run[k])
    ensures ThreadSteps(run, i, j) + Work(run[j]) <= Work(run[i])
    decreases j
  {
    hide ThreadStep, Next, Work, Init;
    if i < j {
      PutTerminates(run, i, j - 1);
      assert Next(run[j - 1], run[j]);
      PutStepWorks(run[j - 1], run[j]);
    }
  }
}
