/** Training as a transition system of one rank: the prefetcher's background thread, the
training loop, checkpoints, suspensions, crashes and resumed sessions.

The history `trained` is the list of micro-batches the current model and optimizer state has
been trained on; a checkpoint stores it together with the one counter next_micro_step. */
module Training {
  import opened Options
  import opened Arith
  import opened Sampler

  type Batch = seq<nat>

  /** What stays the same across sessions. */
  datatype Plan = Plan(view: View, localBatch: nat, accumulation: nat, maxSteps: nat)

  ghost predicate ProperPlan(p: Plan) {
    ProperView(p.view) && p.localBatch > 0 && p.accumulation > 0
  }

  function TotalMicroSteps(p: Plan): nat {
    Product(p.maxSteps, p.accumulation)
  }

  /** The micro-batches of one uninterrupted run, up to micro-step n. */
  ghost function Uninterrupted(p: Plan, n: nat): (batches: seq<Batch>)
    requires ProperPlan(p)
    ensures |batches| == n
  {
    seq<Batch>(n, m requires 0 <= m => Micro(p.view, p.localBatch, m))
  }

  // ------------------------------------------------------------------ the data loader

  /** DataLoader batches over the sampler's output, dropping an incomplete last one. */
  function LoaderBatches(samples: seq<nat>, localBatch: nat): seq<Batch>
    requires localBatch > 0
    decreases |samples|
  {
    if |samples| < localBatch then [] else [samples[..localBatch]] + LoaderBatches(samples[localBatch..], localBatch)
  }

  /** A loader that starts at micro-step `first` yields the uninterrupted micro-batches from there
      on, and all of them: nothing is dropped. */
  lemma {:induction false} LoaderYields(p: Plan, first: nat, n: nat)
    requires ProperPlan(p)
    ensures Mul(first, p.localBatch) >= 0 && Mul(n, p.localBatch) >= 0
    ensures var batches := LoaderBatches(Stream(p.view, Mul(first, p.localBatch), Mul(n, p.localBatch)), p.localBatch);
            |batches| == n && forall k :: 0 <= k < n ==> batches[k] == Micro(p.view, p.localBatch, first + k)
    decreases n
  {
    hide Mul, StreamAt, ProperView;
    MulNonNegative(first, p.localBatch);
    MulNonNegative(n, p.localBatch);
    MulLaws(p.localBatch, 0, 0);
    if n > 0 {
      var b := p.localBatch;
      MulLaws(n - 1, 1, b);
      MulLaws(first, 1, b);
      LoaderYields(p, first + 1, n - 1);
      var samples := Stream(p.view, Mul(first, b), Mul(n, b));
      StreamConcat(p.view, Mul(first, b), b, Mul(n - 1, b));
      assert samples[..b] == Micro(p.view, b, first);
      assert samples[b..] == Stream(p.view, Mul(first + 1, b), Mul(n - 1, b));
      forall k | 0 <= k < n
        ensures LoaderBatches(samples, b)[k] == Micro(p.view, b, first + k)
      {
        if k > 0 {
          assert LoaderBatches(samples, b)[k] == LoaderBatches(samples[b..], b)[k - 1];
        }
      }
    }
  }

  // ------------------------------------------------------------------ states

  /** One session: the counter it started from, the loader, and the prefetcher's fields. */
  datatype Session = Session(
    startedAt: nat,
    loader: seq<Batch>,
    fetched: nat,
    gpuBatch: Option<Batch>,
    done: bool,
    threadRunning: bool)

  datatype Checkpoint = Checkpoint(nextMicroStep: nat, trained: seq<Batch>)

  datatype State = State(
    nextMicroStep: nat,
    trained: seq<Batch>,
    session: Option<Session>,
    checkpoint: Option<Checkpoint>,
    finished: bool)

  ghost predicate Init(s: State) {
    s == State(0, [], None, None, false)
  }

  /** _fetch_and_transfer: the next loader batch, or the end mark. */
  function Fetch(x: Session): Session {
    if x.fetched < |x.loader| then
      x.(gpuBatch := Some(x.loader[x.fetched]), fetched := x.fetched + 1, threadRunning := false)
    else x.(done := true, threadRunning := false)
  }

  ghost function LoaderFrom(p: Plan, next: nat): seq<Batch>
    requires ProperPlan(p)
  {
    LoaderBatches(Stream(p.view, Product(next, p.localBatch),
                         if next <= TotalMicroSteps(p) then Product(TotalMicroSteps(p) - next, p.localBatch) else 0),
                  p.localBatch)
  }

  /** A process starts: the counter and the model come from the latest checkpoint or from scratch.
      Training returns at once when no step is left; otherwise the loader is built from the
      counter and the first batch is fetched in the foreground. */
  ghost predicate Start(p: Plan, s: State, t: State)
    requires ProperPlan(p)
  {
    && s.session.None? && !s.finished
    && var next := if s.checkpoint.Some? then s.checkpoint.value.nextMicroStep else 0;
       var trained := if s.checkpoint.Some? then s.checkpoint.value.trained else [];
       && next % p.accumulation == 0
       && t == if next / p.accumulation >= p.maxSteps
               then s.(nextMicroStep := next, trained := trained, finished := true)
               else s.(nextMicroStep := next, trained := trained,
                       session := Some(Fetch(Session(next, LoaderFrom(p, next), 0, None, false, false))))
  }

  /** The background thread fetches one batch ahead. */
  ghost predicate FetchAhead(s: State, t: State) {
    && s.session.Some? && s.session.value.threadRunning
    && t == s.(session := Some(Fetch(s.session.value)))
  }

  /** One turn of the training loop: join, take the batch, start the thread, train.  After an
      optimizer step the state may be saved, and a requested suspension saves it and returns. */
  ghost predicate TrainBatch(p: Plan, s: State, t: State, save: bool, suspend: bool)
    requires ProperPlan(p)
  {
    && s.session.Some? && !s.session.value.threadRunning && !s.session.value.done && s.session.value.gpuBatch.Some?
    && var next := s.nextMicroStep + 1;
       var trained := s.trained + [s.session.value.gpuBatch.value];
       var sync := next % p.accumulation == 0;
       && (save || suspend ==> sync)
       && t == State(next, trained, if suspend then None else Some(s.session.value.(threadRunning := true)),
                     if save || suspend then Some(Checkpoint(next, trained)) else s.checkpoint, false)
  }

  /** The prefetcher is exhausted: the final checkpoint is saved. */
  ghost predicate Finish(s: State, t: State) {
    && s.session.Some? && !s.session.value.threadRunning && s.session.value.done
    && t == s.(session := None, checkpoint := Some(Checkpoint(s.nextMicroStep, s.trained)), finished := true)
  }

  /** The process dies: everything but the checkpoint is lost. */
  ghost predicate Crash(s: State, t: State) {
    s.session.Some? && t == State(0, [], None, s.checkpoint, false)
  }

  ghost predicate Next(p: Plan, s: State, t: State)
    requires ProperPlan(p)
  {
    || Start(p, s, t) || FetchAhead(s, t) || Finish(s, t) || Crash(s, t)
    || exists save, suspend :: TrainBatch(p, s, t, save, suspend)
  }

  ghost predicate IsRun(p: Plan, run: seq<State>)
    requires ProperPlan(p)
  {
    && |run| > 0 && Init(run[0])
    && forall i :: 0 < i < |run| ==> Next(p, run[i - 1], run[i])
  }

  // ------------------------------------------------------------------ the invariant

  ghost predicate Reached(p: Plan, next: nat, trained: seq<Batch>)
    requires ProperPlan(p)
  {
    next <= TotalMicroSteps(p) && trained == Uninterrupted(p, next)
  }

  /** The prefetcher is exactly one batch ahead of training, or has hit the end with it. */
  ghost predicate OneAhead(p: Plan, next: nat, x: Session)
    requires ProperPlan(p)
  {
    && x.startedAt <= next <= TotalMicroSteps(p)
    && |x.loader| == TotalMicroSteps(p) - x.startedAt
    && (forall k :: 0 <= k < |x.loader| ==> x.loader[k] == Micro(p.view, p.localBatch, x.startedAt + k))
    && (if x.threadRunning then x.fetched == next - x.startedAt && !x.done
        else if x.done then next == TotalMicroSteps(p)
        else x.fetched == next - x.startedAt + 1 <= |x.loader| && x.gpuBatch == Some(x.loader[next - x.startedAt]))
  }

  ghost predicate Inv(p: Plan, s: State)
    requires ProperPlan(p)
  {
    && Reached(p, s.nextMicroStep, s.trained)
    && (s.session.Some? ==> OneAhead(p, s.nextMicroStep, s.session.value))
    && (s.checkpoint.Some? ==>
          && Reached(p, s.checkpoint.value.nextMicroStep, s.checkpoint.value.trained)
          && s.checkpoint.value.nextMicroStep % p.accumulation == 0)
    && (s.finished ==> s.session.None? && s.nextMicroStep == TotalMicroSteps(p))
    && ((s.session.Some? || s.finished) && s.checkpoint.Some? ==> s.checkpoint.value.nextMicroStep <= s.nextMicroStep)
  }

  lemma UninterruptedStep(p: Plan, n: nat)
    requires ProperPlan(p)
    ensures Uninterrupted(p, n + 1) == Uninterrupted(p, n) + [Micro(p.view, p.localBatch, n)]
  {
    hide Micro, ProperView;
  }

  lemma StepsLeft(p: Plan, next: nat)
    requires ProperPlan(p) && next <= TotalMicroSteps(p) && next % p.accumulation == 0
    ensures next / p.accumulation >= p.maxSteps <==> next == TotalMicroSteps(p)
    ensures TotalMicroSteps(p) % p.accumulation == 0
  {
    hide Mul, ProperView;
    var a := p.accumulation;
    DivModForm(next, a);
    ExactQuotient(p.maxSteps, a, TotalMicroSteps(p));
    MulOrder(p.maxSteps, next / a, a);
  }

  lemma FetchIsOneAhead(p: Plan, next: nat, x: Session)
    requires ProperPlan(p) && x.startedAt <= next <= TotalMicroSteps(p)
    requires |x.loader| == TotalMicroSteps(p) - x.startedAt && x.fetched == next - x.startedAt && !x.done
    requires forall k :: 0 <= k < |x.loader| ==> x.loader[k] == Micro(p.view, p.localBatch, x.startedAt + k)
    ensures OneAhead(p, next, Fetch(x))
  {
    hide Micro, ProperView, Mul;
  }

  lemma StartKeepsInv(p: Plan, s: State, t: State)
    requires ProperPlan(p) && Inv(p, s) && Start(p, s, t)
    ensures Inv(p, t)
  {
    hide Mul, Micro, ProperView, LoaderBatches, Stream, OneAhead, Uninterrupted;
    NothingTrained(p);
    var next := t.nextMicroStep;
    StepsLeft(p, next);
    if t.session.Some? {
      LoaderYields(p, next, TotalMicroSteps(p) - next);
      FetchIsOneAhead(p, next, Session(next, LoaderFrom(p, next), 0, None, false, false));
    }
  }

  lemma NothingTrained(p: Plan)
    requires ProperPlan(p)
    ensures Uninterrupted(p, 0) == []
  {}

  lemma FetchKeepsInv(p: Plan, s: State, t: State)
    requires ProperPlan(p) && Inv(p, s) && FetchAhead(s, t)
    ensures Inv(p, t)
  {
    hide Mul, Micro, ProperView, Uninterrupted;
    FetchIsOneAhead(p, s.nextMicroStep, s.session.value);
  }

  /** Training takes exactly the next micro-batch of the uninterrupted run. */
  lemma TrainKeepsInv(p: Plan, s: State, t: State, save: bool, suspend: bool)
    requires ProperPlan(p) && Inv(p, s) && TrainBatch(p, s, t, save, suspend)
    ensures Inv(p, t)
  {
    hide Mul, Micro, ProperView, Uninterrupted;
    UninterruptedStep(p, s.nextMicroStep);
  }

  lemma EndKeepsInv(p: Plan, s: State, t: State)
    requires ProperPlan(p) && Inv(p, s) && (Finish(s, t) || Crash(s, t))
    ensures Inv(p, t)
  {
    hide Mul, Micro, ProperView, Uninterrupted;
    NothingTrained(p);
    AlignedAtEnd(p);
  }

  lemma AlignedAtEnd(p: Plan)
    requires ProperPlan(p)
    ensures TotalMicroSteps(p) % p.accumulation == 0
  {
    hide Mul, ProperView;
    ExactQuotient(p.maxSteps, p.accumulation, TotalMicroSteps(p));
  }

  lemma NextKeepsInv(p: Plan, s: State, t: State)
    requires ProperPlan(p) && Inv(p, s) && Next(p, s, t)
    ensures Inv(p, t)
  {
    hide Inv, Start, FetchAhead, Finish, Crash, TrainBatch, ProperPlan;
    if Start(p, s, t) {
      StartKeepsInv(p, s, t);
    } else if FetchAhead(s, t) {
      FetchKeepsInv(p, s, t);
    } else if Finish(s, t) || Crash(s, t) {
      EndKeepsInv(p, s, t);
    } else {
      var save, suspend :| TrainBatch(p, s, t, save, suspend);
      TrainKeepsInv(p, s, t, save, suspend);
    }
  }

  lemma {:induction false} RunInv(p: Plan, run: seq<State>, i: nat)
    requires ProperPlan(p) && IsRun(p, run) && i < |run|
    ensures Inv(p, run[i])
  {
    hide Inv, Next, ProperPlan, Init;
    if i == 0 {
      InitInv(p, run[0]);
    } else {
      RunInv(p, run, i - 1);
      NextKeepsInv(p, run[i - 1], run[i]);
    }
  }

  lemma InitInv(p: Plan, s: State)
    requires ProperPlan(p) && Init(s)
    ensures Inv(p, s)
  {
    hide ProperView, Mul;
    NothingTrained(p);
  }

  // ------------------------------------------------------------------ what the runs guarantee

  /** Resume equivalence: after any suspensions, crashes and resumptions, and whatever the
      prefetcher has read ahead, the model has been trained on exactly the first micro-batches of
      the uninterrupted run, in order. */
  lemma ResumeEquivalence(p: Plan, run: seq<State>, i: nat)
    requires ProperPlan(p) && IsRun(p, run) && i < |run|
    ensures run[i].trained == Uninterrupted(p, run[i].nextMicroStep)
    ensures run[i].nextMicroStep <= TotalMicroSteps(p)
  {
    hide IsRun, Uninterrupted, ProperPlan, OneAhead;
    RunInv(p, run, i);
  }

  /** A finished run has taken exactly the planned number of optimizer steps. */
  lemma FinishedRun(p: Plan, run: seq<State>, i: nat)
    requires ProperPlan(p) && IsRun(p, run) && i < |run| && run[i].finished
    ensures run[i].trained == Uninterrupted(p, TotalMicroSteps(p))
    ensures run[i].nextMicroStep / p.accumulation == p.maxSteps
  {
    hide IsRun, Uninterrupted, OneAhead, Mul, ProperView;
    RunInv(p, run, i);
    ExactQuotient(p.maxSteps, p.accumulation, TotalMicroSteps(p));
  }

  /** The alignment assertions never fail: every saved counter is a whole number of optimizer
      steps, so every checkpoint that is ever loaded is too. */
  lemma CheckpointsAreAligned(p: Plan, run: seq<State>, i: nat)
    requires ProperPlan(p) && IsRun(p, run) && i < |run| && run[i].checkpoint.Some?
    ensures run[i].checkpoint.value.nextMicroStep % p.accumulation == 0
    ensures run[i].checkpoint.value.trained == Uninterrupted(p, run[i].checkpoint.value.nextMicroStep)
  {
    hide IsRun, Uninterrupted, OneAhead, ProperPlan;
    RunInv(p, run, i);
  }

  /** A process that is not running can always be started again: the load assertion holds. */
  lemma CanResume(p: Plan, run: seq<State>, i: nat)
    requires ProperPlan(p) && IsRun(p, run) && i < |run| && run[i].session.None? && !run[i].finished
    ensures exists t :: Start(p, run[i], t)
  {
    hide IsRun, Uninterrupted, OneAhead, LoaderFrom, Fetch;
    RunInv(p, run, i);
    var s := run[i];
    var next := if s.checkpoint.Some? then s.checkpoint.value.nextMicroStep else 0;
    var trained := if s.checkpoint.Some? then s.checkpoint.value.trained else [];
    var t := if next / p.accumulation >= p.maxSteps then s.(nextMicroStep := next, trained := trained, finished := true)
             else s.(nextMicroStep := next, trained := trained,
                     session := Some(Fetch(Session(next, LoaderFrom(p, next), 0, None, false, false))));
    ModSmall(0, p.accumulation);
    assert Start(p, s, t);
  }

  /** A running session always has a next step: no deadlock between loop and thread. */
  lemma SessionProgresses(p: Plan, run: seq<State>, i: nat)
    requires ProperPlan(p) && IsRun(p, run) && i < |run| && run[i].session.Some?
    ensures exists t :: FetchAhead(run[i], t) || Finish(run[i], t) || TrainBatch(p, run[i], t, false, false)
  {
    hide IsRun, Uninterrupted, Fetch, Micro, ProperView, Mul;
    RunInv(p, run, i);
    var s := run[i];
    var x := s.session.value;
    if x.threadRunning {
      var t := s.(session := Some(Fetch(x)));
      assert FetchAhead(s, t);
    } else if x.done {
      var t := s.(session := None, checkpoint := Some(Checkpoint(s.nextMicroStep, s.trained)), finished := true);
      assert Finish(s, t);
    } else {
      var t := State(s.nextMicroStep + 1, s.trained + [x.gpuBatch.value], Some(x.(threadRunning := true)),
                     s.checkpoint, false);
      assert TrainBatch(p, s, t, false, false);
    }
  }

  // ------------------------------------------------------------------ nothing is trained twice

  /** How far the training has come: the counter of a running or finished process, or else the counter
      that is stored. */
  function Standing(s: State): nat {
    if s.session.Some? || s.finished then s.nextMicroStep
    else if s.checkpoint.Some? then s.checkpoint.value.nextMicroStep else 0
  }

  function StandingBatches(s: State): seq<Batch> {
    if s.session.Some? || s.finished then s.trained
    else if s.checkpoint.Some? then s.checkpoint.value.trained else []
  }

  /** A started process continues at exactly the stored counter and with the stored history; it is
      finished at once exactly when no optimizer step is left. */
  lemma StartRestores(p: Plan, s: State, t: State)
    requires ProperPlan(p) && Start(p, s, t)
    ensures t.nextMicroStep == (if s.checkpoint.Some? then s.checkpoint.value.nextMicroStep else 0)
    ensures t.trained == (if s.checkpoint.Some? then s.checkpoint.value.trained else [])
    ensures t.checkpoint == s.checkpoint && (t.session.Some? || t.finished)
    ensures t.session.Some? ==> t.session.value.startedAt == t.nextMicroStep
    ensures t.finished <==> t.nextMicroStep / p.accumulation >= p.maxSteps
  {
    hide LoaderFrom, ProperPlan;
  }

  /** A suspension loses nothing: whatever comes next starts with the same counter and history. */
  lemma SuspendedAndResumed(p: Plan, run: seq<State>, i: nat, save: bool)
    requires ProperPlan(p) && IsRun(p, run) && i + 2 < |run| && TrainBatch(p, run[i], run[i + 1], save, true)
    ensures run[i + 2].nextMicroStep == run[i + 1].nextMicroStep == run[i].nextMicroStep + 1
    ensures run[i + 2].trained == run[i + 1].trained
  {
    hide ProperPlan, LoaderFrom, Fetch;
    assert Next(p, run[i + 1], run[i + 2]);
    StartRestores(p, run[i + 1], run[i + 2]);
  }

  /** Whenever a batch is ready the loop can take a turn, after an optimizer step with any choice of saving
      and suspending, and the process can die at any time. */
  lemma TurnsAreFree(p: Plan, s: State, save: bool, suspend: bool)
    requires ProperPlan(p) && s.session.Some?
    ensures exists t :: Crash(s, t)
    ensures (!s.session.value.threadRunning && !s.session.value.done && s.session.value.gpuBatch.Some?
             && (save || suspend ==> (s.nextMicroStep + 1) % p.accumulation == 0)) ==>
              exists t :: TrainBatch(p, s, t, save, suspend)
  {
    hide ProperView, Mul;
    assert Crash(s, State(0, [], None, s.checkpoint, false));
    if s.session.value.gpuBatch.Some? {
      var next, trained := s.nextMicroStep + 1, s.trained + [s.session.value.gpuBatch.value];
      var t := State(next, trained, if suspend then None else Some(s.session.value.(threadRunning := true)),
                     if save || suspend then Some(Checkpoint(next, trained)) else s.checkpoint, false);
      assert (!s.session.value.threadRunning && !s.session.value.done
              && (save || suspend ==> next % p.accumulation == 0)) ==> TrainBatch(p, s, t, save, suspend);
    }
  }

  /** The training loop takes a turn. */
  ghost predicate Turn(p: Plan, s: State, t: State)
    requires ProperPlan(p)
  {
    exists save, suspend :: TrainBatch(p, s, t, save, suspend)
  }

  ghost function Turns(p: Plan, run: seq<State>, i: nat): nat
    requires ProperPlan(p) && i < |run|
  {
    if i == 0 then 0 else Turns(p, run, i - 1) + if Turn(p, run[i - 1], run[i]) then 1 else 0
  }

  /** The turns that crashes have undone. */
  ghost function Lost(run: seq<State>, i: nat): int
    requires i < |run|
  {
    if i == 0 then 0
    else Lost(run, i - 1) + if Crash(run[i - 1], run[i]) then Standing(run[i - 1]) - Standing(run[i]) else 0
  }

  /** Only a turn of the loop advances the training, by one, and only a crash sets it back, to what is
      stored. */
  lemma StandingStep(p: Plan, s: State, t: State)
    requires ProperPlan(p) && Inv(p, s) && Next(p, s, t)
    ensures Crash(s, t) ==> Standing(t) <= Standing(s) && !Turn(p, s, t)
    ensures Crash(s, t) ==> Standing(t) == if s.checkpoint.Some? then s.checkpoint.value.nextMicroStep else 0
    ensures !Crash(s, t) ==> Standing(t) == Standing(s) + if Turn(p, s, t) then 1 else 0
  {
    hide ProperPlan, LoaderFrom, Fetch, Reached, OneAhead;
  }

  /** Every turn counts exactly once, save those that a crash has undone. */
  lemma {:induction false} TurnsAreProgress(p: Plan, run: seq<State>, i: nat)
    requires ProperPlan(p) && IsRun(p, run) && i < |run|
    ensures Turns(p, run, i) == Standing(run[i]) + Lost(run, i) && Lost(run, i) >= 0
    ensures StandingBatches(run[i]) == Uninterrupted(p, Standing(run[i]))
  {
    hide Next, Inv, ProperPlan, Turn, Crash, Uninterrupted, Standing, StandingBatches;
    RunInv(p, run, i);
    StandingIsReached(p, run[i]);
    if i == 0 {
      NothingStands(run[0]);
    } else {
      TurnsAreProgress(p, run, i - 1);
      RunInv(p, run, i - 1);
      StandingStep(p, run[i - 1], run[i]);
    }
  }

  lemma NothingStands(s: State)
    requires Init(s)
    ensures Standing(s) == 0
  {}

  lemma StandingIsReached(p: Plan, s: State)
    requires ProperPlan(p) && Inv(p, s)
    ensures StandingBatches(s) == Uninterrupted(p, Standing(s))
  {
    hide OneAhead, Uninterrupted, ProperView, Mul;
    NothingTrained(p);
  }

  /** Without crashes no micro-batch is trained twice: there are as many turns as the counter says. */
  lemma NothingTrainedTwice(p: Plan, run: seq<State>, i: nat)
    requires ProperPlan(p) && IsRun(p, run) && i < |run| && forall k :: 0 < k <= i ==> !Crash(run[k - 1], run[k])
    ensures Turns(p, run, i) == Standing(run[i])
  {
    hide IsRun, ProperPlan, Standing, Crash, Turns;
    TurnsAreProgress(p, run, i);
    NothingLost(run, i);
  }

  lemma {:induction false} NothingLost(run: seq<State>, i: nat)
    requires i < |run| && forall k :: 0 < k <= i ==> !Crash(run[k - 1], run[k])
    ensures Lost(run, i) == 0
  {
    hide Crash;
    if i > 0 {
      NothingLost(run, i - 1);
      assert !Crash(run[i - 1], run[i]);
    }
  }

  /** A run that has trained at all and is finished has stored its final state. */
  lemma FinishedIsSaved(p: Plan, run: seq<State>, i: nat)
    requires ProperPlan(p) && IsRun(p, run) && i < |run| && run[i].finished && p.maxSteps > 0
    ensures run[i].checkpoint == Some(Checkpoint(TotalMicroSteps(p), run[i].trained))
  {
    hide LoaderFrom, Fetch, Uninterrupted, ProperView, Mul, OneAhead;
    RunInv(p, run, i);
    assert i > 0;
    RunInv(p, run, i - 1);
    TotalIsPositive(p);
    assert Next(p, run[i - 1], run[i]);
  }

  lemma TotalIsPositive(p: Plan)
    requires ProperPlan(p) && p.maxSteps > 0
    ensures TotalMicroSteps(p) > 0
  {
    hide Mul, ProperView;
    MulPositive(p.maxSteps, p.accumulation);
  }

  // ------------------------------------------------------------------ sessions end

  /** How many steps a session can still take: two per micro-step left, and the pending fetch. */
  function SessionWork(p: Plan, s: State): nat {
    if s.session.None? || s.nextMicroStep > TotalMicroSteps(p) then 0
    else 2 * (TotalMicroSteps(p) - s.nextMicroStep) + (if s.session.value.threadRunning then 1 else 0) + 1
  }

  lemma SessionStepWorks(p: Plan, s: State, t: State)
    requires ProperPlan(p) && Inv(p, s) && Next(p, s, t) && s.session.Some? && t.session.Some?
    ensures SessionWork(p, t) < SessionWork(p, s)
  {
    hide Micro, ProperView, Mul, Uninterrupted, LoaderFrom;
  }

  /** A session ends: each of its steps uses up work, so it takes at most as many steps as there is
      work, in whatever way loop and thread interleave. */
  lemma {:induction false} SessionTerminates(p: Plan, run: seq<State>, i: nat, j: nat)
    requires ProperPlan(p) && IsRun(p, run) && i <= j < |run| && forall k :: i <= k <= j ==> run[k].session.Some?
    ensures j - i + SessionWork(p, run[j]) <= SessionWork(p, run[i])
    decreases j
  {
    hide Inv, Next, ProperPlan, SessionWork;
    if i < j {
      SessionTerminates(p, run, i, j - 1);
      RunInv(p, run, j - 1);
      SessionStepWorks(p, run[j - 1], run[j]);
    }
  }

  // ------------------------------------------------------------------ all ranks together

  function PlanOf(u: Setup, rank: nat, maxSteps: nat): Plan {
    Plan(ViewOf(u, rank), u.localBatch, u.accumulation, maxSteps)
  }

  lemma PlanIsProper(u: Setup, rank: nat, maxSteps: nat)
    requires ProperSetup(u) && rank < u.world
    ensures ProperPlan(PlanOf(u, rank, maxSteps))
  {
    hide ProperView, Mul;
    ViewIsProper(u, rank);
  }

  /** The samples of consecutive micro-batches. */
  function Flatten(batches: seq<Batch>): seq<nat> {
    if batches == [] then [] else Flatten(batches[..|batches| - 1]) + batches[|batches| - 1]
  }

  lemma {:induction false} FlattenSlice(p: Plan, first: nat, n: nat, total: nat)
    requires ProperPlan(p) && first + n <= total
    ensures Flatten(Uninterrupted(p, total)[first..first + n]) == Micros(p.view, p.localBatch, first, n)
  {
    hide Micro, ProperView;
    if n > 0 {
      FlattenSlice(p, first, n - 1, total);
      var part := Uninterrupted(p, total)[first..first + n];
      assert part[..n - 1] == Uninterrupted(p, total)[first..first + n - 1];
    }
  }

  /** The samples that one rank has trained on in optimizer step s. */
  function StepSamples(trained: seq<Batch>, accumulation: nat, s: nat): seq<nat>
    requires Product(s, accumulation) + accumulation <= |trained|
  {
    Flatten(trained[Product(s, accumulation)..Product(s, accumulation) + accumulation])
  }

  lemma StepOfRank(u: Setup, rank: nat, maxSteps: nat, s: nat)
    requires ProperSetup(u) && rank < u.world && s < maxSteps && ProperPlan(PlanOf(u, rank, maxSteps))
    ensures var p := PlanOf(u, rank, maxSteps);
            && Product(s, u.accumulation) + u.accumulation <= TotalMicroSteps(p)
            && StepSamples(Uninterrupted(p, TotalMicroSteps(p)), u.accumulation, s) == RankStep(u, rank, s)
  {
    hide Mul, ProperView, Micro;
    var p := PlanOf(u, rank, maxSteps);
    MulOrder(s, maxSteps, u.accumulation);
    FlattenSlice(p, Product(s, u.accumulation), u.accumulation, TotalMicroSteps(p));
  }

  /** One finished run per rank. */
  ghost predicate AllFinished(u: Setup, maxSteps: nat, runs: seq<seq<State>>)
    requires ProperSetup(u)
  {
    && |runs| == u.world
    && forall r :: 0 <= r < |runs| ==> RankFinished(u, r, maxSteps, runs[r])
  }

  ghost predicate RankFinished(u: Setup, rank: nat, maxSteps: nat, run: seq<State>)
    requires ProperSetup(u)
  {
    && rank < u.world && |run| > 0
    && (PlanIsProper(u, rank, maxSteps); IsRun(PlanOf(u, rank, maxSteps), run)) && run[|run| - 1].finished
  }

  lemma RankTrained(u: Setup, rank: nat, maxSteps: nat, run: seq<State>, s: nat)
    requires ProperSetup(u) && RankFinished(u, rank, maxSteps, run) && s < maxSteps
    ensures Product(s, u.accumulation) + u.accumulation <= |run[|run| - 1].trained|
    ensures StepSamples(run[|run| - 1].trained, u.accumulation, s) == RankStep(u, rank, s)
  {
    hide Mul, Uninterrupted, StepSamples, RankStep, IsRun, ProperPlan, ProperSetup;
    PlanIsProper(u, rank, maxSteps);
    FinishedRun(PlanOf(u, rank, maxSteps), run, |run| - 1);
    StepOfRank(u, rank, maxSteps, s);
  }

  /** What the first n ranks have trained on in optimizer step s. */
  ghost function TrainedInStep(u: Setup, maxSteps: nat, runs: seq<seq<State>>, s: nat, n: nat): multiset<nat>
    requires ProperSetup(u) && AllFinished(u, maxSteps, runs) && s < maxSteps && n <= u.world
  {
    if n == 0 then multiset{}
    else
      RankTrained(u, n - 1, maxSteps, runs[n - 1], s);
      var run := runs[n - 1];
      TrainedInStep(u, maxSteps, runs, s, n - 1) + multiset(StepSamples(run[|run| - 1].trained, u.accumulation, s))
  }

  lemma {:induction false} TrainedIsContent(u: Setup, maxSteps: nat, runs: seq<seq<State>>, s: nat, n: nat)
    requires ProperSetup(u) && AllFinished(u, maxSteps, runs) && s < maxSteps && n <= u.world
    ensures TrainedInStep(u, maxSteps, runs, s, n) == StepContent(u, s, n)
  {
    hide Mul, StepSamples, RankStep, RankFinished, ProperSetup;
    if n > 0 {
      TrainedIsContent(u, maxSteps, runs, s, n - 1);
      RankTrained(u, n - 1, maxSteps, runs[n - 1], s);
    }
  }

  /** Whatever happened to each rank on the way, what all ranks have trained on in optimizer step s is
      the block of the shuffle that belongs to the step. */
  lemma TrainingConsumesBlocks(u: Setup, maxSteps: nat, runs: seq<seq<State>>, s: nat)
    requires ProperSetup(u) && AllFinished(u, maxSteps, runs) && s < maxSteps
    ensures TrainedInStep(u, maxSteps, runs, s, u.world) == multiset(Block(u, s))
  {
    hide TrainedInStep, StepContent, Block, AllFinished, ProperSetup;
    TrainedIsContent(u, maxSteps, runs, s, u.world);
    StepConsumesBlock(u, s);
  }
}
