// ProcessShards: the dispatch loop, the semaphore and wait group, one goroutine per
// dispatched shard, the two result channels, and cancellation and wait timeout from
// outside.

module Scheduler {
  import opened Sequences
  import opened ShardPlan

  // How ProcessShardSafe ends for a shard.  A result without an error counts as success,
  // whatever path it carries.
  datatype Outcome = Success(count: nat, path: string) | Error | Panic

  // How far safeProcessShard has come; each change is one step.
  datatype Stage = Absent | Spawned | Running | Decided | Counted | Sent | TokenBack | Released | Gone

  datatype Worker = Worker(stage: Stage, outcome: Outcome, shard: Shard)

  datatype Return = Nil | ShardsFailed(n: int) | WaitTimeout

  datatype Dispatcher =
    | Check(i: nat)
    | Acquire(i: nat)
    | HaveToken(i: nat)
    | Spawn(i: nat)
    | Wait
    | Finished(ret: Return)

  // refused counts failed acquisitions, late the shards dispatched after cancellation.
  datatype State = State(
    capacity: nat,
    threshold: int,
    dispatcher: Dispatcher,
    workers: seq<Worker>,
    tokens: nat,
    acquired: int,
    released: int,
    waiting: int,
    errs: nat,
    results: nat,
    failed: int,
    processed: int,
    panics: int,
    cancelled: bool,
    refused: nat,
    late: nat)

  datatype Action = Dispatch | AcquireToken | AcquireRefused | Work(i: nat) | Cancel | TimeOut

  function Init(capacity: nat, threshold: int, shards: seq<Shard>, outcomes: seq<Outcome>): State
    requires |shards| == |outcomes|
  {
    State(capacity, threshold, Check(0),
          seq(|shards|, i requires 0 <= i < |shards| => Worker(Absent, outcomes[i], shards[i])),
          0, 0, 0, 0, 0, 0, 0, 0, 0, false, 0, 0)
  }

  // Both channels are made with room for one message per shard.
  function Room(s: State): nat { |s.workers| }

  function Leaks(s: State): int { s.acquired - s.released }

  function Decide(sh: Shard, o: Outcome): Shard {
    if o.Success? then sh.Complete(o.count, o.path) else sh.Fail()
  }

  function Set(s: State, i: nat, w: Worker): State
    requires i < |s.workers|
  {
    s.(workers := s.workers[i := w])
  }

  // One step of worker i; None when it does not exist, is blocked or has gone.
  function WorkStep(s: State, i: nat): Option<State> {
    if i >= |s.workers| then None
    else
      var w := s.workers[i];
      match w.stage
      case Absent => None
      case Spawned => Some(Set(s, i, w.(stage := Stage.Running, shard := w.shard.Start())))
      case Running =>
        var t := Set(s, i, w.(stage := Decided, shard := Decide(w.shard, w.outcome)));
        Some(t.(panics := s.panics + Bit(w.outcome.Panic?)))
      case Decided =>
        var t := Set(s, i, w.(stage := Counted));
        Some(if w.outcome.Success? then t.(processed := s.processed + w.outcome.count) else t.(failed := s.failed + 1))
      case Counted =>
        if (if w.outcome.Success? then s.results else s.errs) >= Room(s) then None
        else
          var t := Set(s, i, w.(stage := Sent));
          if w.outcome.Success? then Some(t.(results := s.results + 1))
          else Some(t.(errs := s.errs + 1, cancelled := s.cancelled || (w.outcome.Panic? && s.panics >= s.threshold)))
      case Sent =>
        // Release without a token in the channel only logs
        Some(if s.tokens > 0 then Set(s, i, w.(stage := TokenBack)).(tokens := s.tokens - 1)
             else Set(s, i, w.(stage := Released)))
      case TokenBack => Some(Set(s, i, w.(stage := Released)).(released := s.released + 1))
      case Released => Some(Set(s, i, w.(stage := Gone)).(waiting := s.waiting - 1))
      case Gone => None
  }

  function Exec(s: State, a: Action): Option<State> {
    if s.dispatcher.Finished? then None
    else
      match a
      case Work(i) => WorkStep(s, i)
      case Cancel => if s.cancelled then None else Some(s.(cancelled := true))
      case TimeOut =>
        if s.dispatcher.Wait? then Some(s.(cancelled := true, dispatcher := Finished(WaitTimeout))) else None
      case AcquireToken =>
        if s.dispatcher.Acquire? && s.tokens < s.capacity
        then Some(s.(tokens := s.tokens + 1, dispatcher := HaveToken(s.dispatcher.i)))
        else None
      case AcquireRefused =>
        if s.dispatcher.Acquire? && s.cancelled && s.errs < Room(s)
        then Some(s.(failed := s.failed + 1, errs := s.errs + 1, refused := s.refused + 1,
                     dispatcher := Check(s.dispatcher.i + 1)))
        else None
      case Dispatch =>
        match s.dispatcher
        case Check(i) => Some(s.(dispatcher := if i >= |s.workers| || s.cancelled then Wait else Acquire(i)))
        case HaveToken(i) => Some(s.(acquired := s.acquired + 1, dispatcher := Spawn(i)))
        case Spawn(i) =>
          if i >= |s.workers| then None
          else
            var t := Set(s, i, s.workers[i].(stage := Spawned));
            Some(t.(waiting := s.waiting + 1, dispatcher := Check(i + 1), late := s.late + Bit(s.cancelled)))
        case Wait =>
          if s.waiting != 0 then None
          else Some(s.(dispatcher := Finished(if s.failed > 0 then ShardsFailed(s.failed) else Nil)))
        case _ => None
  }

  function Run(s: State, acts: seq<Action>): Option<State> {
    if acts == [] then Some(s)
    else
      match Run(s, acts[..|acts| - 1])
      case None => None
      case Some(t) => Exec(t, acts[|acts| - 1])
  }

  // ------------------------------------------------------------------- accounting

  predicate Present(w: Worker) { !w.stage.Absent? }
  predicate Holding(w: Worker) {
    w.stage.Spawned? || w.stage.Running? || w.stage.Decided? || w.stage.Counted? || w.stage.Sent?
  }
  predicate Leaking(w: Worker) { Holding(w) || w.stage.TokenBack? }
  predicate Awaited(w: Worker) { Leaking(w) || w.stage.Released? }
  predicate HasSent(w: Worker) { w.stage.Sent? || w.stage.TokenBack? || w.stage.Released? || w.stage.Gone? }
  predicate HasCounted(w: Worker) { HasSent(w) || w.stage.Counted? }
  predicate SentError(w: Worker) { HasSent(w) && !w.outcome.Success? }
  predicate SentResult(w: Worker) { HasSent(w) && w.outcome.Success? }
  predicate CountedFailure(w: Worker) { HasCounted(w) && !w.outcome.Success? }
  predicate Panicked(w: Worker) { (HasCounted(w) || w.stage.Decided?) && w.outcome.Panic? }
  predicate SentPanic(w: Worker) { HasSent(w) && w.outcome.Panic? }
  function Recorded(w: Worker): int { if HasCounted(w) && w.outcome.Success? then w.outcome.count else 0 }

  function Dispatched(s: State): nat {
    match s.dispatcher
    case Check(i) => i
    case Acquire(i) => i
    case HaveToken(i) => i
    case Spawn(i) => i
    case _ => |s.workers|
  }

  ghost predicate DispatcherOk(s: State) {
    && (s.dispatcher.Check? ==> s.dispatcher.i <= |s.workers|)
    && (s.dispatcher.Acquire? || s.dispatcher.HaveToken? || s.dispatcher.Spawn? ==> s.dispatcher.i < |s.workers|)
    && (!s.dispatcher.Wait? && !s.dispatcher.Finished? ==>
          forall j :: Dispatched(s) <= j < |s.workers| ==> s.workers[j].stage.Absent?)
    && Count(Present, s.workers) + s.refused <= Dispatched(s)
    && (s.refused + s.late > 0 ==>
           s.cancelled && !s.dispatcher.Acquire? && !s.dispatcher.HaveToken? && !s.dispatcher.Spawn?)
    && s.refused + s.late <= 1
    && (!s.cancelled ==> Count(Present, s.workers) == Dispatched(s))
  }

  ghost predicate TokenCounters(s: State) {
    && s.tokens == Count(Holding, s.workers) + Bit(s.dispatcher.HaveToken? || s.dispatcher.Spawn?) <= s.capacity
    && Leaks(s) == Count(Leaking, s.workers) + Bit(s.dispatcher.Spawn?)
    && s.waiting == Count(Awaited, s.workers)
  }

  ghost predicate MessageCounters(s: State) {
    && s.errs == Count(SentError, s.workers) + s.refused
    && s.results == Count(SentResult, s.workers)
    && s.failed == Count(CountedFailure, s.workers) + s.refused
  }

  // Panics are counted when recovered, and the one that reaches the threshold cancels.
  ghost predicate PanicCounters(s: State) {
    && s.processed == Sum(Recorded, s.workers)
    && s.panics == Count(Panicked, s.workers)
    && (Count(SentPanic, s.workers) >= 1 && Count(SentPanic, s.workers) >= s.threshold ==> s.cancelled)
  }

  ghost predicate Counters(s: State) {
    && TokenCounters(s) && MessageCounters(s)
    && (s.dispatcher.Finished? && s.dispatcher.ret != WaitTimeout ==>
          s.waiting == 0 && s.dispatcher.ret == if s.failed > 0 then ShardsFailed(s.failed) else Nil)
  }

  // Where a shard's record stands, given the shard and the outcome it started with.
  predicate ShardOk(w: Worker, sh: Shard, o: Outcome) {
    && w.outcome == o
    && w.shard == match w.stage
                  case Absent => sh
                  case Spawned => sh
                  case Running => sh.Start()
                  case _ => Decide(sh.Start(), o)
  }

  ghost predicate Inv(s: State, shards: seq<Shard>, outcomes: seq<Outcome>) {
    && |s.workers| == |shards| == |outcomes|
    && (forall j :: 0 <= j < |shards| ==> ShardOk(s.workers[j], shards[j], outcomes[j]))
    && DispatcherOk(s)
    && Counters(s)
    && PanicCounters(s)
  }

  lemma {:induction false} MessagesOnce(ws: seq<Worker>)
    ensures Count(SentError, ws) + Count(SentResult, ws) <= Count(Present, ws)
  {
    if ws != [] {
      MessagesOnce(ws[1..]);
    }
  }

  lemma {:induction false} UnsentLeavesRoom(ws: seq<Worker>, i: nat)
    requires i < |ws| && Present(ws[i]) && !HasSent(ws[i])
    ensures Count(SentError, ws) + Count(SentResult, ws) < Count(Present, ws)
  {
    if i > 0 {
      UnsentLeavesRoom(ws[1..], i - 1);
    } else {
      MessagesOnce(ws[1..]);
    }
  }

  lemma HolderHasToken(s: State, i: nat)
    requires i < |s.workers| && Holding(s.workers[i]) && Counters(s)
    ensures s.tokens > 0
  {
    CountExtremes(Holding, s.workers);
  }

  function WorkerWeight(w: Worker): int {
    match w.stage
    case Absent => 8 case Spawned => 7 case Running => 6 case Decided => 5 case Counted => 4
    case Sent => 3 case TokenBack => 2 case Released => 1 case Gone => 0
  }

  // A worker step changes one worker, forwards, and leaves the dispatcher alone.
  lemma WorkShape(s: State, i: nat, t: State)
    requires WorkStep(s, i) == Some(t)
    ensures i < |s.workers| && |t.workers| == |s.workers| && t.workers == s.workers[i := t.workers[i]]
    ensures Present(s.workers[i]) && Present(t.workers[i]) && t.workers[i].outcome == s.workers[i].outcome
    ensures WorkerWeight(t.workers[i]) < WorkerWeight(s.workers[i])
    ensures t.dispatcher == s.dispatcher && t.refused == s.refused && t.late == s.late && t.capacity == s.capacity
    ensures s.cancelled ==> t.cancelled
    ensures t.cancelled && !s.cancelled ==> s.workers[i].stage.Counted?
  {
  }

  lemma WorkKeepsTokens(s: State, i: nat, t: State)
    requires Counters(s) && WorkStep(s, i) == Some(t)
    ensures TokenCounters(t)
  {
    WorkShape(s, i, t);
    if s.workers[i].stage.Sent? {
      HolderHasToken(s, i);
    }
    CountUpdate(Holding, s.workers, i, t.workers[i]);
    CountUpdate(Leaking, s.workers, i, t.workers[i]);
    CountUpdate(Awaited, s.workers, i, t.workers[i]);
  }

  lemma WorkKeepsMessages(s: State, i: nat, t: State)
    requires MessageCounters(s) && WorkStep(s, i) == Some(t)
    ensures MessageCounters(t)
  {
    WorkShape(s, i, t);
    CountUpdate(SentError, s.workers, i, t.workers[i]);
    CountUpdate(SentResult, s.workers, i, t.workers[i]);
    CountUpdate(CountedFailure, s.workers, i, t.workers[i]);
  }

  lemma WorkKeepsPanics(s: State, i: nat, t: State)
    requires PanicCounters(s) && WorkStep(s, i) == Some(t)
    ensures PanicCounters(t)
  {
    WorkShape(s, i, t);
    SumUpdate(Recorded, s.workers, i, t.workers[i]);
    CountUpdate(Panicked, s.workers, i, t.workers[i]);
    CountUpdate(SentPanic, s.workers, i, t.workers[i]);
    CountMonotone(SentPanic, Panicked, t.workers);
  }

  lemma WorkKeepsDispatcher(s: State, i: nat, t: State)
    requires DispatcherOk(s) && WorkStep(s, i) == Some(t)
    ensures DispatcherOk(t)
  {
    WorkShape(s, i, t);
    CountUpdate(Present, s.workers, i, t.workers[i]);
  }

  lemma WorkKeepsInv(s: State, i: nat, t: State, shards: seq<Shard>, outcomes: seq<Outcome>)
    requires Inv(s, shards, outcomes) && !s.dispatcher.Finished? && WorkStep(s, i) == Some(t)
    ensures Inv(t, shards, outcomes)
  {
    WorkShape(s, i, t);
    WorkKeepsTokens(s, i, t);
    WorkKeepsMessages(s, i, t);
    WorkKeepsPanics(s, i, t);
    WorkKeepsDispatcher(s, i, t);
    assert ShardOk(t.workers[i], shards[i], outcomes[i]) by {
      assert ShardOk(s.workers[i], shards[i], outcomes[i]);
    }
  }

  lemma SpawnKeepsPanics(s: State, t: State)
    requires PanicCounters(s) && s.dispatcher.Spawn? && Exec(s, Dispatch) == Some(t)
    requires s.dispatcher.i < |s.workers| && s.workers[s.dispatcher.i].stage.Absent?
    ensures PanicCounters(t)
  {
    var i := s.dispatcher.i;
    assert t.workers == s.workers[i := t.workers[i]];
    SumUpdate(Recorded, s.workers, i, t.workers[i]);
    CountUpdate(Panicked, s.workers, i, t.workers[i]);
    CountUpdate(SentPanic, s.workers, i, t.workers[i]);
  }

  lemma SpawnKeepsInv(s: State, t: State, shards: seq<Shard>, outcomes: seq<Outcome>)
    requires Inv(s, shards, outcomes) && s.dispatcher.Spawn? && Exec(s, Dispatch) == Some(t)
    ensures Inv(t, shards, outcomes)
  {
    var i := s.dispatcher.i;
    assert t.workers == s.workers[i := t.workers[i]];
    CountUpdate(Present, s.workers, i, t.workers[i]);
    CountUpdate(Holding, s.workers, i, t.workers[i]);
    CountUpdate(Leaking, s.workers, i, t.workers[i]);
    CountUpdate(Awaited, s.workers, i, t.workers[i]);
    CountUpdate(SentError, s.workers, i, t.workers[i]);
    CountUpdate(SentResult, s.workers, i, t.workers[i]);
    CountUpdate(CountedFailure, s.workers, i, t.workers[i]);
    SpawnKeepsPanics(s, t);
    assert Counters(t);
    assert DispatcherOk(t);
  }

  lemma DispatchKeepsInv(s: State, a: Action, t: State, shards: seq<Shard>, outcomes: seq<Outcome>)
    requires Inv(s, shards, outcomes) && !a.Work? && !(a.Dispatch? && s.dispatcher.Spawn?) && Exec(s, a) == Some(t)
    ensures Inv(t, shards, outcomes)
  {
    assert t.workers == s.workers;
    assert Counters(t);
    assert DispatcherOk(t);
  }

  lemma StepKeepsLimits(s: State, a: Action, t: State)
    requires Exec(s, a) == Some(t)
    ensures t.capacity == s.capacity && t.threshold == s.threshold
  {
  }

  lemma StepKeepsInv(s: State, a: Action, t: State, shards: seq<Shard>, outcomes: seq<Outcome>)
    requires Inv(s, shards, outcomes) && Exec(s, a) == Some(t)
    ensures Inv(t, shards, outcomes)
  {
    if a.Work? {
      WorkKeepsInv(s, a.i, t, shards, outcomes);
    } else if a.Dispatch? && s.dispatcher.Spawn? {
      SpawnKeepsInv(s, t, shards, outcomes);
    } else {
      DispatchKeepsInv(s, a, t, shards, outcomes);
    }
  }

  lemma {:induction false} AbsentCounts(ws: seq<Worker>)
    requires forall i :: 0 <= i < |ws| ==> ws[i].stage.Absent?
    ensures Count(Present, ws) == Count(Holding, ws) == Count(Leaking, ws) == Count(Awaited, ws) == 0
    ensures Count(SentError, ws) == Count(SentResult, ws) == Count(CountedFailure, ws) == 0
    ensures Count(Panicked, ws) == Count(SentPanic, ws) == Sum(Recorded, ws) == 0
  {
    if ws != [] {
      AbsentCounts(ws[1..]);
    }
  }

  lemma InvInit(capacity: nat, threshold: int, shards: seq<Shard>, outcomes: seq<Outcome>)
    requires |shards| == |outcomes|
    ensures Inv(Init(capacity, threshold, shards, outcomes), shards, outcomes)
  {
    var s := Init(capacity, threshold, shards, outcomes);
    AbsentCounts(s.workers);
    assert Counters(s) && DispatcherOk(s);
  }

  lemma {:induction false} RunInv(capacity: nat, threshold: int, shards: seq<Shard>, outcomes: seq<Outcome>,
          acts: seq<Action>, s: State)
    requires |shards| == |outcomes| && Run(Init(capacity, threshold, shards, outcomes), acts) == Some(s)
    ensures Inv(s, shards, outcomes) && s.capacity == capacity && s.threshold == threshold
  {
    if acts == [] {
      InvInit(capacity, threshold, shards, outcomes);
    } else {
      var t := Run(Init(capacity, threshold, shards, outcomes), acts[..|acts| - 1]).value;
      var a := acts[|acts| - 1];
      RunInv(capacity, threshold, shards, outcomes, acts[..|acts| - 1], t);
      StepKeepsInv(t, a, s, shards, outcomes);
      StepKeepsLimits(t, a, s);
    }
  }

  // In every reachable state: at most capacity workers hold a token, no token is
  // over-released, the messages fit their channels, and a worker about to send can.
  lemma SchedulerSafety(capacity: nat, threshold: int, shards: seq<Shard>, outcomes: seq<Outcome>,
                        acts: seq<Action>, s: State)
    requires |shards| == |outcomes| && Run(Init(capacity, threshold, shards, outcomes), acts) == Some(s)
    ensures Count(Holding, s.workers) <= s.tokens <= capacity
    ensures Leaks(s) >= 0
    ensures s.errs + s.results <= |shards|
    ensures forall i :: 0 <= i < |s.workers| && s.workers[i].stage.Counted? && !s.dispatcher.Finished? ==>
              WorkStep(s, i).Some?
    ensures s.late <= 1 && s.refused <= 1
    ensures s.panics == Count(Panicked, s.workers)
    ensures Count(SentPanic, s.workers) >= 1 && Count(SentPanic, s.workers) >= threshold ==> s.cancelled
  {
    RunInv(capacity, threshold, shards, outcomes, acts, s);
    MessagesOnce(s.workers);
    forall i | 0 <= i < |s.workers| && s.workers[i].stage.Counted?
      ensures s.errs + s.results < |shards|
    {
      UnsentLeavesRoom(s.workers, i);
    }
  }

  // ---- what the limits allow, and what cancels

  lemma Reached(s: State, acts: seq<Action>, t: State, a: Action, u: State)
    requires Run(s, acts) == Some(t) && Exec(t, a) == Some(u)
    ensures Run(s, acts + [a]) == Some(u)
  {
    assert (acts + [a])[..|acts|] == acts;
  }

  // As many goroutines as there are tokens, and shards for them, can run at once.
  lemma {:induction false} CapacityReached(capacity: nat, threshold: int, shards: seq<Shard>, outcomes: seq<Outcome>,
          k: nat)
    returns (acts: seq<Action>, s: State)
    requires |shards| == |outcomes| && k <= capacity && k <= |shards|
    ensures Run(Init(capacity, threshold, shards, outcomes), acts) == Some(s)
    ensures Count(Holding, s.workers) == k && s.dispatcher == Check(k) && s.tokens == k && !s.cancelled
    ensures |s.workers| == |shards| && s.capacity == capacity
    ensures forall j :: k <= j < |shards| ==> s.workers[j].stage.Absent?
  {
    var i := Init(capacity, threshold, shards, outcomes);
    if k == 0 {
      acts, s := [], i;
      AbsentCounts(s.workers);
    } else {
      var front, t := CapacityReached(capacity, threshold, shards, outcomes, k - 1);
      var t1 := Exec(t, Dispatch).value;
      var t2 := Exec(t1, AcquireToken).value;
      var t3 := Exec(t2, Dispatch).value;
      s := Exec(t3, Dispatch).value;
      CountUpdate(Holding, t.workers, k - 1, s.workers[k - 1]);
      Reached(i, front, t, Dispatch, t1);
      Reached(i, front + [Dispatch], t1, AcquireToken, t2);
      Reached(i, front + [Dispatch] + [AcquireToken], t2, Dispatch, t3);
      Reached(i, front + [Dispatch] + [AcquireToken] + [Dispatch], t3, Dispatch, s);
      acts := front + [Dispatch] + [AcquireToken] + [Dispatch] + [Dispatch];
    }
  }

  // Why a run is cancelled: from outside, by the wait timeout, or by panics that have
  // reached the threshold.
  ghost predicate CancelHasCause(acts: seq<Action>, s: State) {
    s.cancelled ==> Cancel in acts || TimeOut in acts || (s.panics >= s.threshold && s.panics >= 1)
  }

  lemma {:induction false} CancelledByWhat(i: State, shards: seq<Shard>, outcomes: seq<Outcome>, acts: seq<Action>,
          s: State)
    requires Inv(i, shards, outcomes) && !i.cancelled && Run(i, acts) == Some(s)
    ensures CancelHasCause(acts, s)
  {
    if acts != [] {
      var front, a := acts[..|acts| - 1], acts[|acts| - 1];
      var t := Run(i, front).value;
      CancelledByWhat(i, shards, outcomes, front, t);
      InvOn(i, shards, outcomes, front, t);
      CauseStep(front, t, a, s);
      assert acts == front + [a];
    }
  }

  lemma CauseStep(acts: seq<Action>, s: State, a: Action, t: State)
    requires CancelHasCause(acts, s) && PanicCounters(s) && Exec(s, a) == Some(t)
    ensures CancelHasCause(acts + [a], t)
  {
    CancelStep(s, a, t);
    StepKeepsLimits(s, a, t);
    assert a in acts + [a] && forall x :: x in acts ==> x in acts + [a];
  }

  // The scheduler cancels by itself only when the panics have reached the threshold.
  lemma CancellationHasCause(capacity: nat, threshold: int, shards: seq<Shard>, outcomes: seq<Outcome>,
                             acts: seq<Action>, s: State)
    requires |shards| == |outcomes| && Run(Init(capacity, threshold, shards, outcomes), acts) == Some(s)
    ensures s.cancelled ==> Cancel in acts || TimeOut in acts || (s.panics >= threshold && s.panics >= 1)
  {
    var i := Init(capacity, threshold, shards, outcomes);
    InvInit(capacity, threshold, shards, outcomes);
    CancelledByWhat(i, shards, outcomes, acts, s);
    RunInv(capacity, threshold, shards, outcomes, acts, s);
  }

  lemma CancelStep(s: State, a: Action, t: State)
    requires PanicCounters(s) && Exec(s, a) == Some(t)
    ensures t.panics >= s.panics
    ensures t.cancelled && !s.cancelled ==>
              a == Cancel || a == TimeOut || (t.panics >= s.threshold && t.panics >= 1)
  {
    if a.Work? {
      PanicsGrow(s, a.i, t);
    }
  }

  lemma PanicsGrow(s: State, i: nat, t: State)
    requires PanicCounters(s) && WorkStep(s, i) == Some(t)
    ensures t.panics >= s.panics && t.threshold == s.threshold
    ensures t.cancelled && !s.cancelled ==> t.panics >= s.threshold && t.panics >= 1
  {
    CountExtremes(Panicked, s.workers);
  }

  predicate ShardFailed(w: Worker) { w.shard.status.Failed? }

  function ShardRecords(w: Worker): int { if w.shard.status.Completed? then w.shard.recordCount else 0 }

  lemma FinishedStages(s: State, shards: seq<Shard>, outcomes: seq<Outcome>)
    requires Inv(s, shards, outcomes) && s.waiting == 0
    ensures Leaks(s) == Bit(s.dispatcher.Spawn?)
    ensures forall j :: 0 <= j < |s.workers| ==> s.workers[j].stage.Absent? || s.workers[j].stage.Gone?
  {
    CountExtremes(Awaited, s.workers);
    CountMonotone(Leaking, Awaited, s.workers);
  }

  // When the wait ends normally: no leaks; every dispatched shard carries its outcome and
  // every other one is untouched; failed is the number of FAILED shards plus at most one
  // refused acquisition; and the return value says whether it is zero.
  lemma NormalCompletion(capacity: nat, threshold: int, shards: seq<Shard>, outcomes: seq<Outcome>,
                         acts: seq<Action>, s: State)
    requires |shards| == |outcomes| && Run(Init(capacity, threshold, shards, outcomes), acts) == Some(s)
    requires s.dispatcher.Finished? && s.dispatcher.ret != WaitTimeout
    requires forall j :: 0 <= j < |shards| ==> shards[j].status.Pending?
    ensures |s.workers| == |shards| && Leaks(s) == 0
    ensures forall j :: 0 <= j < |shards| ==>
              s.workers[j].shard
                == (if s.workers[j].stage.Absent? then shards[j] else Decide(shards[j].Start(), outcomes[j]))
    ensures s.failed == Count(ShardFailed, s.workers) + s.refused && s.refused <= 1
    ensures s.processed == Sum(ShardRecords, s.workers)
    ensures s.dispatcher.ret == if s.failed > 0 then ShardsFailed(s.failed) else Nil
    ensures !s.cancelled ==> forall j :: 0 <= j < |shards| ==> Present(s.workers[j])
  {
    RunInv(capacity, threshold, shards, outcomes, acts, s);
    FinishedStages(s, shards, outcomes);
    CountExtremes(Present, s.workers);
    CountMonotone(ShardFailed, CountedFailure, s.workers);
    CountMonotone(CountedFailure, ShardFailed, s.workers);
    SumSame(Recorded, ShardRecords, s.workers);
  }

  predicate ShardCompleted(w: Worker) { w.shard.status.Completed? }

  // By then every dispatched shard has sent one message: an error for each failure, a result
  // for each completed shard.
  lemma MessagesAtTheEnd(capacity: nat, threshold: int, shards: seq<Shard>, outcomes: seq<Outcome>,
                         acts: seq<Action>, s: State)
    requires |shards| == |outcomes| && Run(Init(capacity, threshold, shards, outcomes), acts) == Some(s)
    requires s.dispatcher.Finished? && s.dispatcher.ret != WaitTimeout
    requires forall j :: 0 <= j < |shards| ==> shards[j].status.Pending?
    ensures s.errs == s.failed && s.results == Count(ShardCompleted, s.workers)
  {
    RunInv(capacity, threshold, shards, outcomes, acts, s);
    FinishedStages(s, shards, outcomes);
    CountMonotone(SentError, CountedFailure, s.workers);
    CountMonotone(CountedFailure, SentError, s.workers);
    CountMonotone(SentResult, ShardCompleted, s.workers);
    CountMonotone(ShardCompleted, SentResult, s.workers);
  }

  // In every reachable state: a shard is untouched until its goroutine starts, then RUNNING,
  // then COMPLETED with the reported count and path, or FAILED with one more retry used up;
  // its index and bounds never change.
  lemma StatusFollowsStage(capacity: nat, threshold: int, shards: seq<Shard>, outcomes: seq<Outcome>,
                           acts: seq<Action>, s: State, j: nat)
    requires |shards| == |outcomes| && Run(Init(capacity, threshold, shards, outcomes), acts) == Some(s)
    requires j < |shards|
    ensures j < |s.workers|
    ensures var w, sh, o := s.workers[j], shards[j], outcomes[j];
            && w.shard.index == sh.index && w.shard.startID == sh.startID && w.shard.endID == sh.endID
            && w.shard.maxRetryCount == sh.maxRetryCount
            && (w.stage.Absent? || w.stage.Spawned? ==> w.shard == sh)
            && (w.stage.Running? ==> w.shard.status.Running? && w.shard.retryCount == sh.retryCount)
            && (!w.stage.Absent? && !w.stage.Spawned? && !w.stage.Running? && o.Success? ==>
                  w.shard.status.Completed? && w.shard.recordCount == o.count && w.shard.ossPath == o.path)
            && (!w.stage.Absent? && !w.stage.Spawned? && !w.stage.Running? && !o.Success? ==>
                  w.shard.status.Failed? && w.shard.retryCount == sh.retryCount + 1)
  {
    RunInv(capacity, threshold, shards, outcomes, acts, s);
    assert ShardOk(s.workers[j], shards[j], outcomes[j]);
  }

  // ProcessShards returns nil only if every dispatched shard is COMPLETED and every other
  // one still PENDING; without cancellation all are COMPLETED.
  lemma NilReturn(capacity: nat, threshold: int, shards: seq<Shard>, outcomes: seq<Outcome>, acts: seq<Action>,
                  s: State)
    requires |shards| == |outcomes| && Run(Init(capacity, threshold, shards, outcomes), acts) == Some(s)
    requires s.dispatcher == Finished(Nil) && forall j :: 0 <= j < |shards| ==> shards[j].status.Pending?
    ensures |s.workers| == |shards|
    ensures forall j :: 0 <= j < |shards| ==>
              s.workers[j].shard.status == (if Present(s.workers[j]) then Completed else Pending)
    ensures !s.cancelled ==> forall j :: 0 <= j < |shards| ==>
              s.workers[j].shard.status.Completed? && outcomes[j].Success?
  {
    NormalCompletion(capacity, threshold, shards, outcomes, acts, s);
    CountExtremes(ShardFailed, s.workers);
  }

  // A cancellation before the first dispatch returns nil with every shard still PENDING.
  lemma NilWithNothingDone(capacity: nat, threshold: int, shards: seq<Shard>, outcomes: seq<Outcome>) returns (s: State)
    requires |shards| == |outcomes|
    ensures Run(Init(capacity, threshold, shards, outcomes), [Cancel, Dispatch, Dispatch]) == Some(s)
    ensures |s.workers| == |shards|
    ensures s.dispatcher == Finished(Nil) && forall j :: 0 <= j < |shards| ==> s.workers[j].shard == shards[j]
  {
    var i := Init(capacity, threshold, shards, outcomes);
    var s1 := Exec(i, Cancel).value;
    var s2 := Exec(s1, Dispatch).value;
    s := Exec(s2, Dispatch).value;
    assert [Cancel, Dispatch, Dispatch][..2] == [Cancel, Dispatch] && [Cancel, Dispatch][..1] == [Cancel]
             && [Cancel][..0] == [];
    assert Run(i, [Cancel]) == Some(s1);
    assert Run(i, [Cancel, Dispatch]) == Some(s2);
  }

  // Without cancellation and wait timeout the schedule leaves no trace: the shards end as
  // if their outcomes had been applied one after the other, and nil means no failure.
  lemma ScheduleIrrelevant(capacity: nat, threshold: int, shards: seq<Shard>, outcomes: seq<Outcome>,
                           acts: seq<Action>, s: State)
    requires |shards| == |outcomes| && Run(Init(capacity, threshold, shards, outcomes), acts) == Some(s)
    requires s.dispatcher.Finished? && s.dispatcher.ret != WaitTimeout && !s.cancelled
    requires forall j :: 0 <= j < |shards| ==> shards[j].status.Pending?
    ensures |s.workers| == |shards|
    ensures forall j :: 0 <= j < |shards| ==> s.workers[j].shard == Decide(shards[j].Start(), outcomes[j])
    ensures s.dispatcher.ret == Nil <==> forall j :: 0 <= j < |shards| ==> outcomes[j].Success?
  {
    NormalCompletion(capacity, threshold, shards, outcomes, acts, s);
    RunInv(capacity, threshold, shards, outcomes, acts, s);
    CountExtremes(ShardFailed, s.workers);
    if s.dispatcher.ret == Nil {
      forall j | 0 <= j < |shards|
        ensures outcomes[j].Success?
      {
        assert !ShardFailed(s.workers[j]);
      }
    }
  }

  // ------------------------------------------------------------ progress, termination

  function DispatcherWeight(s: State): int {
    var n := |s.workers|;
    match s.dispatcher
    case Check(i) => 5 * (n - i) + 2
    case Acquire(i) => 5 * (n - i) + 1
    case HaveToken(i) => 5 * (n - i)
    case Spawn(i) => 5 * (n - i) - 1
    case Wait => 1
    case Finished(_) => 0
  }

  function Measure(s: State): int {
    Sum(WorkerWeight, s.workers) + DispatcherWeight(s) + Bit(!s.cancelled)
  }

  lemma WorkDecreases(s: State, i: nat, t: State)
    requires WorkStep(s, i) == Some(t)
    ensures Measure(t) < Measure(s)
  {
    WorkShape(s, i, t);
    SumUpdate(WorkerWeight, s.workers, i, t.workers[i]);
  }

  // Every step brings the end nearer.
  lemma StepDecreases(s: State, a: Action, t: State, shards: seq<Shard>, outcomes: seq<Outcome>)
    requires Inv(s, shards, outcomes) && Exec(s, a) == Some(t)
    ensures Measure(t) < Measure(s)
  {
    if a.Work? {
      WorkDecreases(s, a.i, t);
    } else if a.Dispatch? && s.dispatcher.Spawn? {
      SumUpdate(WorkerWeight, s.workers, s.dispatcher.i, t.workers[s.dispatcher.i]);
    } else {
      assert t.workers == s.workers;
    }
  }

  lemma {:induction false} WeightNonNegative(ws: seq<Worker>)
    ensures Sum(WorkerWeight, ws) >= 0
  {
    if ws != [] {
      WeightNonNegative(ws[1..]);
    }
  }

  // Every run is finite, and is bounded by the number of shards.
  lemma {:induction false} InitialWeight(ws: seq<Worker>)
    requires forall i :: 0 <= i < |ws| ==> ws[i].stage.Absent?
    ensures Sum(WorkerWeight, ws) == 8 * |ws|
  {
    if ws != [] {
      InitialWeight(ws[1..]);
    }
  }

  lemma {:induction false} RunsLoseMeasure(capacity: nat, threshold: int, shards: seq<Shard>,
          outcomes: seq<Outcome>, acts: seq<Action>, s: State)
    requires |shards| == |outcomes| && Run(Init(capacity, threshold, shards, outcomes), acts) == Some(s)
    ensures |acts| + Measure(s) <= Measure(Init(capacity, threshold, shards, outcomes))
    ensures Measure(s) >= 0
  {
    RunInv(capacity, threshold, shards, outcomes, acts, s);
    WeightNonNegative(s.workers);
    if acts != [] {
      var t := Run(Init(capacity, threshold, shards, outcomes), acts[..|acts| - 1]).value;
      var a := acts[|acts| - 1];
      RunsLoseMeasure(capacity, threshold, shards, outcomes, acts[..|acts| - 1], t);
      RunInv(capacity, threshold, shards, outcomes, acts[..|acts| - 1], t);
      StepDecreases(t, a, s, shards, outcomes);
    }
  }

  // No run, cancelled or not, is longer than thirteen steps a shard and three.
  lemma RunsAreShort(capacity: nat, threshold: int, shards: seq<Shard>, outcomes: seq<Outcome>, acts: seq<Action>,
                     s: State)
    requires |shards| == |outcomes| && Run(Init(capacity, threshold, shards, outcomes), acts) == Some(s)
    ensures |acts| <= 13 * |shards| + 3
  {
    RunsLoseMeasure(capacity, threshold, shards, outcomes, acts, s);
    InitialWeight(Init(capacity, threshold, shards, outcomes).workers);
  }

  // With at least one token to hand out nobody is ever stuck: until ProcessShards has
  // returned, the dispatcher or a worker can move without help from outside.
  lemma NeverStuck(s: State, shards: seq<Shard>, outcomes: seq<Outcome>) returns (a: Action)
    requires Inv(s, shards, outcomes) && (s.capacity >= 1 || !s.dispatcher.Acquire?) && !s.dispatcher.Finished?
    ensures Exec(s, a).Some? && !a.Cancel? && !a.TimeOut? && !a.AcquireRefused?
  {
    if s.dispatcher.Acquire? && s.tokens < s.capacity {
      a := AcquireToken;
    } else if s.dispatcher.Acquire? {
      CountExtremes(Holding, s.workers);
      var i :| 0 <= i < |s.workers| && Holding(s.workers[i]);
      a := WorkerCanMove(s, shards, outcomes, i);
    } else if s.dispatcher.Wait? && s.waiting != 0 {
      CountExtremes(Awaited, s.workers);
      var i :| 0 <= i < |s.workers| && Awaited(s.workers[i]);
      a := WorkerCanMove(s, shards, outcomes, i);
    } else {
      a := Dispatch;
    }
  }

  lemma WorkerCanMove(s: State, shards: seq<Shard>, outcomes: seq<Outcome>, i: nat) returns (a: Action)
    requires Inv(s, shards, outcomes) && !s.dispatcher.Finished? && i < |s.workers| && Awaited(s.workers[i])
    ensures a == Work(i) && Exec(s, a).Some?
  {
    a := Work(i);
    if s.workers[i].stage.Counted? {
      UnsentLeavesRoom(s.workers, i);
    }
  }

  // ------------------------------------------------------ cancellation and the nil return

  predicate Taking(s: State) { s.dispatcher.Acquire? || s.dispatcher.HaveToken? || s.dispatcher.Spawn? }

  // The shards before this one have passed the cancellation check; after a cancellation no
  // other one is dispatched any more.
  function PastCheck(s: State): nat { if Taking(s) then s.dispatcher.i + 1 else Dispatched(s) }

  // Without a token to hand out the shard at the semaphore can only be refused.
  predicate Barred(s: State) { s.dispatcher.Acquire? && s.capacity == 0 }

  ghost predicate AllCompleted(s: State) {
    forall j :: 0 <= j < |s.workers| ==> s.workers[j].shard.status.Completed?
  }

  // Whatever steps follow: a nil return means that every shard is COMPLETED.
  ghost predicate NilIsHonest(c: State) { forall more :: NilOnlyIfAll(Run(c, more)) }

  ghost predicate NilOnlyIfAll(r: Option<State>) {
    r.Some? && r.value.dispatcher == Finished(Nil) ==> AllCompleted(r.value)
  }

  // After a cancellation the first m shards are dispatched, or one is refused.
  ghost predicate Due(s: State, m: nat) {
    && s.cancelled && m <= |s.workers|
    && (s.refused > 0
        || ((Taking(s) ==> s.dispatcher.i + 1 == m)
            && forall j :: 0 <= j < (if Taking(s) then m - 1 else m) ==> Present(s.workers[j])))
  }

  // The last m shards are not dispatched, and nothing has been refused.
  ghost predicate Spared(s: State, m: nat) {
    && s.cancelled && s.refused == 0 && m <= |s.workers| && !Barred(s)
    && (Taking(s) ==> s.dispatcher.i < m)
    && forall j :: m <= j < |s.workers| ==> s.workers[j].stage.Absent?
  }

  predicate Hopeless(s: State) { s.cancelled && s.capacity == 0 && (s.dispatcher.Acquire? || s.refused > 0) }

  lemma DueStep(s: State, m: nat, a: Action, t: State)
    requires Due(s, m) && Exec(s, a) == Some(t)
    ensures Due(t, m)
  {
    if a.Work? {
      WorkShape(s, a.i, t);
    }
  }

  lemma {:induction false} DueRun(s: State, m: nat, more: seq<Action>, t: State)
    requires Due(s, m) && Run(s, more) == Some(t)
    ensures Due(t, m)
  {
    if more != [] {
      var u := Run(s, more[..|more| - 1]).value;
      DueRun(s, m, more[..|more| - 1], u);
      DueStep(u, m, more[|more| - 1], t);
    }
  }

  lemma HopelessStep(s: State, a: Action, t: State)
    requires Hopeless(s) && Exec(s, a) == Some(t)
    ensures Hopeless(t)
  {
    if a.Work? {
      WorkShape(s, a.i, t);
    }
  }

  lemma {:induction false} HopelessRun(s: State, more: seq<Action>, t: State)
    requires Hopeless(s) && Run(s, more) == Some(t)
    ensures Hopeless(t)
  {
    if more != [] {
      var u := Run(s, more[..|more| - 1]).value;
      HopelessRun(s, more[..|more| - 1], u);
      HopelessStep(u, more[|more| - 1], t);
    }
  }

  lemma {:induction false} InvOn(s: State, shards: seq<Shard>, outcomes: seq<Outcome>, more: seq<Action>, t: State)
    requires Inv(s, shards, outcomes) && Run(s, more) == Some(t)
    ensures Inv(t, shards, outcomes)
  {
    if more != [] {
      var u := Run(s, more[..|more| - 1]).value;
      InvOn(s, shards, outcomes, more[..|more| - 1], u);
      StepKeepsInv(u, more[|more| - 1], t, shards, outcomes);
    }
  }

  // At a nil return every dispatched shard has succeeded and nothing was refused.
  lemma NilMeans(t: State, shards: seq<Shard>, outcomes: seq<Outcome>)
    requires Inv(t, shards, outcomes) && t.dispatcher == Finished(Nil)
    ensures t.refused == 0
    ensures forall j :: 0 <= j < |t.workers| && Present(t.workers[j]) ==>
              outcomes[j].Success? && t.workers[j].shard.status.Completed?
  {
    FinishedStages(t, shards, outcomes);
    CountExtremes(CountedFailure, t.workers);
    forall j | 0 <= j < |t.workers| && Present(t.workers[j])
      ensures outcomes[j].Success? && t.workers[j].shard.status.Completed?
    {
      assert ShardOk(t.workers[j], shards[j], outcomes[j]);
      assert !CountedFailure(t.workers[j]);
    }
  }

  lemma HonestWhenDue(c: State, shards: seq<Shard>, outcomes: seq<Outcome>, m: nat)
    requires Inv(c, shards, outcomes) && Due(c, m)
    requires m == |shards| || exists j :: 0 <= j < m && !outcomes[j].Success?
    ensures NilIsHonest(c)
  {
    forall more
      ensures NilOnlyIfAll(Run(c, more))
    {
      var r := Run(c, more);
      if r.Some? && r.value.dispatcher == Finished(Nil) {
        InvOn(c, shards, outcomes, more, r.value);
        DueRun(c, m, more, r.value);
        NilMeans(r.value, shards, outcomes);
      }
    }
  }

  lemma HonestWhenHopeless(c: State, shards: seq<Shard>, outcomes: seq<Outcome>)
    requires Inv(c, shards, outcomes) && Hopeless(c)
    ensures NilIsHonest(c)
  {
    forall more
      ensures NilOnlyIfAll(Run(c, more))
    {
      var r := Run(c, more);
      if r.Some? && r.value.dispatcher == Finished(Nil) {
        InvOn(c, shards, outcomes, more, r.value);
        HopelessRun(c, more, r.value);
        NilMeans(r.value, shards, outcomes);
      }
    }
  }

  lemma SparedStep(s: State, m: nat, a: Action, t: State)
    requires Spared(s, m) && Exec(s, a) == Some(t) && !a.AcquireRefused?
    ensures Spared(t, m)
  {
    if a.Work? {
      WorkShape(s, a.i, t);
    }
  }

  lemma EndOfSpared(t: State, shards: seq<Shard>, outcomes: seq<Outcome>, m: nat)
    requires Inv(t, shards, outcomes) && Spared(t, m) && m < |shards|
    requires t.dispatcher.Finished? && t.dispatcher.ret != WaitTimeout
    requires (forall j :: 0 <= j < m ==> outcomes[j].Success?) && shards[m].status.Pending?
    ensures t.dispatcher == Finished(Nil) && t.workers[m].shard.status.Pending?
  {
    assert ShardOk(t.workers[m], shards[m], outcomes[m]);
    forall j | 0 <= j < |t.workers|
      ensures !CountedFailure(t.workers[j])
    {
      assert ShardOk(t.workers[j], shards[j], outcomes[j]);
    }
    CountExtremes(CountedFailure, t.workers);
  }

  lemma OneOn(s: State, shards: seq<Shard>, outcomes: seq<Outcome>, m: nat) returns (a: Action, t: State)
    requires Inv(s, shards, outcomes) && Spared(s, m) && !s.dispatcher.Finished?
    ensures Exec(s, a) == Some(t) && Inv(t, shards, outcomes) && Spared(t, m) && 0 <= Measure(t) < Measure(s)
    ensures t.dispatcher.Finished? ==> t.dispatcher.ret != WaitTimeout
  {
    a := NeverStuck(s, shards, outcomes);
    t := Exec(s, a).value;
    StepKeepsInv(s, a, t, shards, outcomes);
    StepDecreases(s, a, t, shards, outcomes);
    WeightNonNegative(t.workers);
    SparedStep(s, m, a, t);
    EndsInTime(s, a, t);
  }

  lemma EndsInTime(s: State, a: Action, t: State)
    requires Exec(s, a) == Some(t) && !a.TimeOut?
    ensures t.dispatcher.Finished? ==> t.dispatcher.ret != WaitTimeout
  {
  }

  // Left alone, the scheduler comes to its end without a refusal.
  lemma {:induction false} GoesOn(s: State, shards: seq<Shard>, outcomes: seq<Outcome>, m: nat)
    returns (more: seq<Action>, t: State)
    requires Inv(s, shards, outcomes) && Spared(s, m)
    requires s.dispatcher.Finished? ==> s.dispatcher.ret != WaitTimeout
    ensures Run(s, more) == Some(t) && Inv(t, shards, outcomes) && Spared(t, m)
    ensures t.dispatcher.Finished? && t.dispatcher.ret != WaitTimeout
    decreases Measure(s)
  {
    if s.dispatcher.Finished? {
      more, t := [], s;
    } else {
      var a, u := OneOn(s, shards, outcomes, m);
      var rest;
      rest, t := GoesOn(u, shards, outcomes, m);
      RunCons(s, a, u, rest, t);
      more := [a] + rest;
    }
  }

  lemma {:induction false} RunCons(s: State, a: Action, u: State, rest: seq<Action>, t: State)
    requires Exec(s, a) == Some(u) && Run(u, rest) == Some(t)
    ensures Run(s, [a] + rest) == Some(t)
  {
    if rest == [] {
      assert [a] + rest == [a] && [a][..0] == [] && Run(s, []) == Some(s);
    } else {
      RunCons(s, a, u, rest[..|rest| - 1], Run(u, rest[..|rest| - 1]).value);
      assert ([a] + rest)[..|[a] + rest| - 1] == [a] + rest[..|rest| - 1];
    }
  }

  // Cancelling a run that has not returned: nil still means that every shard is COMPLETED,
  // in every continuation, exactly if no shard is left before the cancellation check, or one
  // past it fails, or the one past it can get no token.
  lemma NilAfterCancel(capacity: nat, threshold: int, shards: seq<Shard>, outcomes: seq<Outcome>, acts: seq<Action>,
                       s: State)
    requires |shards| == |outcomes| && Run(Init(capacity, threshold, shards, outcomes), acts) == Some(s)
    requires !s.cancelled && !s.dispatcher.Finished? && forall j :: 0 <= j < |shards| ==> shards[j].status.Pending?
    ensures Exec(s, Cancel).Some?
    ensures PastCheck(s) <= |shards|
    ensures NilIsHonest(Exec(s, Cancel).value) <==>
            || PastCheck(s) == |shards|
            || (exists j :: 0 <= j < PastCheck(s) && !outcomes[j].Success?)
            || Barred(s)
  {
    RunInv(capacity, threshold, shards, outcomes, acts, s);
    var c, m := Exec(s, Cancel).value, PastCheck(s);
    StepKeepsInv(s, Cancel, c, shards, outcomes);
    AllDispatchedPresent(s, shards, outcomes);
    if m == |shards| || exists j :: 0 <= j < m && !outcomes[j].Success? {
      HonestWhenDue(c, shards, outcomes, m);
    } else if Barred(s) {
      HonestWhenHopeless(c, shards, outcomes);
    } else {
      var more, t := GoesOn(c, shards, outcomes, m);
      EndOfSpared(t, shards, outcomes, m);
      assert !NilOnlyIfAll(Run(c, more));
    }
  }

  lemma AllDispatchedPresent(s: State, shards: seq<Shard>, outcomes: seq<Outcome>)
    requires Inv(s, shards, outcomes) && !s.cancelled && !s.dispatcher.Finished?
    ensures forall j :: 0 <= j < Dispatched(s) ==> Present(s.workers[j])
    ensures s.refused == 0
  {
    CountUpTo(s.workers, Dispatched(s));
  }

  // If as many are present as there are places for them, every place is taken.
  lemma {:induction false} CountUpTo(ws: seq<Worker>, k: nat)
    requires k <= |ws| && (forall j :: k <= j < |ws| ==> !Present(ws[j]))
    ensures Count(Present, ws) <= k
    ensures Count(Present, ws) == k ==> forall j :: 0 <= j < k ==> Present(ws[j])
  {
    if ws != [] {
      CountUpTo(ws[1..], if k == 0 then 0 else k - 1);
    }
  }

  // ------------------------------------------------- the semaphore and the wait group

  // Called without interruption, the operations take the machine through its steps.
  class Semaphore {
    const capacity: nat
    var held: nat
    var acquired: int
    var released: int

    ghost predicate Mirrors(s: State) reads this {
      capacity == s.capacity && held == s.tokens && acquired == s.acquired && released == s.released
    }

    constructor (capacity: nat)
      ensures this.capacity == capacity && held == 0 && Leaks() == 0
    {
      this.capacity, held, acquired, released := capacity, 0, 0, 0;
    }

    function Leaks(): int reads this { acquired - released }

    // The caller blocks until one of the two branches can go; tokenWins settles the
    // choice when both can.
    method Acquire(cancelled: bool, tokenWins: bool, ghost s: State) returns (ok: bool)
      requires Mirrors(s) && s.dispatcher.Acquire? && s.cancelled == cancelled
      requires held < capacity || cancelled
      modifies this`held, this`acquired
      ensures ok <==> old(held) < capacity && (tokenWins || !cancelled)
      ensures ok ==>
                && Exec(s, AcquireToken).Some?
                && Exec(Exec(s, AcquireToken).value, Dispatch).Some?
                && Mirrors(Exec(Exec(s, AcquireToken).value, Dispatch).value)
      ensures !ok ==> cancelled && held == old(held) && acquired == old(acquired)
    {
      if held < capacity && (tokenWins || !cancelled) {
        held := held + 1;
        acquired := acquired + 1;
        return true;
      }
      return false;
    }

    // A release without a token only logs.
    method Release(ghost s: State, ghost i: nat) returns (took: bool)
      requires Mirrors(s) && i < |s.workers| && s.workers[i].stage.Sent?
      modifies this`held, this`released
      ensures took <==> old(held) > 0
      ensures WorkStep(s, i).Some?
      ensures !took ==> Mirrors(WorkStep(s, i).value) && WorkStep(s, i).value.workers[i].stage.Released?
      ensures took ==>
                && WorkStep(WorkStep(s, i).value, i).Some?
                && Mirrors(WorkStep(WorkStep(s, i).value, i).value)
                && WorkStep(WorkStep(s, i).value, i).value.workers[i].stage.Released?
    {
      if held > 0 {
        held := held - 1;
        released := released + 1;
        return true;
      }
      return false;
    }
  }

  // count is the number of goroutines still waited for; ended is set when the wait is over.
  class SafeWaitGroup {
    var count: int
    var ended: bool

    ghost predicate Mirrors(s: State) reads this {
      count == s.waiting && (ended <==> s.dispatcher.Finished?)
    }

    constructor (ghost shards: seq<Shard>, ghost outcomes: seq<Outcome>, ghost capacity: nat, ghost threshold: int)
      requires |shards| == |outcomes|
      ensures Mirrors(Init(capacity, threshold, shards, outcomes))
    {
      count, ended := 0, false;
    }

    // Adding one is the machine's step that launches a worker.  Once the wait has ended,
    // on time or not, adding has no effect.
    method Add(delta: int, ghost s: State)
      requires Mirrors(s)
      modifies this`count
      ensures s.dispatcher.Finished? ==> Mirrors(s)
      ensures delta == 1 && s.dispatcher.Spawn? && s.dispatcher.i < |s.workers| ==>
                Exec(s, Dispatch).Some? && Mirrors(Exec(s, Dispatch).value)
    {
      if !ended {
        count := count + delta;
      }
    }

    // The last step of a worker.
    method Done(ghost s: State, ghost i: nat)
      requires Mirrors(s) && i < |s.workers| && s.workers[i].stage.Released?
      modifies this`count
      ensures WorkStep(s, i).Some? && Mirrors(WorkStep(s, i).value) && WorkStep(s, i).value.workers[i].stage.Gone?
    {
      count := count - 1;
    }

    // Returns when nobody is waited for, or when the timer fires, whichever the runtime
    // takes first: the machine's step to the matching end, with cancellation on timeout.
    method WaitWithTimeout(timerFirst: bool, ghost s: State) returns (err: bool)
      requires Mirrors(s) && s.dispatcher.Wait? && (timerFirst || count == 0)
      modifies this`ended
      ensures err ==>
                && Exec(s, TimeOut).Some? && Mirrors(Exec(s, TimeOut).value)
                && Exec(s, TimeOut).value.cancelled && Exec(s, TimeOut).value.dispatcher == Finished(WaitTimeout)
      ensures !err ==>
                && s.waiting == 0 && Exec(s, Dispatch).Some? && Mirrors(Exec(s, Dispatch).value)
                && Exec(s, Dispatch).value.dispatcher.ret == (if s.failed > 0 then ShardsFailed(s.failed) else Nil)
    {
      ended := true;
      err := timerFirst;
    }
  }
}
