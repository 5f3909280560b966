// The compensation service: copying the failed shards and retrying them, at most three at
// a time.

module Compensation {
  import opened Sequences
  import opened ShardPlan
  import opened Scheduler

  // The fresh copy that is retried, None for a shard that has used up its retries.
  function RetryCopy(sh: Shard): Option<Shard> {
    if sh.CanRetry()
    then Some(Shard(sh.index, sh.startID, sh.endID, Pending, 0, "", sh.retryCount, sh.maxRetryCount))
    else None
  }

  predicate HasRetriesLeft(sh: Shard) { sh.retryCount < sh.maxRetryCount }

  // A shard over the same range, not yet tried and without a result, with the retries used
  // so far.
  predicate FreshCopy(copy: Shard, sh: Shard) {
    && copy.index == sh.index && copy.startID == sh.startID && copy.endID == sh.endID
    && copy.status.Pending? && copy.recordCount == 0 && copy.ossPath == ""
    && copy.retryCount == sh.retryCount && copy.maxRetryCount == sh.maxRetryCount
  }

  method CreateCompensation(failedShards: seq<Shard>) returns (retryShards: seq<Shard>)
    ensures retryShards == FilterMap(RetryCopy, failedShards)
    ensures |retryShards| == Count(HasRetriesLeft, failedShards)
    ensures forall k :: 0 <= k < |retryShards| ==>
              exists j :: 0 <= j < |failedShards| && HasRetriesLeft(failedShards[j])
                          && FreshCopy(retryShards[k], failedShards[j])
  {
    retryShards := [];
    for i := 0 to |failedShards|
      invariant retryShards == FilterMap(RetryCopy, failedShards[..i])
      invariant |retryShards| == Count(HasRetriesLeft, failedShards[..i])
      invariant forall k :: 0 <= k < |retryShards| ==>
                  exists j :: 0 <= j < i && HasRetriesLeft(failedShards[j])
                              && FreshCopy(retryShards[k], failedShards[j])
    {
      var shard := failedShards[i];
      CountSnoc(HasRetriesLeft, failedShards, i);
      FilterMapAppend(RetryCopy, failedShards[..i], [shard]);
      assert failedShards[..i + 1] == failedShards[..i] + [shard];
      if shard.CanRetry() {
        retryShards := retryShards +
          [Shard(shard.index, shard.startID, shard.endID, Pending, 0, "", shard.retryCount, shard.maxRetryCount)];
      }
    }
    assert failedShards[..|failedShards|] == failedShards;
  }

  const MAX_RUNNING: nat := 3

  datatype RetryStage = Unstarted | Launched | Processing | Settled | Tallied | Reported | Freed | Over

  datatype Retry = Retry(stage: RetryStage, outcome: Outcome, shard: Shard)

  datatype Loop = Next(i: nat) | Added(i: nat) | Admitted(i: nat) | Joining | Concluded(completed: bool)

  // slots is the length of the semaphore channel, waiting the wait group counter.
  datatype Task = Task(
    loop: Loop,
    retries: seq<Retry>,
    slots: nat,
    waiting: int,
    results: nat,
    failedCount: int,
    completedCount: int)

  datatype Move = Advance | Proceed(i: nat)

  function Begin(shards: seq<Shard>, outcomes: seq<Outcome>): Task
    requires |shards| == |outcomes|
  {
    Task(Next(0), seq(|shards|, i requires 0 <= i < |shards| => Retry(Unstarted, outcomes[i], shards[i])), 0, 0, 0,
         0, 0)
  }

  function Put(t: Task, i: nat, r: Retry): Task
    requires i < |t.retries|
  {
    t.(retries := t.retries[i := r])
  }

  // One step of the goroutine that retries shard i.
  function RetryStep(t: Task, i: nat): Option<Task> {
    if i >= |t.retries| then None
    else
      var r := t.retries[i];
      match r.stage
      case Unstarted => None
      case Launched => Some(Put(t, i, r.(stage := Processing, shard := r.shard.Start())))
      case Processing => Some(Put(t, i, r.(stage := Settled, shard := Decide(r.shard, r.outcome))))
      case Settled =>
        var u := Put(t, i, r.(stage := Tallied));
        Some(if r.outcome.Success? then u.(completedCount := t.completedCount + r.outcome.count)
             else u.(failedCount := t.failedCount + 1))
      case Tallied =>
        if t.results >= |t.retries| then None
        else Some(Put(t, i, r.(stage := Reported)).(results := t.results + 1))
      case Reported => if t.slots == 0 then None else Some(Put(t, i, r.(stage := Freed)).(slots := t.slots - 1))
      case Freed => Some(Put(t, i, r.(stage := Over)).(waiting := t.waiting - 1))
      case Over => None
  }

  function Play(t: Task, m: Move): Option<Task> {
    match m
    case Proceed(i) => RetryStep(t, i)
    case Advance =>
      match t.loop
      case Next(i) =>
        Some(if i >= |t.retries| then t.(loop := Joining) else t.(loop := Added(i), waiting := t.waiting + 1))
      case Added(i) => if t.slots < MAX_RUNNING then Some(t.(loop := Admitted(i), slots := t.slots + 1)) else None
      case Admitted(i) =>
        if i >= |t.retries| then None
        else Some(Put(t, i, t.retries[i].(stage := Launched)).(loop := Next(i + 1)))
      case Joining => if t.waiting == 0 then Some(t.(loop := Concluded(t.failedCount <= 0))) else None
      case Concluded(_) => None
  }

  function PlayAll(t: Task, moves: seq<Move>): Option<Task> {
    if moves == [] then Some(t)
    else
      match PlayAll(t, moves[..|moves| - 1])
      case None => None
      case Some(u) => Play(u, moves[|moves| - 1])
  }

  // ------------------------------------------------------------------- accounting

  predicate HoldsSlot(r: Retry) {
    r.stage.Launched? || r.stage.Processing? || r.stage.Settled? || r.stage.Tallied? || r.stage.Reported?
  }
  predicate Unjoined(r: Retry) { HoldsSlot(r) || r.stage.Freed? }
  predicate Counted(r: Retry) { r.stage.Tallied? || r.stage.Reported? || r.stage.Freed? || r.stage.Over? }
  predicate HasReported(r: Retry) { r.stage.Reported? || r.stage.Freed? || r.stage.Over? }
  predicate FailureCounted(r: Retry) { Counted(r) && !r.outcome.Success? }
  function RecordsCounted(r: Retry): int { if Counted(r) && r.outcome.Success? then r.outcome.count else 0 }

  predicate RetryOk(r: Retry, sh: Shard, o: Outcome) {
    && r.outcome == o
    && r.shard == match r.stage
                  case Unstarted => sh
                  case Launched => sh
                  case Processing => sh.Start()
                  case _ => Decide(sh.Start(), o)
  }

  ghost predicate LoopOk(t: Task) {
    && (t.loop.Next? ==> t.loop.i <= |t.retries|)
    && (t.loop.Added? || t.loop.Admitted? ==> t.loop.i < |t.retries|)
    && (t.loop.Next? || t.loop.Added? || t.loop.Admitted? ==>
          forall j :: 0 <= j < |t.retries| ==> (t.retries[j].stage.Unstarted? <==> t.loop.i <= j))
    && (t.loop.Joining? || t.loop.Concluded? ==> forall j :: 0 <= j < |t.retries| ==> !t.retries[j].stage.Unstarted?)
    && (t.loop.Concluded? ==> t.waiting == 0 && (t.loop.completed <==> t.failedCount <= 0))
  }

  ghost predicate Tallies(t: Task) {
    && t.slots == Count(HoldsSlot, t.retries) + Bit(t.loop.Admitted?) <= MAX_RUNNING
    && t.waiting == Count(Unjoined, t.retries) + Bit(t.loop.Added? || t.loop.Admitted?)
    && t.results == Count(HasReported, t.retries)
    && t.failedCount == Count(FailureCounted, t.retries)
    && t.completedCount == Sum(RecordsCounted, t.retries)
  }

  ghost predicate TaskInv(t: Task, shards: seq<Shard>, outcomes: seq<Outcome>) {
    && |t.retries| == |shards| == |outcomes|
    && (forall j :: 0 <= j < |shards| ==> RetryOk(t.retries[j], shards[j], outcomes[j]))
    && LoopOk(t) && Tallies(t)
  }

  lemma TalliesMove(rs: seq<Retry>, i: nat, r: Retry)
    requires i < |rs|
    ensures Count(HoldsSlot, rs[i := r]) == Count(HoldsSlot, rs) - Bit(HoldsSlot(rs[i])) + Bit(HoldsSlot(r))
    ensures Count(Unjoined, rs[i := r]) == Count(Unjoined, rs) - Bit(Unjoined(rs[i])) + Bit(Unjoined(r))
    ensures Count(HasReported, rs[i := r]) == Count(HasReported, rs) - Bit(HasReported(rs[i])) + Bit(HasReported(r))
    ensures Count(FailureCounted, rs[i := r]) == Count(FailureCounted, rs) - Bit(FailureCounted(rs[i])) +
              Bit(FailureCounted(r))
    ensures Sum(RecordsCounted, rs[i := r]) == Sum(RecordsCounted, rs) - RecordsCounted(rs[i]) + RecordsCounted(r)
  {
    CountUpdate(HoldsSlot, rs, i, r);
    CountUpdate(Unjoined, rs, i, r);
    CountUpdate(HasReported, rs, i, r);
    CountUpdate(FailureCounted, rs, i, r);
    SumUpdate(RecordsCounted, rs, i, r);
  }

  lemma RetryShape(t: Task, i: nat, u: Task)
    requires RetryStep(t, i) == Some(u)
    ensures i < |t.retries| && |u.retries| == |t.retries| && u.retries == t.retries[i := u.retries[i]]
    ensures !t.retries[i].stage.Unstarted? && !t.retries[i].stage.Over? && !u.retries[i].stage.Unstarted?
    ensures u.loop == t.loop && u.retries[i].outcome == t.retries[i].outcome
  {
  }

  lemma RetryKeepsTallies(t: Task, i: nat, u: Task)
    requires Tallies(t) && RetryStep(t, i) == Some(u)
    ensures Tallies(u)
  {
    RetryShape(t, i, u);
    TalliesMove(t.retries, i, u.retries[i]);
  }

  lemma RetryKeepsInv(t: Task, i: nat, u: Task, shards: seq<Shard>, outcomes: seq<Outcome>)
    requires TaskInv(t, shards, outcomes) && RetryStep(t, i) == Some(u)
    ensures TaskInv(u, shards, outcomes)
  {
    RetryShape(t, i, u);
    RetryKeepsTallies(t, i, u);
    if t.loop.Concluded? {
      CountExtremes(Unjoined, t.retries);
    }
    assert RetryOk(t.retries[i], shards[i], outcomes[i]);
    assert RetryOk(u.retries[i], shards[i], outcomes[i]);
  }

  lemma LaunchKeepsInv(t: Task, u: Task, shards: seq<Shard>, outcomes: seq<Outcome>)
    requires TaskInv(t, shards, outcomes) && t.loop.Admitted? && Play(t, Advance) == Some(u)
    ensures TaskInv(u, shards, outcomes)
  {
    var i := t.loop.i;
    assert u.retries == t.retries[i := u.retries[i]];
    TalliesMove(t.retries, i, u.retries[i]);
  }

  lemma MoveKeepsInv(t: Task, m: Move, u: Task, shards: seq<Shard>, outcomes: seq<Outcome>)
    requires TaskInv(t, shards, outcomes) && Play(t, m) == Some(u)
    ensures TaskInv(u, shards, outcomes)
  {
    if m.Proceed? {
      RetryKeepsInv(t, m.i, u, shards, outcomes);
    } else if t.loop.Admitted? {
      LaunchKeepsInv(t, u, shards, outcomes);
    } else {
      assert u.retries == t.retries;
    }
  }

  lemma {:induction false} NothingCounted(rs: seq<Retry>)
    requires forall i :: 0 <= i < |rs| ==> rs[i].stage.Unstarted?
    ensures Sum(RecordsCounted, rs) == 0
  {
    if rs != [] {
      NothingCounted(rs[1..]);
    }
  }

  lemma {:induction false} PlayInv(shards: seq<Shard>, outcomes: seq<Outcome>, moves: seq<Move>, t: Task)
    requires |shards| == |outcomes| && PlayAll(Begin(shards, outcomes), moves) == Some(t)
    ensures TaskInv(t, shards, outcomes)
  {
    if moves == [] {
      CountExtremes(HoldsSlot, t.retries);
      CountExtremes(Unjoined, t.retries);
      CountExtremes(HasReported, t.retries);
      CountExtremes(FailureCounted, t.retries);
      NothingCounted(t.retries);
    } else {
      var u := PlayAll(Begin(shards, outcomes), moves[..|moves| - 1]).value;
      PlayInv(shards, outcomes, moves[..|moves| - 1], u);
      MoveKeepsInv(u, moves[|moves| - 1], t, shards, outcomes);
    }
  }

  predicate RetryFailed(r: Retry) { r.shard.status.Failed? }
  function RetryRecords(r: Retry): int { if r.shard.status.Completed? then r.shard.recordCount else 0 }

  // In every interleaving at most three retries run.  When the loop concludes, every
  // retry shard carries its outcome, FailedCount is the number of failed ones,
  // CompletedCount the records of the others, and the compensation is COMPLETED exactly when
  // every retry shard is.
  lemma CompensationResult(shards: seq<Shard>, outcomes: seq<Outcome>, moves: seq<Move>, t: Task)
    requires |shards| == |outcomes| && PlayAll(Begin(shards, outcomes), moves) == Some(t)
    ensures Count(HoldsSlot, t.retries) <= 3 && |t.retries| == |shards|
    ensures t.loop.Concluded? ==>
              && (forall j :: 0 <= j < |shards| ==> t.retries[j].shard == Decide(shards[j].Start(), outcomes[j]))
              && t.failedCount == Count(RetryFailed, t.retries)
              && t.completedCount == Sum(RetryRecords, t.retries)
              && (t.loop.completed <==> forall j :: 0 <= j < |shards| ==> t.retries[j].shard.status.Completed?)
  {
    PlayInv(shards, outcomes, moves, t);
    if t.loop.Concluded? {
      ConcludedMeansOver(t, shards, outcomes);
      SumSame(RecordsCounted, RetryRecords, t.retries);
      CountMonotone(RetryFailed, FailureCounted, t.retries);
      CountMonotone(FailureCounted, RetryFailed, t.retries);
      CountExtremes(RetryFailed, t.retries);
    }
  }

  lemma ConcludedMeansOver(t: Task, shards: seq<Shard>, outcomes: seq<Outcome>)
    requires TaskInv(t, shards, outcomes) && t.loop.Concluded?
    ensures forall j :: 0 <= j < |shards| ==>
              t.retries[j].stage.Over? && t.retries[j].shard == Decide(shards[j].Start(), outcomes[j])
  {
    CountExtremes(Unjoined, t.retries);
    forall j | 0 <= j < |shards|
      ensures t.retries[j].stage.Over? && t.retries[j].shard == Decide(shards[j].Start(), outcomes[j])
    {
      assert RetryOk(t.retries[j], shards[j], outcomes[j]);
    }
  }

  // Three retries can run at once.
  lemma ThreeAtOnce(shards: seq<Shard>, outcomes: seq<Outcome>, k: nat) returns (moves: seq<Move>, t: Task)
    requires |shards| == |outcomes| && k <= 3 && k <= |shards|
    ensures PlayAll(Begin(shards, outcomes), moves) == Some(t)
    ensures Count(HoldsSlot, t.retries) == k && t.loop == Next(k) && t.slots == k && |t.retries| == |shards|
    ensures forall j :: k <= j < |shards| ==> t.retries[j].stage.Unstarted?
    decreases k
  {
    var b := Begin(shards, outcomes);
    if k == 0 {
      moves, t := [], b;
      CountExtremes(HoldsSlot, t.retries);
    } else {
      var front, u := ThreeAtOnce(shards, outcomes, k - 1);
      var u1 := Play(u, Advance).value;
      var u2 := Play(u1, Advance).value;
      t := Play(u2, Advance).value;
      CountUpdate(HoldsSlot, u.retries, k - 1, t.retries[k - 1]);
      PlayMore(b, front, u, u1);
      PlayMore(b, front + [Advance], u1, u2);
      PlayMore(b, front + [Advance] + [Advance], u2, t);
      moves := front + [Advance] + [Advance] + [Advance];
    }
  }

  lemma PlayMore(b: Task, moves: seq<Move>, t: Task, u: Task)
    requires PlayAll(b, moves) == Some(t) && Play(t, Advance) == Some(u)
    ensures PlayAll(b, moves + [Advance]) == Some(u)
  {
    assert (moves + [Advance])[..|moves|] == moves;
  }

  // ------------------------------------------------------------ progress, termination

  lemma {:induction false} UnreportedLeavesRoom(rs: seq<Retry>, i: nat)
    requires i < |rs| && !HasReported(rs[i])
    ensures Count(HasReported, rs) < |rs|
  {
    CountExtremes(HasReported, rs);
  }

  lemma RetryCanMove(t: Task, i: nat)
    requires Tallies(t) && i < |t.retries| && Unjoined(t.retries[i])
    ensures Play(t, Proceed(i)).Some?
  {
    if t.retries[i].stage.Tallied? {
      UnreportedLeavesRoom(t.retries, i);
    } else if t.retries[i].stage.Reported? {
      CountExtremes(HoldsSlot, t.retries);
    }
  }

  // Nobody is ever stuck: until the compensation has concluded, the loop or a retry can move.
  lemma NeverStuck(t: Task, shards: seq<Shard>, outcomes: seq<Outcome>) returns (m: Move)
    requires TaskInv(t, shards, outcomes) && !t.loop.Concluded?
    ensures Play(t, m).Some?
  {
    if t.loop.Added? && t.slots >= MAX_RUNNING {
      CountExtremes(HoldsSlot, t.retries);
      var i :| 0 <= i < |t.retries| && HoldsSlot(t.retries[i]);
      RetryCanMove(t, i);
      m := Proceed(i);
    } else if t.loop.Joining? && t.waiting != 0 {
      CountExtremes(Unjoined, t.retries);
      var i :| 0 <= i < |t.retries| && Unjoined(t.retries[i]);
      RetryCanMove(t, i);
      m := Proceed(i);
    } else {
      m := Advance;
    }
  }

  function RetryWeight(r: Retry): int {
    match r.stage
    case Unstarted => 7 case Launched => 6 case Processing => 5 case Settled => 4
    case Tallied => 3 case Reported => 2 case Freed => 1 case Over => 0
  }

  function LoopWeight(t: Task): int {
    var n := |t.retries|;
    match t.loop
    case Next(i) => 3 * (n - i) + 2
    case Added(i) => 3 * (n - i) + 1
    case Admitted(i) => 3 * (n - i)
    case Joining => 1
    case Concluded(_) => 0
  }

  function Measure(t: Task): int { Sum(RetryWeight, t.retries) + LoopWeight(t) }

  lemma RetryDecreases(t: Task, i: nat, u: Task)
    requires RetryStep(t, i) == Some(u)
    ensures i < |t.retries| && u.loop == t.loop && |u.retries| == |t.retries|
    ensures Sum(RetryWeight, u.retries) < Sum(RetryWeight, t.retries)
  {
    SumUpdate(RetryWeight, t.retries, i, u.retries[i]);
  }

  lemma LaunchDecreases(t: Task, u: Task)
    requires LoopOk(t) && t.loop.Admitted? && Play(t, Advance) == Some(u)
    ensures Measure(u) < Measure(t)
  {
    var i := t.loop.i;
    assert u.retries == t.retries[i := u.retries[i]];
    SumUpdate(RetryWeight, t.retries, i, u.retries[i]);
  }

  lemma LoopDecreases(t: Task, u: Task)
    requires LoopOk(t) && !t.loop.Admitted? && Play(t, Advance) == Some(u)
    ensures u.retries == t.retries && LoopWeight(u) < LoopWeight(t)
  {
  }

  lemma MoveDecreases(t: Task, m: Move, u: Task)
    requires LoopOk(t) && Play(t, m) == Some(u)
    ensures Measure(u) < Measure(t)
  {
    if m.Proceed? {
      RetryDecreases(t, m.i, u);
    } else if t.loop.Admitted? {
      LaunchDecreases(t, u);
    } else {
      LoopDecreases(t, u);
    }
  }

  lemma {:induction false} WeightBounds(rs: seq<Retry>)
    ensures 0 <= Sum(RetryWeight, rs) <= 7 * |rs|
  {
    if rs != [] {
      WeightBounds(rs[1..]);
    }
  }

  lemma {:induction false} PlaysLoseMeasure(shards: seq<Shard>, outcomes: seq<Outcome>, moves: seq<Move>, t: Task)
    requires |shards| == |outcomes| && PlayAll(Begin(shards, outcomes), moves) == Some(t)
    ensures |moves| + Measure(t) <= Measure(Begin(shards, outcomes)) && Measure(t) >= 0
  {
    PlayInv(shards, outcomes, moves, t);
    WeightBounds(t.retries);
    if moves != [] {
      var u := PlayAll(Begin(shards, outcomes), moves[..|moves| - 1]).value;
      PlaysLoseMeasure(shards, outcomes, moves[..|moves| - 1], u);
      PlayInv(shards, outcomes, moves[..|moves| - 1], u);
      MoveDecreases(u, moves[|moves| - 1], t);
    }
  }

  // No compensation takes more than ten steps a retry shard and two.
  lemma PlaysAreShort(shards: seq<Shard>, outcomes: seq<Outcome>, moves: seq<Move>, t: Task)
    requires |shards| == |outcomes| && PlayAll(Begin(shards, outcomes), moves) == Some(t)
    ensures |moves| <= 10 * |shards| + 2
  {
    PlaysLoseMeasure(shards, outcomes, moves, t);
    WeightBounds(Begin(shards, outcomes).retries);
  }
}
