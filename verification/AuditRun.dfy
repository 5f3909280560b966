// One audit job over all interleavings of its dispatcher, the queue workers, the monitor
// and the timeout.  A queued task may reach any number of workers, or none: with several
// consumers the queue guarantees no more.

module AuditRun {
  import opened Sequences
  import opened SourceRepo
  import opened Merkle
  import opened RecordEncoding
  import opened AuditBinding
  import opened AuditDispatch
  import opened AuditJobs

  // results[i] is what evaluating batch i comes to; the tables do not change meanwhile.
  // monitored tells whether the dispatcher gets to start the monitor.
  datatype Plan = Plan(h: HashFunc, limits: Limits, tasks: seq<Task>, results: seq<BatchResult>, monitored: bool)

  ghost predicate Sound(p: Plan) { |p.tasks| == |p.results| && Indexed(p.tasks) }

  datatype Dispatcher = Next(i: nat) | Offering(i: nat) | Refused(i: nat) | Finished

  // The next write of processAuditBatch; the batch fields are written without a lock.
  datatype Phase = Fetch | PutSource | PutTarget | PutVerdict | PutStatus | Tell

  datatype Worker = Idle | Busy(task: nat, phase: Phase)

  datatype Monitor = Off | Watching | Finalizing | Ended

  // offered: tasks the queue has accepted.  log: batches whose counts have been added.
  datatype State = State(
    job: AuditJob, batches: seq<AuditBatch>, dispatcher: Dispatcher, offered: set<nat>,
    workers: seq<Worker>, monitor: Monitor, log: seq<nat>)

  datatype Action =
    | Append | Enqueue | Refuse | MarkSkipped | StartMonitor
    | Take(k: nat, i: nat) | Abandon(k: nat) | Work(k: nat)
    | Tick | Finalize | TimeOut

  function Init(job: AuditJob, W: nat): State {
    State(job.(status := Running), [], Next(0), {}, seq(W, _ => Idle), Off, [])
  }

  // A job as SubmitAudit makes it and the dispatcher completes it.
  predicate Fresh(j: AuditJob) { j.matchCount == 0 && j.mismatchCount == 0 && j.missingCount == 0 }

  function Write(b: AuditBatch, r: BatchResult, ph: Phase): AuditBatch {
    match ph
    case PutSource => b.(sourceHash := r.sourceRoot)
    case PutTarget => b.(targetHash := r.targetRoot)
    case PutVerdict => b.(isMatched := r.mismatched == 0 && r.missing == 0)
    case PutStatus => b.(status := Completed)
    case _ => b
  }

  function After(ph: Phase): Phase {
    match ph
    case Fetch => PutSource
    case PutSource => PutTarget
    case PutTarget => PutVerdict
    case PutVerdict => PutStatus
    case _ => Tell
  }

  function WorkStep(p: Plan, s: State, k: nat): Option<State> {
    if k >= |s.workers| || s.workers[k].Idle? || s.workers[k].task >= |p.results| then None
    else
      var i, ph := s.workers[k].task, s.workers[k].phase;
      if ph.Tell? then
        Some(s.(job := AddStats(s.job, p.results[i]), log := s.log + [i], workers := s.workers[k := Idle]))
      else if i >= |s.batches| then
        // getBatch returned nil: the writes are skipped
        Some(s.(workers := s.workers[k := Busy(i, Tell)]))
      else
        Some(s.(batches := s.batches[i := Write(s.batches[i], p.results[i], ph)],
                workers := s.workers[k := Busy(i, After(ph))]))
  }

  function DispatchStep(p: Plan, s: State, a: Action): Option<State> {
    match (a, s.dispatcher)
    case (Append, Next(i)) =>
      if i >= |p.tasks| then None
      else Some(s.(batches := s.batches + [NewBatch(p.tasks[i])], dispatcher := Offering(i)))
    case (Enqueue, Offering(i)) => Some(s.(offered := s.offered + {i}, dispatcher := Next(i + 1)))
    case (Refuse, Offering(i)) => Some(s.(dispatcher := Refused(i)))
    case (MarkSkipped, Refused(i)) =>
      if i >= |s.batches| then None
      else Some(s.(batches := s.batches[i := s.batches[i].(status := Skipped)], dispatcher := Next(i + 1)))
    case (StartMonitor, Next(i)) =>
      if i < |p.tasks| || !p.monitored then None else Some(s.(dispatcher := Finished, monitor := Watching))
    case _ => None
  }

  ghost function Exec(p: Plan, s: State, a: Action): Option<State> {
    match a
    case Take(k, i) =>
      if k < |s.workers| && s.workers[k].Idle? && i in s.offered
      then Some(s.(workers := s.workers[k := Busy(i, Fetch)]))
      else None
    case Abandon(k) =>
      // a panic while hashing, recovered
      if k < |s.workers| && s.workers[k].Busy? && s.workers[k].phase.Fetch?
      then Some(s.(workers := s.workers[k := Idle]))
      else None
    case Work(k) => WorkStep(p, s, k)
    case Tick =>
      if !s.monitor.Watching? then None
      else Some(if AllDone(s.batches) then s.(monitor := Finalizing) else s)
    case Finalize =>
      if !s.monitor.Finalizing? then None
      else Some(s.(job := Settle(p.h, p.limits, s.job, s.batches), monitor := Ended))
    case TimeOut =>
      if !s.monitor.Watching? then None
      else Some(s.(job := Fail(s.job, "audit timeout"), monitor := Ended))
    case _ => DispatchStep(p, s, a)
  }

  ghost function Run(p: Plan, s: State, acts: seq<Action>): Option<State> {
    if acts == [] then Some(s)
    else
      match Run(p, s, acts[..|acts| - 1])
      case None => None
      case Some(t) => Exec(p, t, acts[|acts| - 1])
  }

  // ------------------------------------------------------------------- invariant

  // What is known of a batch when a worker is about to do the given write.
  predicate Reached(b: AuditBatch, r: BatchResult, ph: Phase) {
    && (ph.PutTarget? || ph.PutVerdict? || ph.PutStatus? || ph.Tell? ==> b.sourceHash == r.sourceRoot)
    && (ph.PutVerdict? || ph.PutStatus? || ph.Tell? ==> b.targetHash == r.targetRoot)
    && (ph.PutStatus? || ph.Tell? ==> b.isMatched == (r.mismatched == 0 && r.missing == 0))
    && (ph.Tell? ==> b.status == Completed)
  }

  predicate SameHeader(b: AuditBatch, t: Task) {
    b.index == t.index && b.startID == t.startID && b.endID == t.endID && b.recordCount == |t.ids|
  }

  ghost predicate BatchOk(b: AuditBatch, t: Task, r: BatchResult, taken: bool) {
    && SameHeader(b, t)
    && (b.status == Completed ==> taken && Reached(b, r, Tell))
    && (b.status == Skipped ==> !taken)
    && (!taken ==> b.sourceHash == "" && b.targetHash == "")
  }

  ghost predicate BatchesOk(p: Plan, s: State)
    requires Sound(p)
  {
    && |s.batches| <= |p.tasks|
    && (forall i :: i in s.offered ==> i < |s.batches|)
    && forall j :: 0 <= j < |s.batches| ==> BatchOk(s.batches[j], p.tasks[j], p.results[j], j in s.offered)
  }

  ghost predicate DispatcherOk(p: Plan, s: State) {
    && |s.batches| == (match s.dispatcher
                       case Next(i) => i
                       case Offering(i) => i + 1
                       case Refused(i) => i + 1
                       case Finished => |p.tasks|)
    && (s.dispatcher.Offering? || s.dispatcher.Refused? ==>
           s.dispatcher.i !in s.offered && s.batches[s.dispatcher.i].status == Waiting)
  }

  ghost predicate MonitorOk(p: Plan, s: State) {
    && (s.monitor.Off? <==> !s.dispatcher.Finished?)
    && (s.dispatcher.Finished? ==> p.monitored)
    && (s.job.status == Running <==> !s.monitor.Ended?)
    && (s.monitor.Finalizing? ==> AllDone(s.batches))
  }

  ghost predicate WorkerOk(p: Plan, s: State, w: Worker)
    requires Sound(p) && BatchesOk(p, s)
  {
    w.Busy? ==> w.task in s.offered && Reached(s.batches[w.task], p.results[w.task], w.phase)
  }

  ghost predicate LogOk(p: Plan, s: State) {
    && (forall i :: i in s.log ==> i < |s.batches| && s.batches[i].status == Completed)
    && s.job.matchCount == Sum(MatchedIn(p), s.log)
    && s.job.mismatchCount == Sum(MismatchedIn(p), s.log)
    && s.job.missingCount == Sum(MissingIn(p), s.log)
  }

  function MatchedIn(p: Plan): nat -> int { (i: nat) => if i < |p.results| then p.results[i].matched else 0 }
  function MismatchedIn(p: Plan): nat -> int { (i: nat) => if i < |p.results| then p.results[i].mismatched else 0 }
  function MissingIn(p: Plan): nat -> int { (i: nat) => if i < |p.results| then p.results[i].missing else 0 }

  ghost predicate Inv(p: Plan, s: State)
    requires Sound(p)
  {
    && BatchesOk(p, s) && DispatcherOk(p, s) && MonitorOk(p, s) && LogOk(p, s)
    && forall k :: 0 <= k < |s.workers| ==> WorkerOk(p, s, s.workers[k])
  }

  // A write brings the batch to the next phase and takes nothing away from any phase.
  lemma WriteReaches(b: AuditBatch, r: BatchResult, ph: Phase, other: Phase)
    requires !ph.Tell? && Reached(b, r, ph)
    ensures Reached(Write(b, r, ph), r, After(ph))
    ensures Reached(b, r, other) ==> Reached(Write(b, r, ph), r, other)
    ensures b.status == Completed ==> Write(b, r, ph).status == Completed
    ensures Write(b, r, ph).status == Skipped ==> b.status == Skipped
  {
  }

  lemma WriteKeepsBatches(p: Plan, s: State, k: nat, t: State)
    requires Sound(p) && Inv(p, s) && WorkStep(p, s, k) == Some(t) && !s.workers[k].phase.Tell?
    ensures BatchesOk(p, t) && t.offered == s.offered && |t.batches| == |s.batches|
    ensures forall j :: 0 <= j < |s.batches| && s.batches[j].status == Completed ==> t.batches[j].status == Completed
    ensures forall j :: 0 <= j < |s.batches| && s.batches[j].status == Skipped ==> t.batches[j].status == Skipped
  {
    var i, ph := s.workers[k].task, s.workers[k].phase;
    assert WorkerOk(p, s, s.workers[k]);
    WriteReaches(s.batches[i], p.results[i], ph, Tell);
    WriteReaches(s.batches[i], p.results[i], ph, ph);
    assert BatchOk(s.batches[i], p.tasks[i], p.results[i], true);
    assert BatchOk(t.batches[i], p.tasks[i], p.results[i], true);
  }

  lemma WriteKeepsWorkers(p: Plan, s: State, k: nat, t: State, m: nat)
    requires Sound(p) && Inv(p, s) && WorkStep(p, s, k) == Some(t) && !s.workers[k].phase.Tell?
    requires BatchesOk(p, t) && m < |t.workers|
    ensures WorkerOk(p, t, t.workers[m])
  {
    var i, ph := s.workers[k].task, s.workers[k].phase;
    assert WorkerOk(p, s, s.workers[k]) && WorkerOk(p, s, s.workers[m]);
    if m == k {
      WriteReaches(s.batches[i], p.results[i], ph, ph);
    } else if s.workers[m].Busy? && s.workers[m].task == i {
      WriteReaches(s.batches[i], p.results[i], ph, s.workers[m].phase);
    }
  }

  lemma WriteKeepsInv(p: Plan, s: State, k: nat, t: State)
    requires Sound(p) && Inv(p, s) && WorkStep(p, s, k) == Some(t) && !s.workers[k].phase.Tell?
    ensures Inv(p, t)
  {
    WriteKeepsBatches(p, s, k, t);
    forall m | 0 <= m < |t.workers|
      ensures WorkerOk(p, t, t.workers[m])
    {
      WriteKeepsWorkers(p, s, k, t, m);
    }
    assert WorkerOk(p, s, s.workers[k]);
    AllDoneMeans(s.batches);
    AllDoneMeans(t.batches);
    assert MonitorOk(p, t);
  }

  lemma TellKeepsInv(p: Plan, s: State, k: nat, t: State)
    requires Sound(p) && Inv(p, s) && WorkStep(p, s, k) == Some(t) && s.workers[k].phase.Tell?
    ensures Inv(p, t)
  {
    var i := s.workers[k].task;
    assert WorkerOk(p, s, s.workers[k]);
    SumAppend(MatchedIn(p), s.log, [i]);
    SumAppend(MismatchedIn(p), s.log, [i]);
    SumAppend(MissingIn(p), s.log, [i]);
    assert Sum(MatchedIn(p), [i]) == p.results[i].matched;
    assert Sum(MismatchedIn(p), [i]) == p.results[i].mismatched;
    assert Sum(MissingIn(p), [i]) == p.results[i].missing;
    assert LogOk(p, t);
    assert forall m :: 0 <= m < |t.workers| ==> t.workers[m] == Idle || t.workers[m] == s.workers[m];
  }

  lemma DispatchKeepsInv(p: Plan, s: State, a: Action, t: State)
    requires Sound(p) && Inv(p, s) && DispatchStep(p, s, a) == Some(t)
    ensures Inv(p, t)
  {
    forall j | 0 <= j < |t.batches|
      ensures BatchOk(t.batches[j], p.tasks[j], p.results[j], j in t.offered)
    {
      if j < |s.batches| {
        assert BatchOk(s.batches[j], p.tasks[j], p.results[j], j in s.offered);
      }
    }
    assert BatchesOk(p, t);
    forall m | 0 <= m < |t.workers|
      ensures WorkerOk(p, t, t.workers[m])
    {
      assert WorkerOk(p, s, s.workers[m]);
    }
  }

  lemma OtherKeepsInv(p: Plan, s: State, a: Action, t: State)
    requires Sound(p) && Inv(p, s) && Exec(p, s, a) == Some(t)
    requires a.Take? || a.Abandon? || a.Tick? || a.Finalize? || a.TimeOut?
    ensures Inv(p, t)
  {
    assert t.batches == s.batches && t.offered == s.offered;
    assert BatchesOk(p, t);
    forall m | 0 <= m < |t.workers|
      ensures WorkerOk(p, t, t.workers[m])
    {
      assert WorkerOk(p, s, s.workers[m]);
    }
  }

  lemma StepKeepsInv(p: Plan, s: State, a: Action, t: State)
    requires Sound(p) && Inv(p, s) && Exec(p, s, a) == Some(t)
    ensures Inv(p, t)
  {
    if a.Work? {
      if s.workers[a.k].phase.Tell? {
        TellKeepsInv(p, s, a.k, t);
      } else {
        WriteKeepsInv(p, s, a.k, t);
      }
    } else if a.Take? || a.Abandon? || a.Tick? || a.Finalize? || a.TimeOut? {
      OtherKeepsInv(p, s, a, t);
    } else {
      DispatchKeepsInv(p, s, a, t);
    }
  }

  lemma {:induction false} RunInv(p: Plan, job: AuditJob, W: nat, acts: seq<Action>, s: State)
    requires Sound(p) && Fresh(job) && Run(p, Init(job, W), acts) == Some(s)
    ensures Inv(p, s)
  {
    if acts != [] {
      var t := Run(p, Init(job, W), acts[..|acts| - 1]).value;
      RunInv(p, job, W, acts[..|acts| - 1], t);
      StepKeepsInv(p, t, acts[|acts| - 1], s);
    }
  }

  // ------------------------------------------------------------------- accounting

  // A task in the queue or in a worker's hands finds, by getBatch, the batch appended for it.
  lemma GetBatchFindsOwnBatch(p: Plan, job: AuditJob, W: nat, acts: seq<Action>, s: State, i: nat)
    requires Sound(p) && Fresh(job) && Run(p, Init(job, W), acts) == Some(s)
    requires i in s.offered || exists k :: 0 <= k < |s.workers| && s.workers[k].Busy? && s.workers[k].task == i
    ensures i < |s.batches| <= |p.tasks| && s.batches[i].index == i == p.tasks[i].index
              && SameHeader(s.batches[i], p.tasks[i])
  {
    RunInv(p, job, W, acts, s);
    assert forall k :: 0 <= k < |s.workers| ==> WorkerOk(p, s, s.workers[k]);
    assert i in s.offered;
    assert BatchOk(s.batches[i], p.tasks[i], p.results[i], true);
  }

  function SizeIn(p: Plan): nat -> int { 
    (i: nat) => if i < |p.results| then p.results[i].matched + p.results[i].mismatched + p.results[i].missing else 0
  }

  lemma {:induction false} SumsAdd(p: Plan, s: seq<nat>)
    ensures Sum(MatchedIn(p), s) + Sum(MismatchedIn(p), s) + Sum(MissingIn(p), s) == Sum(SizeIn(p), s)
  {
    if s != [] {
      SumsAdd(p, s[1..]);
    }
  }

  lemma {:induction false} SumZero(f: nat -> int, s: seq<nat>)
    requires forall i :: f(i) >= 0
    ensures Sum(f, s) >= 0
    ensures Sum(f, s) == 0 <==> forall i :: i in s ==> f(i) == 0
  {
    if s != [] {
      SumZero(f, s[1..]);
      assert s == [s[0]] + s[1..];
    }
  }

  // The plan's results are those of auditing two tables.
  ghost predicate FromTables(p: Plan, src: Records, tgt: Records) {
    && Sound(p)
    && forall i :: 0 <= i < |p.tasks| ==>
         p.results[i] == ResultOf(p.h, Side(src, p.tasks[i].ids), Side(CoreTable(tgt), p.tasks[i].ids))
  }

  ghost function SourceMap(p: Plan, src: Records, i: nat): map<int, string> {
    if i < |p.tasks| then HashMap(p.h, Side(src, p.tasks[i].ids)) else map[]
  }

  ghost function TargetMap(p: Plan, tgt: Records, i: nat): map<int, string> {
    if i < |p.tasks| then HashMap(p.h, Side(CoreTable(tgt), p.tasks[i].ids)) else map[]
  }

  ghost function SourceSize(p: Plan, src: Records): nat -> int { (i: nat) => |SourceMap(p, src, i)| }

  lemma ResultParts(p: Plan, src: Records, tgt: Records, i: nat)
    requires FromTables(p, src, tgt) && i < |p.results|
    ensures var m, n, r := SourceMap(p, src, i), TargetMap(p, tgt, i), p.results[i];
            r.matched == Tally(m, n, Match) && r.mismatched == Tally(m, n, Mismatch) && r.missing == Tally(m, n, Miss)
  {
  }

  // No mismatched and no missing record in batch i.
  predicate Clean(p: Plan, i: nat) { MismatchedIn(p)(i) == 0 && MissingIn(p)(i) == 0 }

  lemma ResultSize(p: Plan, src: Records, tgt: Records, i: nat)
    requires FromTables(p, src, tgt) && i < |p.results|
    ensures SizeIn(p)(i) == |SourceMap(p, src, i)|
  {
    SizeAdds(p, i);
    ResultParts(p, src, tgt, i);
    TalliesAddUp(SourceMap(p, src, i), TargetMap(p, tgt, i));
  }

  lemma SizeAdds(p: Plan, i: nat)
    requires i < |p.results|
    ensures SizeIn(p)(i) == p.results[i].matched + p.results[i].mismatched + p.results[i].missing
  {
  }

  lemma CleanMeansContained(p: Plan, src: Records, tgt: Records, i: nat)
    requires FromTables(p, src, tgt) && i < |p.results|
    ensures Clean(p, i) <==> p.results[i].mismatched == 0 && p.results[i].missing == 0
    ensures Clean(p, i) <==> Contained(SourceMap(p, src, i), TargetMap(p, tgt, i))
  {
    ResultParts(p, src, tgt, i);
    TalliesAddUp(SourceMap(p, src, i), TargetMap(p, tgt, i));
  }

  lemma {:induction false} SizesAreSourceMaps(p: Plan, src: Records, tgt: Records, s: seq<nat>)
    requires FromTables(p, src, tgt) && forall i :: i in s ==> i < |p.results|
    ensures Sum(SizeIn(p), s) == Sum(SourceSize(p, src), s)
  {
    if s != [] {
      assert s[0] in s && forall i :: i in s[1..] ==> i in s;
      ResultSize(p, src, tgt, s[0]);
      SizesAreSourceMaps(p, src, tgt, s[1..]);
    }
  }

  // In every reachable state the three counters add up to the source-map sizes of the
  // batches whose counts were added, and those batches are completed.
  lemma CountersAddUp(p: Plan, src: Records, tgt: Records, job: AuditJob, W: nat, acts: seq<Action>, s: State)
    requires FromTables(p, src, tgt) && Fresh(job) && Run(p, Init(job, W), acts) == Some(s)
    ensures s.job.matchCount + s.job.mismatchCount + s.job.missingCount == Sum(SourceSize(p, src), s.log)
    ensures forall i :: i in s.log ==> i < |s.batches| && s.batches[i].status == Completed
  {
    RunInv(p, job, W, acts, s);
    SumsAdd(p, s.log);
    SizesAreSourceMaps(p, src, tgt, s.log);
  }

  // The ids of batch i that are equal on both sides, that differ, and that the target lacks.
  ghost function EqualIn(p: Plan, src: Records, tgt: Records): nat -> int {
    (i: nat) =>
      var m, n := SourceMap(p, src, i), TargetMap(p, tgt, i);
      |set id | id in m && id in n && m[id] == n[id]|
  }

  ghost function DifferentIn(p: Plan, src: Records, tgt: Records): nat -> int {
    (i: nat) =>
      var m, n := SourceMap(p, src, i), TargetMap(p, tgt, i);
      |set id | id in m && id in n && m[id] != n[id]|
  }

  ghost function AbsentIn(p: Plan, src: Records, tgt: Records): nat -> int {
    (i: nat) =>
      var m, n := SourceMap(p, src, i), TargetMap(p, tgt, i);
      |set id | id in m && id !in n|
  }

  lemma CountsOfBatch(p: Plan, src: Records, tgt: Records, i: nat)
    requires FromTables(p, src, tgt) && i < |p.results|
    ensures MatchedIn(p)(i) == EqualIn(p, src, tgt)(i)
    ensures MismatchedIn(p)(i) == DifferentIn(p, src, tgt)(i)
    ensures MissingIn(p)(i) == AbsentIn(p, src, tgt)(i)
  {
    ResultParts(p, src, tgt, i);
    TallyMeans(SourceMap(p, src, i), TargetMap(p, tgt, i));
  }

  lemma CountsOfBatches(p: Plan, src: Records, tgt: Records, s: seq<nat>)
    requires FromTables(p, src, tgt) && forall i :: i in s ==> i < |p.results|
    ensures Sum(MatchedIn(p), s) == Sum(EqualIn(p, src, tgt), s)
    ensures Sum(MismatchedIn(p), s) == Sum(DifferentIn(p, src, tgt), s)
    ensures Sum(MissingIn(p), s) == Sum(AbsentIn(p, src, tgt), s)
  {
    forall k | 0 <= k < |s|
      ensures MatchedIn(p)(s[k]) == EqualIn(p, src, tgt)(s[k])
      ensures MismatchedIn(p)(s[k]) == DifferentIn(p, src, tgt)(s[k])
      ensures MissingIn(p)(s[k]) == AbsentIn(p, src, tgt)(s[k])
    {
      assert s[k] in s;
      CountsOfBatch(p, src, tgt, s[k]);
    }
    SumSame(MatchedIn(p), EqualIn(p, src, tgt), s);
    SumSame(MismatchedIn(p), DifferentIn(p, src, tgt), s);
    SumSame(MissingIn(p), AbsentIn(p, src, tgt), s);
  }

  // In every reachable state each counter is the number of ids of its own kind over the
  // counted batches.
  lemma CountersByKind(p: Plan, src: Records, tgt: Records, job: AuditJob, W: nat, acts: seq<Action>, s: State)
    requires FromTables(p, src, tgt) && Fresh(job) && Run(p, Init(job, W), acts) == Some(s)
    ensures s.job.matchCount == Sum(EqualIn(p, src, tgt), s.log)
    ensures s.job.mismatchCount == Sum(DifferentIn(p, src, tgt), s.log)
    ensures s.job.missingCount == Sum(AbsentIn(p, src, tgt), s.log)
  {
    RunInv(p, job, W, acts, s);
    CountsOfBatches(p, src, tgt, s.log);
  }

  // ---------------------------------------------------------------------- verdict

  lemma CountersZero(p: Plan, s: seq<nat>)
    ensures Sum(MismatchedIn(p), s) >= 0 && Sum(MissingIn(p), s) >= 0
    ensures Sum(MismatchedIn(p), s) == 0 && Sum(MissingIn(p), s) == 0 <==> forall i :: i in s ==> Clean(p, i)
  {
    SumZero(MismatchedIn(p), s);
    SumZero(MissingIn(p), s);
  }

  lemma AllClean(p: Plan, src: Records, tgt: Records, s: seq<nat>)
    requires FromTables(p, src, tgt) && forall i :: i in s ==> i < |p.results|
    ensures (forall i :: i in s ==> Clean(p, i)) <==>
              forall i :: i in s ==> Contained(SourceMap(p, src, i), TargetMap(p, tgt, i))
  {
    forall i | i in s
      ensures Clean(p, i) <==> Contained(SourceMap(p, src, i), TargetMap(p, tgt, i))
    {
      CleanMeansContained(p, src, tgt, i);
    }
  }

  lemma CountedVerdict(p: Plan, src: Records, tgt: Records, s: State)
    requires FromTables(p, src, tgt) && LogOk(p, s) && |s.batches| <= |p.results|
    ensures Judgement(s.job, p.limits) == Passed <==>
            forall i :: i in s.log ==> Contained(SourceMap(p, src, i), TargetMap(p, tgt, i))
  {
    CountersZero(p, s.log);
    AllClean(p, src, tgt, s.log);
  }

  lemma FinalizeShape(p: Plan, s: State, t: State)
    requires Sound(p) && Inv(p, s) && Exec(p, s, Finalize) == Some(t)
    ensures t.job.status == Judgement(s.job, p.limits)
    ensures t.job.sourceRootHash == RootOver(p.h, FilterMap(SourceHashOf, s.batches))
    ensures t.job.targetRootHash == RootOver(p.h, FilterMap(TargetHashOf, s.batches))
    ensures s.batches != [] && |s.batches| == |p.tasks| && forall j :: 0 <= j < |s.batches| ==>
              !s.batches[j].status.Waiting?
  {
    AllDoneMeans(s.batches);
  }

  // The job is passed exactly when every batch counted by then had its source rows,
  // unchanged, in the target.  Uncounted and skipped batches have no say; with nothing
  // counted the job passes.
  lemma FinalVerdict(p: Plan, src: Records, tgt: Records, job: AuditJob, W: nat, acts: seq<Action>, s: State, t: State)
    requires FromTables(p, src, tgt) && Fresh(job) && Run(p, Init(job, W), acts) == Some(s)
    requires Exec(p, s, Finalize) == Some(t)
    ensures t.job.status == Passed <==> forall i :: i in s.log ==> Contained(SourceMap(p, src, i), TargetMap(p, tgt, i))
    ensures t.job.status == Passed || t.job.status == Failed || t.job.status == Alert
    ensures s.batches != [] && |s.batches| == |p.tasks| && forall j :: 0 <= j < |s.batches| ==>
              !s.batches[j].status.Waiting?
  {
    RunInv(p, job, W, acts, s);
    FinalizeShape(p, s, t);
    CountedVerdict(p, src, tgt, s);
  }

  // Alert against failed: a finalized job alerts exactly when some counted id is different
  // or absent, and the different ids or the absent ones reach their share of all counted ids.
  lemma FinalAlert(p: Plan, src: Records, tgt: Records, job: AuditJob, W: nat, acts: seq<Action>, s: State, t: State)
    requires FromTables(p, src, tgt) && Fresh(job) && Run(p, Init(job, W), acts) == Some(s)
    requires Exec(p, s, Finalize) == Some(t)
    ensures var different, absent := Sum(DifferentIn(p, src, tgt), s.log), Sum(AbsentIn(p, src, tgt), s.log);
            && (t.job.status == Alert <==> Alerting(p.limits, different, absent, Sum(SourceSize(p, src), s.log)))
            && (t.job.alertLevel == "critical" <==> t.job.status == Alert)
            && (t.job.alertLevel == "none" <==> t.job.status == Passed)
  {
    CountersNonNegative(p, src, tgt, job, W, acts, s);
    CountersByKind(p, src, tgt, job, W, acts, s);
    CountersAddUp(p, src, tgt, job, W, acts, s);
    AlertOfRun(p, job, W, acts, s, t, Sum(DifferentIn(p, src, tgt), s.log), Sum(AbsentIn(p, src, tgt), s.log),
               Sum(SourceSize(p, src), s.log));
  }

  lemma CountersNonNegative(p: Plan, src: Records, tgt: Records, job: AuditJob, W: nat, acts: seq<Action>, s: State)
    requires FromTables(p, src, tgt) && Fresh(job) && Run(p, Init(job, W), acts) == Some(s)
    ensures s.job.matchCount >= 0 && s.job.mismatchCount >= 0 && s.job.missingCount >= 0
  {
    CountersByKind(p, src, tgt, job, W, acts, s);
    SumsNonNegative(p, src, tgt, s.log);
  }

  lemma AlertOfRun(p: Plan, job: AuditJob, W: nat, acts: seq<Action>, s: State, t: State, different: int, absent: int,
                   counted: int)
    requires Sound(p) && Fresh(job) && Run(p, Init(job, W), acts) == Some(s) && Exec(p, s, Finalize) == Some(t)
    requires s.job.matchCount >= 0 && s.job.mismatchCount >= 0 && s.job.missingCount >= 0
    requires s.job.mismatchCount == different && s.job.missingCount == absent
    requires s.job.matchCount + s.job.mismatchCount + s.job.missingCount == counted
    ensures t.job.status == Alert <==> Alerting(p.limits, different, absent, counted)
    ensures t.job.alertLevel == "critical" <==> t.job.status == Alert
    ensures t.job.alertLevel == "none" <==> t.job.status == Passed
  {
    RunInv(p, job, W, acts, s);
    FinalLevel(p, s, t);
  }

  lemma FinalLevel(p: Plan, s: State, t: State)
    requires Sound(p) && Inv(p, s) && Exec(p, s, Finalize) == Some(t)
    requires s.job.matchCount >= 0 && s.job.mismatchCount >= 0 && s.job.missingCount >= 0
    ensures var j := s.job;
            t.job.status == Alert <==>
              Alerting(p.limits, j.mismatchCount, j.missingCount, j.matchCount + j.mismatchCount + j.missingCount)
    ensures t.job.alertLevel == "critical" <==> t.job.status == Alert
    ensures t.job.alertLevel == "none" <==> t.job.status == Passed
  {
    JudgementMeans(s.job, p.limits);
    FinalizeShape(p, s, t);
  }

  lemma {:induction false} SumsNonNegative(p: Plan, src: Records, tgt: Records, s: seq<nat>)
    ensures Sum(EqualIn(p, src, tgt), s) >= 0 && Sum(DifferentIn(p, src, tgt), s) >= 0
    ensures Sum(AbsentIn(p, src, tgt), s) >= 0
  {
    if s != [] {
      SumsNonNegative(p, src, tgt, s[1..]);
    }
  }

  // A batch's own flag says the same of that batch.
  lemma CompletedFlag(p: Plan, src: Records, tgt: Records, job: AuditJob, W: nat, acts: seq<Action>, s: State, j: nat)
    requires FromTables(p, src, tgt) && Fresh(job) && Run(p, Init(job, W), acts) == Some(s)
    requires j < |s.batches| && s.batches[j].status == Completed
    ensures s.batches[j].isMatched <==> Contained(SourceMap(p, src, j), TargetMap(p, tgt, j))
  {
    RunInv(p, job, W, acts, s);
    assert BatchOk(s.batches[j], p.tasks[j], p.results[j], j in s.offered);
    CleanMeansContained(p, src, tgt, j);
  }

  ghost predicate AllCompletedMatch(s: State) {
    forall j :: 0 <= j < |s.batches| && s.batches[j].status == Completed ==> s.batches[j].isMatched
  }

  // Every completed batch has been counted.
  ghost predicate CaughtUp(s: State) {
    forall j :: 0 <= j < |s.batches| && s.batches[j].status == Completed ==> j in s.log
  }

  // Over its completed batches the verdict errs in one way only: it passes a job when
  // each unmatched completed batch is still uncounted.  Caught up, it is exact.
  lemma VerdictOverCompleted(p: Plan, src: Records, tgt: Records, job: AuditJob, W: nat, acts: seq<Action>,
                             s: State, t: State)
    requires FromTables(p, src, tgt) && Fresh(job) && Run(p, Init(job, W), acts) == Some(s)
    requires Exec(p, s, Finalize) == Some(t)
    ensures AllCompletedMatch(s) ==> t.job.status == Passed
    ensures t.job.status == Passed && !AllCompletedMatch(s) <==>
            && (exists j :: 0 <= j < |s.batches| && s.batches[j].status == Completed && !s.batches[j].isMatched)
            && (forall j :: 0 <= j < |s.batches| && s.batches[j].status == Completed && !s.batches[j].isMatched ==>
                   j !in s.log)
    ensures CaughtUp(s) ==> (t.job.status == Passed <==> AllCompletedMatch(s))
  {
    FinalVerdict(p, src, tgt, job, W, acts, s, t);
    CountersAddUp(p, src, tgt, job, W, acts, s);
    forall j | 0 <= j < |s.batches| && s.batches[j].status == Completed
      ensures s.batches[j].isMatched <==> Contained(SourceMap(p, src, j), TargetMap(p, tgt, j))
    {
      CompletedFlag(p, src, tgt, job, W, acts, s, j);
    }
  }

  // A job is running exactly until its monitor finalizes it or times out.
  lemma RunningUntilEnded(p: Plan, job: AuditJob, W: nat, acts: seq<Action>, s: State)
    requires Sound(p) && Fresh(job) && Run(p, Init(job, W), acts) == Some(s)
    ensures s.job.status == Running <==> !s.monitor.Ended?
    ensures !s.monitor.Off? ==> p.monitored && |s.batches| == |p.tasks|
  {
    RunInv(p, job, W, acts, s);
  }

  lemma EndedStep(p: Plan, s: State, a: Action, t: State)
    requires s.monitor.Ended? && s.dispatcher.Finished? && Exec(p, s, a) == Some(t)
    ensures t.monitor.Ended? && t.dispatcher.Finished? && t.job.status == s.job.status
    ensures t.job.sourceRootHash == s.job.sourceRootHash && t.job.targetRootHash == s.job.targetRootHash
    ensures t.job.errorMessage == s.job.errorMessage
  {
  }

  lemma {:induction false} EndedOn(p: Plan, s: State, more: seq<Action>, t: State)
    requires s.monitor.Ended? && s.dispatcher.Finished? && Run(p, s, more) == Some(t)
    ensures t.monitor.Ended? && t.dispatcher.Finished? && t.job.status == s.job.status
    ensures t.job.sourceRootHash == s.job.sourceRootHash && t.job.targetRootHash == s.job.targetRootHash
    ensures t.job.errorMessage == s.job.errorMessage
  {
    if more != [] {
      var u := Run(p, s, more[..|more| - 1]).value;
      EndedOn(p, s, more[..|more| - 1], u);
      EndedStep(p, u, more[|more| - 1], t);
    }
  }

  // Once the job is no longer running, no continuation changes its verdict or its roots.
  lemma EndedStays(p: Plan, job: AuditJob, W: nat, acts: seq<Action>, s: State, more: seq<Action>, t: State)
    requires Sound(p) && Fresh(job) && Run(p, Init(job, W), acts) == Some(s) && s.job.status != Running
    requires Run(p, s, more) == Some(t)
    ensures t.job.status == s.job.status
    ensures t.job.sourceRootHash == s.job.sourceRootHash && t.job.targetRootHash == s.job.targetRootHash
  {
    RunInv(p, job, W, acts, s);
    EndedOn(p, s, more, t);
  }

  // A job whose monitor times out is failed, for good; its counts and roots at that moment
  // are those of the job before.
  lemma TimedOutMeansFailed(p: Plan, job: AuditJob, W: nat, acts: seq<Action>, s: State, u: State, more: seq<Action>,
                            t: State)
    requires Sound(p) && Fresh(job) && Run(p, Init(job, W), acts) == Some(s) && Exec(p, s, TimeOut) == Some(u)
    requires Run(p, u, more) == Some(t)
    ensures u.job == s.job.(status := Failed, errorMessage := "audit timeout")
    ensures t.job.status == Failed && t.job.errorMessage == "audit timeout"
  {
    RunInv(p, job, W, acts, s);
    EndedOn(p, u, more, t);
  }

  lemma VerdictStep(p: Plan, s: State, a: Action, t: State)
    requires Exec(p, s, a) == Some(t) && t.job.status != s.job.status
    ensures a.Finalize? || (a.TimeOut? && t.job.status == Failed)
  {
  }

  // A verdict takes a step of the monitor: passed and alert the finalization, failed that
  // or the timeout.
  lemma {:induction false} VerdictNeedsMonitor(p: Plan, job: AuditJob, W: nat, acts: seq<Action>, s: State)
    requires Run(p, Init(job, W), acts) == Some(s)
    ensures s.job.status == Passed || s.job.status == Alert ==> Finalize in acts
    ensures s.job.status == Failed ==> Finalize in acts || TimeOut in acts
  {
    if acts != [] {
      var front, a := acts[..|acts| - 1], acts[|acts| - 1];
      var u := Run(p, Init(job, W), front).value;
      VerdictNeedsMonitor(p, job, W, front, u);
      assert acts == front + [a];
      if s.job.status != u.job.status {
        VerdictStep(p, u, a, s);
      }
    }
  }

  // ------------------------------------------------------------- the uncounted batch

  ghost predicate Reachable(p: Plan, i: State, s: State) { exists acts :: Run(p, i, acts) == Some(s) }

  lemma ReachStep(p: Plan, i: State, s: State, a: Action)
    requires Reachable(p, i, s) && Exec(p, s, a).Some?
    ensures Reachable(p, i, Exec(p, s, a).value)
  {
    var acts :| Run(p, i, acts) == Some(s);
    RunSnoc(p, i, acts, s, a);
  }

  lemma RunSnoc(p: Plan, i: State, acts: seq<Action>, s: State, a: Action)
    requires Run(p, i, acts) == Some(s)
    ensures Run(p, i, acts + [a]) == Exec(p, s, a)
  {
    assert (acts + [a])[..|acts|] == acts;
  }

  // ---- jobs that end, and jobs that never do

  // Every batch from number k on is appended and then dropped by a full queue.
  lemma {:induction false} DropAll(p: Plan, i: State, s: State, k: nat) returns (t: State)
    requires Reachable(p, i, s) && k <= |p.tasks| && s.dispatcher == Next(k) && |s.batches| == k
    requires forall j :: 0 <= j < k ==> s.batches[j].status == Skipped
    ensures Reachable(p, i, t) && t.dispatcher == Next(|p.tasks|) && |t.batches| == |p.tasks|
    ensures forall j :: 0 <= j < |t.batches| ==> t.batches[j].status == Skipped
    ensures t.job == s.job && t.monitor == s.monitor
    decreases |p.tasks| - k
  {
    if k == |p.tasks| {
      t := s;
    } else {
      ReachStep(p, i, s, Append);
      var s1 := Exec(p, s, Append).value;
      ReachStep(p, i, s1, Refuse);
      var s2 := Exec(p, s1, Refuse).value;
      ReachStep(p, i, s2, MarkSkipped);
      var s3 := Exec(p, s2, MarkSkipped).value;
      t := DropAll(p, i, s3, k + 1);
    }
  }

  lemma WatchAfterDrops(p: Plan, job: AuditJob, W: nat) returns (s: State)
    requires Sound(p) && p.monitored
    ensures Reachable(p, Init(job, W), s) && s.monitor.Watching? && s.job == job.(status := Running)
    ensures |s.batches| == |p.tasks| && forall j :: 0 <= j < |s.batches| ==> s.batches[j].status == Skipped
  {
    var i := Init(job, W);
    assert Run(p, i, []) == Some(i);
    s := DropAll(p, i, i, 0);
    ReachStep(p, i, s, StartMonitor);
    s := Exec(p, s, StartMonitor).value;
  }

  // A monitored job with batches can pass although a full queue dropped all of them.
  lemma DroppedAuditPasses(p: Plan, job: AuditJob, W: nat)
    requires Sound(p) && Fresh(job) && p.monitored && p.tasks != []
    ensures exists s :: Reachable(p, Init(job, W), s) && s.job.status == Passed
                        && forall j :: 0 <= j < |s.batches| ==> s.batches[j].status == Skipped
  {
    var i := Init(job, W);
    var s := WatchAfterDrops(p, job, W);
    AllDoneMeans(s.batches);
    ReachStep(p, i, s, Tick);
    s := Exec(p, s, Tick).value;
    ReachStep(p, i, s, Finalize);
    s := Exec(p, s, Finalize).value;
  }

  // Some run ends the job exactly when its monitor was started.
  lemma EndsExactlyIfMonitored(p: Plan, job: AuditJob, W: nat)
    requires Sound(p) && Fresh(job)
    ensures (exists s :: Reachable(p, Init(job, W), s) && s.job.status != Running) <==> p.monitored
  {
    var i := Init(job, W);
    if p.monitored {
      var s := WatchAfterDrops(p, job, W);
      ReachStep(p, i, s, TimeOut);
      assert Exec(p, s, TimeOut).value.job.status == Failed;
    }
    if s :| Reachable(p, i, s) && s.job.status != Running {
      var acts :| Run(p, i, acts) == Some(s);
      RunningUntilEnded(p, job, W, acts, s);
    }
  }

  // The plan that the dispatcher makes for a range of total ids from minID on: its batches,
  // and a monitor unless slicing the sample panicked.  A job without a cold row is failed
  // before it comes to a plan.
  ghost predicate DispatchedAs(p: Plan, minID: int, total: nat, rate: real, totalRecords: int, b: nat, draws: seq<real>)
    requires b > 0
  {
    var n := SampleCount(total, rate, totalRecords);
    && total >= 1 && n <= |draws|
    && Planned(p.tasks, Sample(minID, total, n, draws), b) && (p.monitored <==> !RunsPast(total, n, b))
  }

  // A job can end exactly if its last batch does not start past the sample; otherwise the
  // dispatch has panicked and the job runs for ever.
  lemma EndsUnlessDispatchPanicked(p: Plan, minID: int, total: nat, rate: real, totalRecords: int, b: nat,
          draws: seq<real>, job: AuditJob, W: nat)
    requires Sound(p) && Fresh(job) && b > 0 && DispatchedAs(p, minID, total, rate, totalRecords, b, draws)
    ensures (exists s :: Reachable(p, Init(job, W), s) && s.job.status != Running)
            <==> !RunsPast(total, SampleCount(total, rate, totalRecords), b)
  {
    EndsExactlyIfMonitored(p, job, W);
  }

  // One task is appended, queued, watched and taken by worker 0.
  lemma SingleTaskTaken(p: Plan, job: AuditJob, W: nat) returns (s: State)
    requires Sound(p) && p.monitored && |p.tasks| == 1 && W >= 1
    ensures Reachable(p, Init(job, W), s)
    ensures s.job == job.(status := Running) && s.batches == [NewBatch(p.tasks[0])] && s.monitor.Watching?
    ensures |s.workers| == W && s.workers[0] == Busy(0, Fetch) && s.log == []
  {
    var i := Init(job, W);
    assert Run(p, i, []) == Some(i);
    ReachStep(p, i, i, Append);
    s := Exec(p, i, Append).value;
    ReachStep(p, i, s, Enqueue);
    s := Exec(p, s, Enqueue).value;
    ReachStep(p, i, s, StartMonitor);
    s := Exec(p, s, StartMonitor).value;
    ReachStep(p, i, s, Take(0, 0));
    s := Exec(p, s, Take(0, 0)).value;
  }

  lemma WriteOnce(p: Plan, i: State, s: State, ph: Phase) returns (t: State)
    requires Reachable(p, i, s) && |p.results| == 1 && |s.batches| == 1 && !ph.Tell?
    requires |s.workers| >= 1 && s.workers[0] == Busy(0, ph)
    ensures Reachable(p, i, t) && t.batches == [Write(s.batches[0], p.results[0], ph)]
    ensures |t.workers| == |s.workers| && t.workers[0] == Busy(0, After(ph))
    ensures t.job == s.job && t.monitor == s.monitor && t.log == s.log
  {
    ReachStep(p, i, s, Work(0));
    t := Exec(p, s, Work(0)).value;
  }

  // The worker has marked the batch completed but not yet added its counts.
  lemma SingleTaskCompleted(p: Plan, job: AuditJob, W: nat) returns (s: State)
    requires Sound(p) && p.monitored && |p.tasks| == 1 && W >= 1
    ensures Reachable(p, Init(job, W), s)
    ensures s.job == job.(status := Running) && s.batches == [Fill(NewBatch(p.tasks[0]), p.results[0])]
    ensures s.monitor.Watching? && s.log == []
  {
    var i := Init(job, W);
    s := SingleTaskTaken(p, job, W);
    s := WriteOnce(p, i, s, Fetch);
    s := WriteOnce(p, i, s, PutSource);
    s := WriteOnce(p, i, s, PutTarget);
    s := WriteOnce(p, i, s, PutVerdict);
    s := WriteOnce(p, i, s, PutStatus);
  }

  // If the check falls between a batch's status and its counts, a job is passed whatever
  // that batch found.
  lemma CheckBeforeCountsPasses(p: Plan, job: AuditJob, W: nat)
    requires Sound(p) && Fresh(job) && p.monitored && |p.tasks| == 1 && W >= 1
    requires p.results[0].mismatched + p.results[0].missing > 0
    ensures exists s :: Reachable(p, Init(job, W), s) && s.job.status == Passed && !AllCompletedMatch(s)
  {
    var i := Init(job, W);
    var s := SingleTaskCompleted(p, job, W);
    AllDoneMeans(s.batches);
    ReachStep(p, i, s, Tick);
    s := Exec(p, s, Tick).value;
    ReachStep(p, i, s, Finalize);
    s := Exec(p, s, Finalize).value;
    assert s.batches[0].status == Completed && !s.batches[0].isMatched;
  }

  // ------------------------------------------------------------------- root hashes

  // The positions of the completed batches, ascending.
  ghost function Done(bs: seq<AuditBatch>): seq<nat> {
    if bs == [] then []
    else Done(bs[..|bs| - 1]) + (if bs[|bs| - 1].status == Completed then [|bs| - 1] else [])
  }

  lemma {:induction false} DoneMember(bs: seq<AuditBatch>, j: nat)
    ensures j in Done(bs) <==> j < |bs| && bs[j].status == Completed
  {
    if bs != [] {
      DoneMember(bs[..|bs| - 1], j);
    }
  }

  // One side's rows of the completed batches, in order.
  ghost function Audited(p: Plan, table: Records, bs: seq<AuditBatch>): (r: seq<Records>)
    ensures |r| == |Done(bs)|
  {
    seq(|Done(bs)|, k requires 0 <= k < |Done(bs)| => RowsOf(p, table, Done(bs)[k]))
  }

  ghost function RowsOf(p: Plan, table: Records, i: nat): Records {
    if i < |p.tasks| then Side(table, p.tasks[i].ids) else map[]
  }

  ghost predicate HashesAre(p: Plan, table: Records, bs: seq<AuditBatch>, f: AuditBatch -> Option<string>) {
    forall j :: 0 <= j < |bs| ==>
      f(bs[j]) == if bs[j].status == Completed then Some(BatchRoot(p.h, RowsOf(p, table, j))) else None
  }

  lemma AuditedSnoc(p: Plan, table: Records, front: seq<AuditBatch>, last: AuditBatch)
    ensures Audited(p, table, front + [last])
         == Audited(p, table, front) + (if last.status == Completed then [RowsOf(p, table, |front|)] else [])
  {
    assert (front + [last])[..|front|] == front;
  }

  lemma BatchRootsSnoc(h: HashFunc, rs: seq<Records>, r: Records)
    ensures BatchRoots(h, rs + [r]) == BatchRoots(h, rs) + [BatchRoot(h, r)]
  {
    forall i | 0 <= i < |rs| + 1
      ensures BatchRoots(h, rs + [r])[i] == (BatchRoots(h, rs) + [BatchRoot(h, r)])[i]
    {
    }
  }

  lemma CollectedSnoc(p: Plan, table: Records, front: seq<AuditBatch>, last: AuditBatch)
    ensures BatchRoots(p.h, Audited(p, table, front + [last]))
         == BatchRoots(p.h, Audited(p, table, front)) +
              (if last.status == Completed then [BatchRoot(p.h, RowsOf(p, table, |front|))] else [])
  {
    AuditedSnoc(p, table, front, last);
    if last.status == Completed {
      BatchRootsSnoc(p.h, Audited(p, table, front), RowsOf(p, table, |front|));
    } else {
      assert Audited(p, table, front) + [] == Audited(p, table, front);
    }
  }

  lemma {:induction false} CollectedHashes(p: Plan, table: Records, bs: seq<AuditBatch>,
          f: AuditBatch -> Option<string>)
    requires HashesAre(p, table, bs, f)
    ensures FilterMap(f, bs) == BatchRoots(p.h, Audited(p, table, bs))
  {
    if bs != [] {
      var front, last := bs[..|bs| - 1], bs[|bs| - 1];
      CollectedHashes(p, table, front, f);
      FilterMapAppend(f, front, [last]);
      assert bs == front + [last];
      CollectedSnoc(p, table, front, last);
      OnlyHash(f, last);
    }
  }

  lemma OnlyHash(f: AuditBatch -> Option<string>, b: AuditBatch)
    ensures FilterMap(f, [b]) == if f(b).Some? then [f(b).value] else []
  {
    assert [b][1..] == [];
  }

  lemma BatchHashes(p: Plan, src: Records, tgt: Records, w: nat, s: State, j: nat)
    requires FromTables(p, src, tgt) && Inv(p, s) && FixedWidth(p.h, w) && w > 0
    requires j < |s.batches| && !s.batches[j].status.Waiting?
    ensures SourceHashOf(s.batches[j]) == if s.batches[j].status == Completed
              then Some(BatchRoot(p.h, RowsOf(p, src, j))) else None
    ensures TargetHashOf(s.batches[j]) == if s.batches[j].status == Completed
              then Some(BatchRoot(p.h, RowsOf(p, CoreTable(tgt), j))) else None
  {
    assert BatchOk(s.batches[j], p.tasks[j], p.results[j], j in s.offered);
    BatchRootDigest(p.h, w, RowsOf(p, src, j));
    BatchRootDigest(p.h, w, RowsOf(p, CoreTable(tgt), j));
  }

  lemma AllBatchHashes(p: Plan, src: Records, tgt: Records, w: nat, s: State)
    requires FromTables(p, src, tgt) && Inv(p, s) && FixedWidth(p.h, w) && w > 0
    requires forall j :: 0 <= j < |s.batches| ==> !s.batches[j].status.Waiting?
    ensures HashesAre(p, src, s.batches, SourceHashOf)
    ensures HashesAre(p, CoreTable(tgt), s.batches, TargetHashOf)
  {
    forall j | 0 <= j < |s.batches|
      ensures SourceHashOf(s.batches[j]) == if s.batches[j].status == Completed
                then Some(BatchRoot(p.h, RowsOf(p, src, j))) else None
    {
      BatchHashes(p, src, tgt, w, s, j);
    }
    forall j | 0 <= j < |s.batches|
      ensures TargetHashOf(s.batches[j]) == if s.batches[j].status == Completed
                then Some(BatchRoot(p.h, RowsOf(p, CoreTable(tgt), j))) else None
    {
      BatchHashes(p, src, tgt, w, s, j);
    }
  }

  lemma CollectedRoots(p: Plan, src: Records, tgt: Records, bs: seq<AuditBatch>)
    requires HashesAre(p, src, bs, SourceHashOf) && HashesAre(p, CoreTable(tgt), bs, TargetHashOf)
    ensures RootOver(p.h, FilterMap(SourceHashOf, bs)) == RootOver(p.h, BatchRoots(p.h, Audited(p, src, bs)))
    ensures RootOver(p.h, FilterMap(TargetHashOf, bs)) == RootOver(p.h, BatchRoots(p.h, Audited(p, CoreTable(tgt), bs)))
  {
    CollectedHashes(p, src, bs, SourceHashOf);
    CollectedHashes(p, CoreTable(tgt), bs, TargetHashOf);
  }

  // The roots of a finalized job are the job roots over its completed batches.
  lemma FinalRoots(p: Plan, src: Records, tgt: Records, w: nat, s: State, t: State)
    requires FromTables(p, src, tgt) && Inv(p, s) && Exec(p, s, Finalize) == Some(t)
    requires FixedWidth(p.h, w) && w > 0
    ensures t.job.sourceRootHash == RootOver(p.h, BatchRoots(p.h, Audited(p, src, s.batches)))
    ensures t.job.targetRootHash == RootOver(p.h, BatchRoots(p.h, Audited(p, CoreTable(tgt), s.batches)))
  {
    FinalizeShape(p, s, t);
    AllBatchHashes(p, src, tgt, w, s);
    CollectedRoots(p, src, tgt, s.batches);
  }

  ghost function AuditInputs(p: Plan, src: Records, tgt: Records, bs: seq<AuditBatch>): set<string> {
    JobInputs(p.h, Audited(p, src, bs)) + JobInputs(p.h, Audited(p, CoreTable(tgt), bs))
  }

  ghost predicate CompletedMapsEqual(p: Plan, src: Records, tgt: Records, bs: seq<AuditBatch>) {
    forall j :: 0 <= j < |bs| && bs[j].status == Completed ==> SourceMap(p, src, j) == TargetMap(p, tgt, j)
  }

  lemma AuditedAt(p: Plan, src: Records, tgt: Records, bs: seq<AuditBatch>, j: nat) returns (k: nat)
    requires j < |bs| <= |p.tasks| && bs[j].status == Completed
    ensures k < |Done(bs)| && Done(bs)[k] == j
    ensures HashMap(p.h, Audited(p, src, bs)[k]) == SourceMap(p, src, j)
    ensures HashMap(p.h, Audited(p, CoreTable(tgt), bs)[k]) == TargetMap(p, tgt, j)
  {
    DoneMember(bs, j);
    k :| 0 <= k < |Done(bs)| && Done(bs)[k] == j;
  }

  lemma SameMapSameRoot(h: HashFunc, s: Records, t: Records)
    requires HashMap(h, s) == HashMap(h, t)
    ensures BatchRoot(h, s) == BatchRoot(h, t)
  {
  }

  // Equal maps on both sides give equal batch roots, whatever else differs.
  lemma SameMapsSameRoots(p: Plan, src: Records, tgt: Records, bs: seq<AuditBatch>)
    requires |bs| <= |p.tasks| && CompletedMapsEqual(p, src, tgt, bs)
    ensures BatchRoots(p.h, Audited(p, src, bs)) == BatchRoots(p.h, Audited(p, CoreTable(tgt), bs))
  {
    var S, T := Audited(p, src, bs), Audited(p, CoreTable(tgt), bs);
    forall k | 0 <= k < |Done(bs)|
      ensures BatchRoot(p.h, S[k]) == BatchRoot(p.h, T[k])
    {
      var j := Done(bs)[k];
      DoneMember(bs, j);
      assert SourceMap(p, src, j) == TargetMap(p, tgt, j);
      SameMapSameRoot(p.h, S[k], T[k]);
    }
    SameRootsList(p.h, S, T);
  }

  lemma SameRootsList(h: HashFunc, S: seq<Records>, T: seq<Records>)
    requires |S| == |T| && forall k :: 0 <= k < |S| ==> BatchRoot(h, S[k]) == BatchRoot(h, T[k])
    ensures BatchRoots(h, S) == BatchRoots(h, T)
  {
  }

  lemma NoneDone(bs: seq<AuditBatch>)
    requires Done(bs) == []
    ensures forall j :: 0 <= j < |bs| ==> bs[j].status != Completed
  {
    forall j | 0 <= j < |bs|
      ensures bs[j].status != Completed
    {
      DoneMember(bs, j);
    }
  }

  lemma SameRootsSameMaps(p: Plan, src: Records, tgt: Records, w: nat, bs: seq<AuditBatch>)
    requires |bs| <= |p.tasks| && FixedWidth(p.h, w) && Done(bs) != []
    requires JobRoot(p.h, Audited(p, src, bs)) == JobRoot(p.h, Audited(p, CoreTable(tgt), bs))
    ensures CompletedMapsEqual(p, src, tgt, bs) || Collides(p.h, AuditInputs(p, src, tgt, bs))
  {
    var S, T := Audited(p, src, bs), Audited(p, CoreTable(tgt), bs);
    JobBinding(p.h, w, S, T);
    if !Collides(p.h, AuditInputs(p, src, tgt, bs)) {
      forall j | 0 <= j < |bs| && bs[j].status == Completed
        ensures SourceMap(p, src, j) == TargetMap(p, tgt, j)
      {
        var k := AuditedAt(p, src, tgt, bs, j);
        assert HashMap(p.h, S[k]) == HashMap(p.h, T[k]);
      }
    }
  }

  // A finalized job's two roots are equal exactly when every completed batch has equal
  // id-to-hash maps on both sides, up to a collision among the strings hashed.
  lemma RootsBindCompletedBatches(p: Plan, src: Records, tgt: Records, w: nat, job: AuditJob, W: nat,
          acts: seq<Action>, s: State, t: State)
    requires FromTables(p, src, tgt) && Fresh(job) && Run(p, Init(job, W), acts) == Some(s)
    requires Exec(p, s, Finalize) == Some(t)
    requires FixedWidth(p.h, w) && w > 0
    ensures CompletedMapsEqual(p, src, tgt, s.batches) ==> t.job.sourceRootHash == t.job.targetRootHash
    ensures t.job.sourceRootHash == t.job.targetRootHash ==>
              CompletedMapsEqual(p, src, tgt, s.batches) || Collides(p.h, AuditInputs(p, src, tgt, s.batches))
  {
    RunInv(p, job, W, acts, s);
    FinalRoots(p, src, tgt, w, s, t);
    if CompletedMapsEqual(p, src, tgt, s.batches) {
      SameMapsSameRoots(p, src, tgt, s.batches);
    }
    if Done(s.batches) == [] {
      NoneDone(s.batches);
    } else if t.job.sourceRootHash == t.job.targetRootHash {
      assert BatchRoots(p.h, Audited(p, src, s.batches)) != [];
      SameRootsSameMaps(p, src, tgt, w, s.batches);
    }
  }

  // ------------------------------------------------------- from the roots to the rows

  lemma {:induction false} FlattenMember(ss: seq<seq<int>>, x: int)
    ensures x in Flatten(ss) <==> exists k :: 0 <= k < |ss| && x in ss[k]
  {
    if ss != [] {
      FlattenMember(ss[1..], x);
      if x in Flatten(ss[1..]) {
        var k :| 0 <= k < |ss[1..]| && x in ss[1..][k];
        assert x in ss[k + 1];
      }
      if exists k :: 0 <= k < |ss| && x in ss[k] {
        var k :| 0 <= k < |ss| && x in ss[k];
        if k > 0 {
          assert x in ss[1..][k - 1];
        }
      }
    }
  }

  // Both tables hold row id with the same core texts, and the same core values where their
  // types agree, or neither holds it.
  ghost predicate SameRow(src: Records, tgt: Records, id: int) {
    && (id in src <==> id in tgt)
    && (id in src ==> src[id].Keys == CORE_FIELDS && SameRecord(src[id], CoreFields(tgt[id])))
  }

  lemma BatchRowsAgree(p: Plan, src: Records, tgt: Records, bs: seq<AuditBatch>, j: nat, id: int)
    requires CoreRecords(src) && Unambiguous(src)
    requires j < |bs| <= |p.tasks| && bs[j].status == Completed && id in p.tasks[j].ids
    requires SourceMap(p, src, j) == TargetMap(p, tgt, j) && !Collides(p.h, AuditInputs(p, src, tgt, bs))
    ensures SameRow(src, tgt, id)
  {
    CoreTableIsCore(tgt);
    var S, T := Side(src, p.tasks[j].ids), Side(CoreTable(tgt), p.tasks[j].ids);
    var k := AuditedAt(p, src, tgt, bs, j);
    assert Audited(p, src, bs)[k] == S && Audited(p, CoreTable(tgt), bs)[k] == T;
    assert BatchInputs(p.h, S) <= AuditInputs(p, src, tgt, bs);
    assert BatchInputs(p.h, T) <= AuditInputs(p, src, tgt, bs);
    SameHashesSameRecords(p.h, S, T, AuditInputs(p, src, tgt, bs));
    if id in src {
      assert id in S;
    }
    if id in tgt {
      assert id in T;
    }
  }

  lemma SampledRowAgrees(p: Plan, src: Records, tgt: Records, bs: seq<AuditBatch>, sampled: seq<int>, b: nat, id: int)
    requires CoreRecords(src) && Unambiguous(src)
    requires b > 0 && Planned(p.tasks, sampled, b) && |bs| == |p.tasks|
    requires forall j :: 0 <= j < |bs| ==> bs[j].status == Completed
    requires CompletedMapsEqual(p, src, tgt, bs) && !Collides(p.h, AuditInputs(p, src, tgt, bs))
    requires id in sampled
    ensures SameRow(src, tgt, id)
  {
    PlanCoversSample(p.tasks, sampled, b);
    FlattenMember(IdsOf(p.tasks), id);
    var j :| 0 <= j < |IdsOf(p.tasks)| && id in IdsOf(p.tasks)[j];
    assert bs[j].status == Completed;
    BatchRowsAgree(p, src, tgt, bs, j, id);
  }

  lemma SampleAgrees(p: Plan, src: Records, tgt: Records, bs: seq<AuditBatch>, sampled: seq<int>, b: nat)
    requires CoreRecords(src) && Unambiguous(src)
    requires b > 0 && Planned(p.tasks, sampled, b) && |bs| == |p.tasks|
    requires forall j :: 0 <= j < |bs| ==> bs[j].status == Completed
    requires CompletedMapsEqual(p, src, tgt, bs) && !Collides(p.h, AuditInputs(p, src, tgt, bs))
    ensures forall id :: id in sampled ==> SameRow(src, tgt, id)
  {
    forall id | id in sampled
      ensures SameRow(src, tgt, id)
    {
      SampledRowAgrees(p, src, tgt, bs, sampled, b, id);
    }
  }

  ghost predicate SampledRowsAgree(data: Table, coldDate: int, fieldsOf: DataRecord -> Fields, tgt: Records,
                                   sampled: seq<int>)
  {
    forall id :: id in sampled ==> SameRow(ColdRecords(data, coldDate, fieldsOf), tgt, id)
  }

  // No batch skipped: a finalized job then has all its batches completed.
  ghost predicate NoneSkipped(bs: seq<AuditBatch>) { forall j :: 0 <= j < |bs| ==> bs[j].status != Skipped }

  lemma MapsVouch(p: Plan, data: Table, coldDate: int, fieldsOf: DataRecord -> Fields, tgt: Records,
                  bs: seq<AuditBatch>, sampled: seq<int>, b: nat)
    requires CoreReading(fieldsOf) && Unambiguous(ColdRecords(data, coldDate, fieldsOf))
    requires b > 0 && Planned(p.tasks, sampled, b) && |bs| == |p.tasks| && NoneSkipped(bs)
    requires forall j :: 0 <= j < |bs| ==> !bs[j].status.Waiting?
    requires var src := ColdRecords(data, coldDate, fieldsOf);
             CompletedMapsEqual(p, src, tgt, bs) && !Collides(p.h, AuditInputs(p, src, tgt, bs))
    ensures SampledRowsAgree(data, coldDate, fieldsOf, tgt, sampled)
  {
    ColdRecordsAreCore(data, coldDate, fieldsOf);
    SampleAgrees(p, ColdRecords(data, coldDate, fieldsOf), tgt, bs, sampled, b);
  }

  // From the dispatch to the rows: if no batch was skipped and no source row straddles, equal
  // root hashes mean that every sampled id is a cold source row with the same core fields in
  // the target, or is in the target no more than among the cold source rows, or a collision
  // was hit.
  lemma EqualRootsVouchForTheSample(p: Plan, data: Table, coldDate: int, fieldsOf: DataRecord -> Fields, tgt: Records,
          w: nat, sampled: seq<int>, b: nat, job: AuditJob, W: nat, acts: seq<Action>, s: State, t: State)
    requires CoreReading(fieldsOf) && Unambiguous(ColdRecords(data, coldDate, fieldsOf))
    requires FromTables(p, ColdRecords(data, coldDate, fieldsOf), tgt)
    requires Fresh(job) && Run(p, Init(job, W), acts) == Some(s) && Exec(p, s, Finalize) == Some(t)
    requires FixedWidth(p.h, w) && w > 0 && b > 0 && Planned(p.tasks, sampled, b)
    requires NoneSkipped(s.batches) && t.job.sourceRootHash == t.job.targetRootHash
    ensures || SampledRowsAgree(data, coldDate, fieldsOf, tgt, sampled)
            || Collides(p.h, AuditInputs(p, ColdRecords(data, coldDate, fieldsOf), tgt, s.batches))
  {
    var src := ColdRecords(data, coldDate, fieldsOf);
    RootsBindCompletedBatches(p, src, tgt, w, job, W, acts, s, t);
    if !Collides(p.h, AuditInputs(p, src, tgt, s.batches)) {
      FinalVerdict(p, src, tgt, job, W, acts, s, t);
      MapsVouch(p, data, coldDate, fieldsOf, tgt, s.batches, sampled, b);
    }
  }
}
