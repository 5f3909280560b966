// executeJob: plan the shards, process them, compensate failures, register, load, and
// delete the source rows; what becomes of every row.

module ArchiveSaga {
  import opened Sequences
  import opened Ordering
  import opened Decimal
  import opened SourceRepo
  import opened ShardPlan
  import opened Scheduler
  import opened Compensation
  import P = Pipeline

  type Env = P.Env<DataRecord>
  type Schedule = seq<P.Action>

  // ------------------------------------------------------------------- object keys

  function ShardKey(dir: string, index: nat): string {
    dir + "/shard_" + ZeroPad(Digits(index), 4) + ".jsonl"
  }

  lemma ShardKeyInjective(dir: string, i: nat, j: nat)
    requires ShardKey(dir, i) == ShardKey(dir, j)
    ensures i == j
  {
    var a, b := ZeroPad(Digits(i), 4), ZeroPad(Digits(j), 4);
    var pre := dir + "/shard_";
    assert ShardKey(dir, i)[|pre|..] == a + ".jsonl" && ShardKey(dir, j)[|pre|..] == b + ".jsonl";
    assert |a| == |b|;
    assert a == (a + ".jsonl")[..|a|] && b == (b + ".jsonl")[..|b|];
    PaddedInjective(i, j, 4);
  }

  // The name of a shard's object: its index in decimal, with zeros in front up to four digits.
  ghost predicate NamesShard(key: string, dir: string, index: nat) {
    exists w :: key == dir + "/shard_" + w + ".jsonl" && AllDigits(w) && ParseNat(w) == index
                && |w| >= 4 && (|w| == 4 <==> index < 10000)
  }

  lemma ShardKeyNamesShard(dir: string, index: nat)
    ensures NamesShard(ShardKey(dir, index), dir, index)
  {
    PaddedReadsBack(index);
    var w := ZeroPad(Digits(index), 4);
    assert ShardKey(dir, index) == dir + "/shard_" + w + ".jsonl";
  }

  // No object has changed but those with the name of some shard.
  ghost predicate OnlyShardObjects(before: map<string, string>, after: map<string, string>, dir: string) {
    forall key :: ObjectAt(after, key) != ObjectAt(before, key) ==> exists j: nat :: NamesShard(key, dir, j)
  }

  function ObjectAt(oss: map<string, string>, key: string): Option<string> {
    if key in oss then Some(oss[key]) else None
  }

  // --------------------------------------------------------- one processing of a shard

  // A schedule of the shard's goroutines that ends the call; its own timeout may cancel it.
  ghost predicate CompleteRun(env: Env, records: seq<DataRecord>, acts: Schedule) {
    var s := P.Run(env, P.Init(records), acts);
    s.Some? && s.value.main.Returned?
  }

  function EndState(env: Env, records: seq<DataRecord>, acts: Schedule): P.State<DataRecord>
    requires CompleteRun(env, records, acts)
  {
    P.Run(env, P.Init(records), acts).value
  }

  // What the caller of ProcessShardSafe sees.
  function OutcomeOf(env: Env, records: seq<DataRecord>, acts: Schedule, key: string): Outcome
    requires CompleteRun(env, records, acts)
  {
    match EndState(env, records, acts).main.result
    case Done(n) => Success(n, key)
    case Failed => Error
    case Blank => Success(0, "")
  }

  // A success with a path has stored an object; it holds the cleaned and masked rows of the
  // shard, in order, unless the run was cut short.  A success without a path has stored
  // nothing, and neither has an error without cancellation.
  lemma OutcomeMeaning(env: Env, records: seq<DataRecord>, acts: Schedule, key: string)
    requires CompleteRun(env, records, acts) && key != ""
    ensures var o, s := OutcomeOf(env, records, acts, key), EndState(env, records, acts);
            && !o.Panic?
            && (o.Success? && o.path == "" ==> s.stored == None)
            && (o.Success? && o.path != "" ==> o.path == key && s.stored.Some?)
            && (o.Success? && o.path != "" && !P.CutShort(env, records, acts) ==>
                  o.count == |P.Deliverables(env, records)|
                    && s.stored == Some(P.Output(env, P.Deliverables(env, records))))
            && (o.Error? && !s.cancelled ==> s.stored == None)
  {
    var s := EndState(env, records, acts);
    P.FailedUploadStoresNothing(env, records, acts, s);
    if P.Succeeds(s) {
      if !P.CutShort(env, records, acts) {
        SuccessDelivers(env, records, acts);
      }
    } else if P.Undisturbed(s) {
      P.ReturnedMeansDelivered(env, records, acts, s);
    }
  }

  lemma SuccessDelivers(env: Env, records: seq<DataRecord>, acts: Schedule)
    requires CompleteRun(env, records, acts)
    requires P.Succeeds(EndState(env, records, acts)) && !P.CutShort(env, records, acts)
    ensures P.DeliversAll(env, records, EndState(env, records, acts))
  {
    P.SuccessDeliversUnlessCutShort(env, records, acts, EndState(env, records, acts));
  }

  // ------------------------------------------------------------------ the job's state

  datatype JobStatus = JobPending | JobRunning | Compensating | JobCompleted | JobFailed

  // The schedule under which the shard with index i and these rows is processed.
  type Oracle = (nat, seq<DataRecord>) -> Schedule

  ghost predicate Schedules(env: Env, runs: Oracle) {
    forall i: nat, recs: seq<DataRecord> :: CompleteRun(env, recs, runs(i, recs))
  }

  function ShardOutcome(env: Env, data: Table, coldDate: int, dir: string, sh: Shard, runs: Oracle): Outcome
    requires Schedules(env, runs)
  {
    var recs := StreamOf(data, coldDate, sh);
    OutcomeOf(env, recs, runs(sh.index, recs), ShardKey(dir, sh.index))
  }

  function ShardStored(env: Env, data: Table, coldDate: int, sh: Shard, runs: Oracle): Option<string>
    requires Schedules(env, runs)
  {
    var recs := StreamOf(data, coldDate, sh);
    EndState(env, recs, runs(sh.index, recs)).stored
  }

  // The shard's object holds its cleaned and masked rows in order.
  ghost predicate Archived(env: Env, data: Table, coldDate: int, dir: string, sh: Shard, oss: map<string, string>) {
    ObjectAt(oss, ShardKey(dir, sh.index)) == Some(P.Output(env, P.Deliverables(env, StreamOf(data, coldDate, sh))))
  }

  ghost predicate ShardCutShort(env: Env, data: Table, coldDate: int, sh: Shard, runs: Oracle) {
    var recs := StreamOf(data, coldDate, sh);
    P.CutShort(env, recs, runs(sh.index, recs))
  }

  lemma ShardOutcomeMeaning(env: Env, data: Table, coldDate: int, dir: string, sh: Shard, runs: Oracle)
    requires Schedules(env, runs)
    ensures var o := ShardOutcome(env, data, coldDate, dir, sh, runs);
            var stored := ShardStored(env, data, coldDate, sh, runs);
            && !o.Panic?
            && (o.Success? && o.path == "" ==> stored == None)
            && (o.Success? && o.path != "" ==> o.path == ShardKey(dir, sh.index) && stored.Some?)
            && (o.Success? && o.path != "" && !ShardCutShort(env, data, coldDate, sh, runs) ==>
                  stored == Some(P.Output(env, P.Deliverables(env, StreamOf(data, coldDate, sh)))))
  {
    var recs := StreamOf(data, coldDate, sh);
    assert CompleteRun(env, recs, runs(sh.index, recs));
    assert ShardKey(dir, sh.index) != "";
    OutcomeMeaning(env, recs, runs(sh.index, recs), ShardKey(dir, sh.index));
  }

  // The objects after the shards before n that satisfy p have been processed.
  ghost predicate Objects(env: Env, data: Table, coldDate: int, dir: string, shards: seq<Shard>, runs: Oracle,
                          n: int, p: Shard -> bool, before: map<string, string>, after: map<string, string>)
    requires Schedules(env, runs)
  {
    forall j :: 0 <= j < |shards| ==>
      ObjectAt(after, ShardKey(dir, j)) ==
        if j < n && p(shards[j]) && ShardStored(env, data, coldDate, shards[j], runs).Some?
        then ShardStored(env, data, coldDate, shards[j], runs)
        else ObjectAt(before, ShardKey(dir, j))
  }

  predicate Every(sh: Shard) { true }

  predicate Retriable(sh: Shard) { sh.status.Failed? && sh.CanRetry() }

  ghost function RetryFails(env: Env, data: Table, coldDate: int, dir: string, runs: Oracle): Shard -> bool
    requires Schedules(env, runs)
  {
    (sh: Shard) => Retriable(sh) && !ShardOutcome(env, data, coldDate, dir, sh, runs).Success?
  }

  predicate Deletes(sh: Shard, deleteOk: bool) { sh.status.Completed? && deleteOk }

  lemma ObjectsNext(env: Env, data: Table, coldDate: int, dir: string, shards: seq<Shard>, runs: Oracle, n: nat,
                    p: Shard -> bool, before: map<string, string>, after: map<string, string>)
    requires Schedules(env, runs) && n < |shards|
    requires Objects(env, data, coldDate, dir, shards, runs, n, p, before, after)
    ensures var stored := ShardStored(env, data, coldDate, shards[n], runs);
            Objects(env, data, coldDate, dir, shards, runs, n + 1, p, before,
                    if p(shards[n]) && stored.Some? then after[ShardKey(dir, n) := stored.value] else after)
  {
    forall j | 0 <= j < |shards| && j != n
      ensures ShardKey(dir, j) != ShardKey(dir, n)
    {
      if ShardKey(dir, j) == ShardKey(dir, n) {
        ShardKeyInjective(dir, j, n);
      }
    }
  }

  // The objects after the shards have been processed in the given order.
  ghost function StoredAfter(env: Env, data: Table, coldDate: int, dir: string, shards: seq<Shard>, runs: Oracle,
                             p: Shard -> bool, order: seq<nat>, before: map<string, string>): map<string, string>
    requires Schedules(env, runs) && forall k :: 0 <= k < |order| ==> order[k] < |shards|
  {
    if order == [] then before
    else
      var i := order[|order| - 1];
      var rest := StoredAfter(env, data, coldDate, dir, shards, runs, p, order[..|order| - 1], before);
      var stored := ShardStored(env, data, coldDate, shards[i], runs);
      if p(shards[i]) && stored.Some? then rest[ShardKey(dir, i) := stored.value] else rest
  }

  lemma {:induction false} ObjectAfter(env: Env, data: Table, coldDate: int, dir: string, shards: seq<Shard>,
          runs: Oracle, p: Shard -> bool, order: seq<nat>, before: map<string, string>, j: nat)
    requires Schedules(env, runs) && (forall k :: 0 <= k < |order| ==> order[k] < |shards|) && j < |shards|
    ensures ObjectAt(StoredAfter(env, data, coldDate, dir, shards, runs, p, order, before), ShardKey(dir, j)) ==
              if j in order && p(shards[j]) && ShardStored(env, data, coldDate, shards[j], runs).Some?
              then ShardStored(env, data, coldDate, shards[j], runs)
              else ObjectAt(before, ShardKey(dir, j))
  {
    if order != [] {
      var front, i := order[..|order| - 1], order[|order| - 1];
      ObjectAfter(env, data, coldDate, dir, shards, runs, p, front, before, j);
      assert order == front + [i];
      if i != j && ShardKey(dir, i) == ShardKey(dir, j) {
        ShardKeyInjective(dir, i, j);
      }
    }
  }

  // In whatever order the goroutines finish, the objects are those of the sequential pass.
  lemma CompletionOrderIrrelevant(env: Env, data: Table, coldDate: int, dir: string, shards: seq<Shard>,
          runs: Oracle, p: Shard -> bool, order: seq<nat>, before: map<string, string>)
    requires Schedules(env, runs) && forall k :: 0 <= k < |order| ==> order[k] < |shards|
    requires forall j :: 0 <= j < |shards| ==> j in order
    ensures Objects(env, data, coldDate, dir, shards, runs, |shards|, p, before,
                    StoredAfter(env, data, coldDate, dir, shards, runs, p, order, before))
  {
    forall j | 0 <= j < |shards|
      ensures ObjectAt(StoredAfter(env, data, coldDate, dir, shards, runs, p, order, before), ShardKey(dir, j)) ==
                if p(shards[j]) && ShardStored(env, data, coldDate, shards[j], runs).Some?
                then ShardStored(env, data, coldDate, shards[j], runs)
                else ObjectAt(before, ShardKey(dir, j))
    {
      ObjectAfter(env, data, coldDate, dir, shards, runs, p, order, before, j);
    }
  }

  // What is under the shard's key after the first pass and, if that has failed, a retry.
  function ContentAfter(env: Env, data: Table, coldDate: int, dir: string, sh: Shard, firstRuns: Oracle,
                        retryRuns: Oracle, before: map<string, string>): Option<string>
    requires Schedules(env, firstRuns) && Schedules(env, retryRuns)
  {
    var first := ShardStored(env, data, coldDate, sh, firstRuns);
    var again := ShardStored(env, data, coldDate, sh, retryRuns);
    if !ShardOutcome(env, data, coldDate, dir, sh, firstRuns).Success? && again.Some? then again
    else if first.Some? then first
    else ObjectAt(before, ShardKey(dir, sh.index))
  }

  // A shard as the first pass leaves it.
  ghost predicate Processed(env: Env, data: Table, coldDate: int, dir: string, sh: Shard, runs: Oracle,
                            maxRetryCount: int)
    requires Schedules(env, runs)
  {
    var o := ShardOutcome(env, data, coldDate, dir, sh, runs);
    && sh.maxRetryCount == maxRetryCount
    && (if o.Success? then sh.status.Completed? && sh.ossPath == o.path else sh.status.Failed? && sh.retryCount == 1)
  }

  lemma SameOutcome(env: Env, data: Table, coldDate: int, dir: string, a: Shard, b: Shard, runs: Oracle)
    requires Schedules(env, runs) && a.index == b.index && a.startID == b.startID && a.endID == b.endID
    ensures StreamOf(data, coldDate, a) == StreamOf(data, coldDate, b)
    ensures ShardOutcome(env, data, coldDate, dir, a, runs) == ShardOutcome(env, data, coldDate, dir, b, runs)
    ensures ShardStored(env, data, coldDate, a, runs) == ShardStored(env, data, coldDate, b, runs)
  {
  }

  lemma ContentBy(env: Env, data: Table, coldDate: int, dir: string, planned: seq<Shard>, sh: Shard, j: nat,
                  firstRuns: Oracle, retryRuns: Oracle, before: map<string, string>, middle: map<string, string>,
                  oss: map<string, string>)
    requires Schedules(env, firstRuns) && Schedules(env, retryRuns) && j < |planned| && sh.index == j
    requires planned[j].index == j && planned[j].startID == sh.startID && planned[j].endID == sh.endID
    requires Objects(env, data, coldDate, dir, planned, firstRuns, |planned|, Every, before, middle)
    requires var again := ShardStored(env, data, coldDate, sh, retryRuns);
             ObjectAt(oss, ShardKey(dir, j)) ==
               if !ShardOutcome(env, data, coldDate, dir, sh, firstRuns).Success? && again.Some? then again
               else ObjectAt(middle, ShardKey(dir, j))
    ensures ObjectAt(oss, ShardKey(dir, j)) ==
              ContentAfter(env, data, coldDate, dir, sh, firstRuns, retryRuns, before)
  {
    SameOutcome(env, data, coldDate, dir, planned[j], sh, firstRuns);
  }

  class ArchiveJob {
    const repo: SourceDB
    const env: Env
    const coldDate: int
    const dir: string
    const shardCount: int
    const maxRetryCount: int
    var status: JobStatus
    var shards: seq<Shard>
    var oss: map<string, string>
    var hiveRegistered: bool
    var loaded: seq<string>

    ghost predicate Indexed() reads this { forall j :: 0 <= j < |shards| ==> shards[j].index == j }

    constructor (repo: SourceDB, env: Env, coldDate: int, dir: string, shardCount: int, maxRetryCount: int,
                 oss: map<string, string>)
      ensures this.repo == repo && this.env == env && this.coldDate == coldDate && this.dir == dir
      ensures this.shardCount == shardCount && this.maxRetryCount == maxRetryCount && this.oss == oss
      ensures status == JobPending && shards == [] && !hiveRegistered && loaded == []
    {
      this.repo, this.env, this.coldDate, this.dir := repo, env, coldDate, dir;
      this.shardCount, this.maxRetryCount, this.oss := shardCount, maxRetryCount, oss;
      status, shards, hiveRegistered, loaded := JobPending, [], false, [];
    }

    // The first pass over all shards.  Which goroutine ran when matters neither for the
    // shards' records (FirstPassUnderAnySchedule) nor for the objects
    // (CompletionOrderIrrelevant).
    method ProcessShards(runs: Oracle) returns (err: bool)
      requires Indexed() && Schedules(env, runs)
      modifies this`shards, this`oss
      ensures |shards| == |old(shards)|
      ensures forall j :: 0 <= j < |shards| ==>
                shards[j]
                  == Decide(old(shards)[j].Start(), ShardOutcome(env, repo.data, coldDate, dir, old(shards)[j], runs))
      ensures Objects(env, repo.data, coldDate, dir, old(shards), runs, |shards|, Every, old(oss), oss)
      ensures OnlyShardObjects(old(oss), oss, dir)
      ensures forall j :: 0 <= j < |shards| && shards[j].status.Completed? && shards[j].ossPath != "" ==>
                && NamesShard(shards[j].ossPath, dir, j)
                && ObjectAt(oss, shards[j].ossPath) == ShardStored(env, repo.data, coldDate, old(shards)[j], runs)
      ensures forall j :: 0 <= j < |shards| && shards[j].status.Completed? && shards[j].ossPath != "" ==>
                shards[j].ossPath in oss
      ensures err <==> exists j :: 0 <= j < |shards| && shards[j].status.Failed?
    {
      err := false;
      ghost var before := shards;
      for i := 0 to |shards|
        invariant |shards| == |before|
        invariant forall j :: i <= j < |shards| ==> shards[j] == before[j]
        invariant forall j :: 0 <= j < i ==>
                    shards[j] == Decide(before[j].Start(), ShardOutcome(env, repo.data, coldDate, dir, before[j], runs))
        invariant Objects(env, repo.data, coldDate, dir, before, runs, i, Every, old(oss), oss)
        invariant OnlyShardObjects(old(oss), oss, dir)
        invariant err <==> exists j :: 0 <= j < i && shards[j].status.Failed?
      {
        var sh := shards[i];
        ObjectsNext(env, repo.data, coldDate, dir, before, runs, i, Every, old(oss), oss);
        var outcome := ShardOutcome(env, repo.data, coldDate, dir, sh, runs);
        var stored := ShardStored(env, repo.data, coldDate, sh, runs);
        shards := shards[i := Decide(sh.Start(), outcome)];
        StoreObject(i, stored);
        if !outcome.Success? {
          err := true;
        }
      }
      PathsName(before, shards, runs, old(oss), oss);
    }

    method StoreObject(i: nat, stored: Option<string>)
      modifies this`oss
      ensures oss == if stored.Some? then old(oss)[ShardKey(dir, i) := stored.value] else old(oss)
      ensures OnlyShardObjects(old(oss), oss, dir)
    {
      ShardKeyNamesShard(dir, i);
      if stored.Some? {
        oss := oss[ShardKey(dir, i) := stored.value];
      }
    }

    lemma PathsName(before: seq<Shard>, after: seq<Shard>, runs: Oracle, was: map<string, string>,
                    now: map<string, string>)
      requires Schedules(env, runs) && |after| == |before|
      requires forall j :: 0 <= j < |before| ==> before[j].index == j
      requires forall j :: 0 <= j < |before| ==>
                 after[j]
                   == Decide(before[j].Start(), ShardOutcome(env, repo.data, coldDate, dir, before[j], runs))
      requires Objects(env, repo.data, coldDate, dir, before, runs, |before|, Every, was, now)
      ensures forall j :: 0 <= j < |after| && after[j].status.Completed? && after[j].ossPath != "" ==>
                && NamesShard(after[j].ossPath, dir, j) && after[j].ossPath in now
                && ObjectAt(now, after[j].ossPath) == ShardStored(env, repo.data, coldDate, before[j], runs)
    {
      forall j | 0 <= j < |after| && after[j].status.Completed? && after[j].ossPath != ""
        ensures NamesShard(after[j].ossPath, dir, j) && after[j].ossPath in now
        ensures ObjectAt(now, after[j].ossPath) == ShardStored(env, repo.data, coldDate, before[j], runs)
      {
        ShardOutcomeMeaning(env, repo.data, coldDate, dir, before[j], runs);
        ShardKeyNamesShard(dir, j);
      }
    }

    // One retry, on a copy of the shard's record.
    method RetryShard(i: nat, runs: Oracle) returns (ok: bool)
      requires Indexed() && Schedules(env, runs) && i < |shards| && Retriable(shards[i])
      modifies this`oss
      ensures ok == ShardOutcome(env, repo.data, coldDate, dir, shards[i], runs).Success?
      ensures var stored := ShardStored(env, repo.data, coldDate, shards[i], runs);
              oss == if stored.Some? then old(oss)[ShardKey(dir, i) := stored.value] else old(oss)
      ensures OnlyShardObjects(old(oss), oss, dir)
    {
      var copy := RetryCopy(shards[i]).value;
      assert StreamOf(repo.data, coldDate, copy) == StreamOf(repo.data, coldDate, shards[i]);
      ok := ShardOutcome(env, repo.data, coldDate, dir, copy, runs).Success?;
      StoreObject(i, ShardStored(env, repo.data, coldDate, copy, runs));
    }

    method RetryAll(runs: Oracle) returns (retried: nat, failedCount: nat)
      requires Indexed() && Schedules(env, runs)
      modifies this`oss
      ensures Objects(env, repo.data, coldDate, dir, shards, runs, |shards|, Retriable, old(oss), oss)
      ensures OnlyShardObjects(old(oss), oss, dir)
      ensures retried == Count(Retriable, shards)
      ensures failedCount == Count(RetryFails(env, repo.data, coldDate, dir, runs), shards)
    {
      retried, failedCount := 0, 0;
      ghost var fails := RetryFails(env, repo.data, coldDate, dir, runs);
      for i := 0 to |shards|
        invariant Objects(env, repo.data, coldDate, dir, shards, runs, i, Retriable, old(oss), oss)
        invariant OnlyShardObjects(old(oss), oss, dir)
        invariant retried == Count(Retriable, shards[..i]) && failedCount == Count(fails, shards[..i])
      {
        ObjectsNext(env, repo.data, coldDate, dir, shards, runs, i, Retriable, old(oss), oss);
        CountSnoc(Retriable, shards, i);
        CountSnoc(fails, shards, i);
        if shards[i].status.Failed? && shards[i].CanRetry() {
          retried := retried + 1;
          var ok := RetryShard(i, runs);
          if !ok {
            failedCount := failedCount + 1;
          }
        }
      }
      assert shards[..|shards|] == shards;
    }

    // Retry every failed shard that may be retried; an error when there is none or when a
    // retry fails.  The retried copies are separate from the job's own shards.
    method TryCompensate(runs: Oracle) returns (err: bool)
      requires Indexed() && Schedules(env, runs)
      modifies this`status, this`oss
      ensures status == Compensating
      ensures Objects(env, repo.data, coldDate, dir, shards, runs, |shards|, Retriable, old(oss), oss)
      ensures OnlyShardObjects(old(oss), oss, dir)
      ensures !err <==>
                && (exists j :: 0 <= j < |shards| && Retriable(shards[j]))
                && (forall j :: 0 <= j < |shards| && Retriable(shards[j]) ==>
                      ShardOutcome(env, repo.data, coldDate, dir, shards[j], runs).Success?)
    {
      status := Compensating;
      var retried, failedCount := RetryAll(runs);
      err := retried == 0 || failedCount > 0;
      CountExtremes(Retriable, shards);
      CountExtremes(RetryFails(env, repo.data, coldDate, dir, runs), shards);
    }

    // Only shards with a path are loaded, and load errors are ignored.
    method LoadToStarRocks(loadOk: seq<bool>)
      requires |loadOk| == |shards|
      modifies this`loaded
      ensures forall p :: p in loaded <==>
                p in old(loaded)
                  || exists j :: 0 <= j < |shards| && shards[j].status.Completed? && loadOk[j]
                       && shards[j].ossPath == p != ""
    {
      for i := 0 to |shards|
        invariant forall p :: p in loaded <==>
                    p in old(loaded)
                      || exists j :: 0 <= j < i && shards[j].status.Completed? && loadOk[j]
                           && shards[j].ossPath == p != ""
      {
        if shards[i].status.Completed? && shards[i].ossPath != "" {
          if loadOk[i] {
            loaded := loaded + [shards[i].ossPath];
          }
        }
      }
    }

    // Deletes the id range of every COMPLETED shard; a failing deletion is skipped.
    method CleanupSourceData(deleteOk: seq<bool>)
      requires |deleteOk| == |shards|
      modifies repo
      ensures repo.data == Swept(old(repo.data), shards, deleteOk, |shards|)
    {
      for i := 0 to |shards|
        invariant repo.data == Swept(old(repo.data), shards, deleteOk, i)
      {
        if shards[i].status.Completed? && deleteOk[i] {
          repo.DeleteShard(shards[i].startID, shards[i].endID);
        }
      }
    }

    ghost predicate AllUploaded(data: Table, firstRuns: Oracle, retryRuns: Oracle, before: map<string, string>)
      requires Schedules(env, firstRuns) && Schedules(env, retryRuns)
      reads this
    {
      Indexed() && forall j :: 0 <= j < |shards| ==>
        ObjectAt(oss, ShardKey(dir, j))
          == ContentAfter(env, data, coldDate, dir, shards[j], firstRuns, retryRuns, before)
    }

    // The shard succeeds in the first pass or, if it may be retried once, in its retry.
    ghost predicate Passes(data: Table, sh: Shard, firstRuns: Oracle, retryRuns: Oracle)
      requires Schedules(env, firstRuns) && Schedules(env, retryRuns)
    {
      || ShardOutcome(env, data, coldDate, dir, sh, firstRuns).Success?
      || (1 < maxRetryCount && ShardOutcome(env, data, coldDate, dir, sh, retryRuns).Success?)
    }

    // Process and, if need be, compensate: the steps before registration.
    method UploadShards(firstRuns: Oracle, retryRuns: Oracle) returns (err: bool)
      requires Indexed() && Schedules(env, firstRuns) && Schedules(env, retryRuns)
      requires forall j :: 0 <= j < |shards| ==>
                 shards[j].status.Pending? && shards[j].retryCount == 0 && shards[j].maxRetryCount == maxRetryCount
      modifies this`shards, this`oss, this`status
      ensures |shards| == |old(shards)|
      ensures forall j :: 0 <= j < |shards| ==>
                && shards[j].index == j && shards[j].startID == old(shards)[j].startID
                     && shards[j].endID == old(shards)[j].endID
                && Processed(env, repo.data, coldDate, dir, shards[j], firstRuns, maxRetryCount)
      ensures OnlyShardObjects(old(oss), oss, dir)
      ensures !err ==> AllUploaded(repo.data, firstRuns, retryRuns, old(oss))
      ensures !err <==> forall j :: 0 <= j < |shards| ==> Passes(repo.data, shards[j], firstRuns, retryRuns)
    {
      ghost var planned, before := shards, oss;
      var failed := ProcessShards(firstRuns);
      forall j | 0 <= j < |shards|
        ensures Processed(env, repo.data, coldDate, dir, shards[j], firstRuns, maxRetryCount)
        ensures shards[j].index == j && shards[j].startID == planned[j].startID && shards[j].endID == planned[j].endID
      {
        ShardOutcomeMeaning(env, repo.data, coldDate, dir, planned[j], firstRuns);
      }
      ghost var middle := oss;
      err := false;
      if failed {
        err := TryCompensate(retryRuns);
      }
      if !err {
        forall j | 0 <= j < |shards|
          ensures ObjectAt(oss, ShardKey(dir, j))
               == ContentAfter(env, repo.data, coldDate, dir, shards[j], firstRuns, retryRuns, before)
        {
          ContentBy(env, repo.data, coldDate, dir, planned, shards[j], j, firstRuns, retryRuns, before, middle, oss);
        }
      }
    }

    // The phases of the job in their order.  The ghost result is the job as it stood before,
    // with the bounds that were found; every claim about the end is made in its terms.
    method ExecuteJob(mapOrder: seq<int>, firstRuns: Oracle, retryRuns: Oracle, hiveOk: bool, loadOk: seq<bool>,
                      deleteOk: seq<bool>)
      returns (ghost job: Option<Job>)
      requires Keyed(repo.data) && Enumerates(mapOrder, repo.data.Keys)
      requires shardCount >= 1 && |loadOk| == |deleteOk| == shardCount && !hiveRegistered
      requires Schedules(env, firstRuns) && Schedules(env, retryRuns)
      modifies this, repo
      ensures job.None? <==> forall id :: !ColdAt(old(repo.data), coldDate, id)
      ensures job.None? ==> status == JobFailed && !hiveRegistered && oss == old(oss)
      ensures OnlyShardObjects(old(oss), oss, dir)
      ensures job.Some? ==>
                && Sensible(job.value) && Begins(old(repo.data), firstRuns, retryRuns, job.value)
                && Tracks(job.value, shards)
                && (hiveRegistered <==> hiveOk && Accepted(job.value))
                && (hiveRegistered ==> Uploaded(job.value, old(oss), oss))
                && status == (if hiveRegistered then JobCompleted else JobFailed)
      ensures status == JobFailed ==> repo.data == old(repo.data) && loaded == old(loaded)
      ensures status == JobCompleted ==>
                && job.Some? && repo.data == Swept(old(repo.data), shards, deleteOk, shardCount)
                && Fates(job.value, deleteOk, old(oss), oss, repo.data)
                && (Gentle(job.value) ==> forall id :: id in old(repo.data) ==> Kept(job.value, oss, repo.data, id))
      ensures status == JobCompleted ==>
                && LoadedBy(job.value, loadOk, old(loaded), loaded)
                && (Gentle(job.value) && AllTrue(loadOk) ==> AllLoaded(job.value, oss, loaded))
    {
      status := JobRunning;
      var bounds := repo.GetMinMaxID(coldDate, mapOrder);
      if bounds.None? {
        status := JobFailed;
        return None;
      }
      ghost var before := oss;
      var err, j := PlanAndUpload(bounds.value.0, bounds.value.1, firstRuns, retryRuns);
      job := Some(j);
      if err || !hiveOk {
        status := JobFailed;
        return;
      }
      hiveRegistered := true;
      LoadAndClean(loadOk, deleteOk, j, before);
      status := JobCompleted;
    }

    // The steps before registration, for the bounds of the cold ids.
    method PlanAndUpload(minID: int, maxID: int, firstRuns: Oracle, retryRuns: Oracle)
      returns (err: bool, ghost job: Job)
      requires Keyed(repo.data) && shardCount >= 1 && Schedules(env, firstRuns) && Schedules(env, retryRuns)
      requires ColdAt(repo.data, coldDate, minID) && ColdAt(repo.data, coldDate, maxID)
      requires ColdWithin(repo.data, coldDate, minID, maxID)
      modifies this`shards, this`oss, this`status
      ensures Sensible(job) && Begins(repo.data, firstRuns, retryRuns, job) && Tracks(job, shards)
      ensures OnlyShardObjects(old(oss), oss, dir)
      ensures !err <==> Accepted(job)
      ensures !err ==> Uploaded(job, old(oss), oss)
    {
      job := Job(env, repo.data, coldDate, dir, minID, maxID, shardCount, maxRetryCount, firstRuns, retryRuns);
      shards := PrepareShards(minID, maxID, shardCount, maxRetryCount);
      err := UploadShards(firstRuns, retryRuns);
      TracksTheJob(job, shards);
      AcceptedMeans(job, shards);
      if !err {
        ContentMeansUploaded(job, shards, old(oss), oss);
      }
    }

    // The steps after registration.
    method LoadAndClean(loadOk: seq<bool>, deleteOk: seq<bool>, ghost job: Job, ghost before: map<string, string>)
      requires Sensible(job) && job.data == repo.data && Tracks(job, shards) && Uploaded(job, before, oss)
      requires |loadOk| == |deleteOk| == job.n
      modifies this`loaded, repo
      ensures repo.data == Swept(job.data, shards, deleteOk, job.n) && Fates(job, deleteOk, before, oss, repo.data)
      ensures Gentle(job) ==> forall id :: id in job.data ==> Kept(job, oss, repo.data, id)
      ensures LoadedBy(job, loadOk, old(loaded), loaded)
      ensures Gentle(job) && AllTrue(loadOk) ==> AllLoaded(job, oss, loaded)
    {
      LoadToStarRocks(loadOk);
      LoadsOfFirstPass(job, shards, loadOk, old(loaded), loaded);
      GentleJobLoads(job, before, oss, loadOk, old(loaded), loaded);
      CleanupSourceData(deleteOk);
      EveryRowFate(job, shards, deleteOk, before, oss, repo.data);
      NothingLost(job, shards, deleteOk, before, oss, repo.data);
    }

    ghost predicate Begins(data: Table, firstRuns: Oracle, retryRuns: Oracle, job: Job) {
      job == Job(env, data, coldDate, dir, job.lo, job.hi, shardCount, maxRetryCount, firstRuns, retryRuns)
    }
  }

  // ------------------------------------------------- the job in terms of its inputs

  // lo and hi are the bounds of the cold ids, n the number of shards.
  datatype Job = Job(env: Env, data: Table, coldDate: int, dir: string, lo: int, hi: int, n: int, maxRetryCount: int,
                     firstRuns: Oracle, retryRuns: Oracle)

  ghost predicate Sensible(job: Job) {
    && Keyed(job.data) && job.n >= 1
    && ColdAt(job.data, job.coldDate, job.lo) && ColdAt(job.data, job.coldDate, job.hi)
    && ColdWithin(job.data, job.coldDate, job.lo, job.hi)
    && Schedules(job.env, job.firstRuns) && Schedules(job.env, job.retryRuns)
  }

  function PlannedShard(job: Job, j: nat): Shard
    requires job.lo <= job.hi && job.n >= 1
  {
    Shard(j, StartOf(job.lo, job.hi, job.n, j), EndOf(job.lo, job.hi, job.n, j), Pending, 0, "", 0, job.maxRetryCount)
  }

  // How the first pass over shard j ends, and how its retry would.
  ghost function First(job: Job, j: nat): Outcome
    requires Sensible(job)
  {
    ShardOutcome(job.env, job.data, job.coldDate, job.dir, PlannedShard(job, j), job.firstRuns)
  }

  ghost function Retried(job: Job, j: nat): Outcome
    requires Sensible(job)
  {
    ShardOutcome(job.env, job.data, job.coldDate, job.dir, PlannedShard(job, j), job.retryRuns)
  }

  // Every shard succeeds, by the first pass or by its one retry.
  ghost predicate Accepted(job: Job)
    requires Sensible(job)
  {
    forall j :: 0 <= j < job.n ==> First(job, j).Success? || (1 < job.maxRetryCount && Retried(job, j).Success?)
  }

  // What those attempts store, if anything.
  ghost function FirstStored(job: Job, j: nat): Option<string>
    requires Sensible(job)
  {
    ShardStored(job.env, job.data, job.coldDate, PlannedShard(job, j), job.firstRuns)
  }

  ghost function RetryStored(job: Job, j: nat): Option<string>
    requires Sensible(job)
  {
    ShardStored(job.env, job.data, job.coldDate, PlannedShard(job, j), job.retryRuns)
  }

  // Whether they were cancelled with something deliverable still under way.
  ghost predicate FirstCutShort(job: Job, j: nat)
    requires Sensible(job)
  {
    ShardCutShort(job.env, job.data, job.coldDate, PlannedShard(job, j), job.firstRuns)
  }

  ghost predicate RetryCutShort(job: Job, j: nat)
    requires Sensible(job)
  {
    ShardCutShort(job.env, job.data, job.coldDate, PlannedShard(job, j), job.retryRuns)
  }

  // What is due in the object of shard j.
  ghost function ShardOutput(job: Job, j: nat): string
    requires Sensible(job)
  {
    P.Output(job.env, P.Deliverables(job.env, StreamOf(job.data, job.coldDate, PlannedShard(job, j))))
  }

  // Every key holds what the attempts at its shard have left there.
  ghost predicate Uploaded(job: Job, before: map<string, string>, oss: map<string, string>)
    requires Sensible(job)
  {
    forall j :: 0 <= j < job.n ==>
      ObjectAt(oss, ShardKey(job.dir, j)) ==
        ContentAfter(job.env, job.data, job.coldDate, job.dir, PlannedShard(job, j), job.firstRuns, job.retryRuns,
                     before)
  }

  ghost predicate ArchivedIn(job: Job, oss: map<string, string>, j: nat)
    requires Sensible(job)
  {
    Archived(job.env, job.data, job.coldDate, job.dir, PlannedShard(job, j), oss)
  }

  // What the successes mean for the objects: with a path, and not cut short, the shard's
  // cleaned and masked rows; without one, nothing new.
  lemma UploadedMeans(job: Job, before: map<string, string>, oss: map<string, string>, j: nat)
    requires Sensible(job) && Uploaded(job, before, oss) && j < job.n
    ensures var first, again, content := First(job, j), Retried(job, j), ObjectAt(oss, ShardKey(job.dir, j));
            && (first.Success? && first.path != "" && !FirstCutShort(job, j) ==> ArchivedIn(job, oss, j))
            && (first.Success? && first.path == "" ==> content == ObjectAt(before, ShardKey(job.dir, j)))
            && (!first.Success? && again.Success? && again.path != "" && !RetryCutShort(job, j) ==>
                  ArchivedIn(job, oss, j))
            && (!first.Success? && again.Success? && again.path == "" ==>
                  content == if FirstStored(job, j).Some? then FirstStored(job, j)
                             else ObjectAt(before, ShardKey(job.dir, j)))
  {
    var sh := PlannedShard(job, j);
    ShardOutcomeMeaning(job.env, job.data, job.coldDate, job.dir, sh, job.firstRuns);
    ShardOutcomeMeaning(job.env, job.data, job.coldDate, job.dir, sh, job.retryRuns);
  }

  // The shard records at the end: the planned intervals with the outcomes of the first pass.
  ghost predicate Tracks(job: Job, shards: seq<Shard>)
    requires Sensible(job)
  {
    && Planned(shards, job.lo, job.hi, job.n)
    && forall j :: 0 <= j < job.n ==>
         if First(job, j).Success? then shards[j].status.Completed? && shards[j].ossPath == First(job, j).path
         else shards[j].status.Failed?
  }

  lemma SameAsPlanned(job: Job, shards: seq<Shard>, j: nat)
    requires Sensible(job) && Planned(shards, job.lo, job.hi, job.n) && j < job.n
    ensures ShardOutcome(job.env, job.data, job.coldDate, job.dir, shards[j], job.firstRuns) == First(job, j)
    ensures ShardOutcome(job.env, job.data, job.coldDate, job.dir, shards[j], job.retryRuns) == Retried(job, j)
    ensures ShardStored(job.env, job.data, job.coldDate, shards[j], job.firstRuns) == FirstStored(job, j)
    ensures ShardStored(job.env, job.data, job.coldDate, shards[j], job.retryRuns) == RetryStored(job, j)
  {
    SameOutcome(job.env, job.data, job.coldDate, job.dir, shards[j], PlannedShard(job, j), job.firstRuns);
    SameOutcome(job.env, job.data, job.coldDate, job.dir, shards[j], PlannedShard(job, j), job.retryRuns);
  }

  lemma TracksTheJob(job: Job, shards: seq<Shard>)
    requires Sensible(job) && Planned(shards, job.lo, job.hi, job.n)
    requires forall j :: 0 <= j < job.n ==>
               Processed(job.env, job.data, job.coldDate, job.dir, shards[j], job.firstRuns, job.maxRetryCount)
    ensures Tracks(job, shards)
  {
    forall j | 0 <= j < job.n
      ensures ShardOutcome(job.env, job.data, job.coldDate, job.dir, shards[j], job.firstRuns) == First(job, j)
    {
      SameAsPlanned(job, shards, j);
    }
  }

  lemma AcceptedMeans(job: Job, shards: seq<Shard>)
    requires Sensible(job) && Planned(shards, job.lo, job.hi, job.n)
    ensures Accepted(job) <==>
            forall j :: 0 <= j < job.n ==>
              || ShardOutcome(job.env, job.data, job.coldDate, job.dir, shards[j], job.firstRuns).Success?
              || (1 < job.maxRetryCount
                  && ShardOutcome(job.env, job.data, job.coldDate, job.dir, shards[j], job.retryRuns).Success?)
  {
    forall j | 0 <= j < job.n
      ensures ShardOutcome(job.env, job.data, job.coldDate, job.dir, shards[j], job.firstRuns) == First(job, j)
      ensures ShardOutcome(job.env, job.data, job.coldDate, job.dir, shards[j], job.retryRuns) == Retried(job, j)
    {
      SameAsPlanned(job, shards, j);
    }
  }

  lemma ContentMeansUploaded(job: Job, shards: seq<Shard>, before: map<string, string>, oss: map<string, string>)
    requires Sensible(job) && Planned(shards, job.lo, job.hi, job.n)
    requires forall j :: 0 <= j < job.n ==>
               ObjectAt(oss, ShardKey(job.dir, j)) ==
                 ContentAfter(job.env, job.data, job.coldDate, job.dir, shards[j], job.firstRuns, job.retryRuns, before)
    ensures Uploaded(job, before, oss)
  {
    forall j | 0 <= j < job.n
      ensures ObjectAt(oss, ShardKey(job.dir, j)) ==
                ContentAfter(job.env, job.data, job.coldDate, job.dir, PlannedShard(job, j), job.firstRuns,
                             job.retryRuns, before)
    {
      SameAsPlanned(job, shards, j);
      assert shards[j].index == j;
    }
  }

  // The table after the ranges of the first n shards have been swept.
  function Swept(data: Table, shards: seq<Shard>, deleteOk: seq<bool>, n: nat): Table
    requires n <= |shards| == |deleteOk|
  {
    if n == 0 then data
    else
      var rest := Swept(data, shards, deleteOk, n - 1);
      if Deletes(shards[n - 1], deleteOk[n - 1]) then Remove(rest, shards[n - 1].startID, shards[n - 1].endID) else rest
  }

  lemma {:induction false} SweptMember(data: Table, shards: seq<Shard>, deleteOk: seq<bool>, n: nat, id: int)
    requires n <= |shards| == |deleteOk|
    ensures id in Swept(data, shards, deleteOk, n) <==>
              id in data && forall j :: 0 <= j < n ==> !(Deletes(shards[j], deleteOk[j]) && shards[j].Covers(id))
    ensures id in Swept(data, shards, deleteOk, n) ==> Swept(data, shards, deleteOk, n)[id] == data[id]
  {
    if n > 0 {
      SweptMember(data, shards, deleteOk, n - 1, id);
    }
  }

  // ------------------------------------------------------------ what becomes of a row

  // The masked line of an accepted row stands in the object as one contiguous block.
  lemma LineInObject(env: Env, recs: seq<DataRecord>, r: DataRecord)
    requires r in recs && env.clean(r).Some?
    ensures var line := env.line(env.mask(env.clean(r).value));
            exists pre, post :: P.Output(env, P.Deliverables(env, recs)) == pre + line + post
  {
    var i :| 0 <= i < |recs| && recs[i] == r;
    FilterMapKeeps(env.clean, recs, i);
    var kept := FilterMap(env.clean, recs);
    var k :| 0 <= k < |kept| && kept[k] == env.clean(r).value;
    assert Map(env.line, P.Deliverables(env, recs))[k] == env.line(env.mask(env.clean(r).value));
    FlattenContains(Map(env.line, P.Deliverables(env, recs)), env.line(env.mask(env.clean(r).value)));
  }

  ghost predicate Rejected(job: Job, id: int)
    requires id in job.data
  {
    ColdAt(job.data, job.coldDate, id) && job.env.clean(job.data[id]).None?
  }

  function RowLine(env: Env, r: DataRecord): string
    requires env.clean(r).Some?
  {
    env.line(env.mask(env.clean(r).value))
  }

  ghost predicate Acceptable(job: Job, id: int)
    requires id in job.data
  {
    ColdAt(job.data, job.coldDate, id) && job.env.clean(job.data[id]).Some?
  }

  // The row was cold and accepted, and its masked line stands as one block in the object of
  // the one shard that its id falls into.
  ghost predicate LineStored(job: Job, oss: map<string, string>, id: int)
    requires id in job.data && Sensible(job)
  {
    && Acceptable(job, id)
    && Block(RowLine(job.env, job.data[id]),
             ObjectAt(oss, ShardKey(job.dir, ShardFor(job.lo, job.hi, job.n, id))))
  }

  ghost predicate Block(line: string, content: Option<string>) {
    exists pre, post :: content == Some(pre + line + post)
  }

  // Still in the source as it was, or rejected by cleaning, or in the object of its shard.
  ghost predicate Kept(job: Job, oss: map<string, string>, after: Table, id: int)
    requires id in job.data && Sensible(job)
  {
    (id in after && after[id] == job.data[id]) || Rejected(job, id) || LineStored(job, oss, id)
  }

  // The first pass succeeds on shard j, which covers the row, and its range is deleted.
  ghost predicate DeletedWith(job: Job, deleteOk: seq<bool>, j: nat, id: int)
    requires Sensible(job) && |deleteOk| == job.n && j < job.n
  {
    deleteOk[j] && First(job, j).Success? && PlannedShard(job, j).Covers(id)
  }

  // The row is deleted with a shard although it is not cold, or is acceptable and not in
  // what the first pass has stored.
  ghost predicate DroppedWith(job: Job, deleteOk: seq<bool>, j: nat, id: int)
    requires id in job.data && Sensible(job) && |deleteOk| == job.n && j < job.n
  {
    && DeletedWith(job, deleteOk, j, id)
    && (!ColdAt(job.data, job.coldDate, id)
        || (Acceptable(job, id) && !Block(RowLine(job.env, job.data[id]), FirstStored(job, j))))
  }

  ghost predicate Dropped(job: Job, deleteOk: seq<bool>, id: int)
    requires id in job.data && Sensible(job) && |deleteOk| == job.n
  {
    exists j :: 0 <= j < job.n && DroppedWith(job, deleteOk, j, id)
  }

  // Every row that is not dropped is kept; on a store without the job's keys no other is.
  ghost predicate Fates(job: Job, deleteOk: seq<bool>, before: map<string, string>, oss: map<string, string>,
                        after: Table)
    requires Sensible(job) && |deleteOk| == job.n
  {
    forall id :: id in job.data ==>
      && (!Dropped(job, deleteOk, id) ==> Kept(job, oss, after, id))
      && (FreshKeys(job, before) && Dropped(job, deleteOk, id) ==> !Kept(job, oss, after, id))
  }

  ghost predicate FreshKeys(job: Job, before: map<string, string>) {
    forall j :: 0 <= j < job.n ==> ShardKey(job.dir, j) !in before
  }

  // What the sweep leaves, in terms of the first pass.
  lemma SweptByFirstPass(job: Job, shards: seq<Shard>, deleteOk: seq<bool>, id: int)
    requires Sensible(job) && Tracks(job, shards) && |deleteOk| == job.n && id in job.data
    ensures var after := Swept(job.data, shards, deleteOk, job.n);
            id !in after <==> exists j :: 0 <= j < job.n && DeletedWith(job, deleteOk, j, id)
    ensures var after := Swept(job.data, shards, deleteOk, job.n); id in after ==> after[id] == job.data[id]
  {
    SweptMember(job.data, shards, deleteOk, job.n, id);
    forall j | 0 <= j < job.n
      ensures DeletedWith(job, deleteOk, j, id) <==> Deletes(shards[j], deleteOk[j]) && shards[j].Covers(id)
    {
    }
  }

  // A cold row lies in exactly the shard that its id falls into.
  lemma OwnShard(job: Job, shards: seq<Shard>, j: nat, id: int)
    requires Sensible(job) && Planned(shards, job.lo, job.hi, job.n) && j < job.n
    requires ColdAt(job.data, job.coldDate, id) && PlannedShard(job, j).Covers(id)
    ensures job.lo <= id <= job.hi && j == ShardFor(job.lo, job.hi, job.n, id)
  {
    ShardsCover(shards, job.lo, job.hi, job.n, id);
    assert shards[j].Covers(id);
  }

  // A complete object has the masked line of every accepted row of its shard.
  lemma CompleteObjectHasLine(job: Job, j: nat, id: int)
    requires Sensible(job) && j < job.n && id in job.data && Acceptable(job, id) && PlannedShard(job, j).Covers(id)
    ensures Block(RowLine(job.env, job.data[id]), Some(ShardOutput(job, j)))
  {
    var sh := PlannedShard(job, j);
    var recs := StreamOf(job.data, job.coldDate, sh);
    RowsMember(job.data, job.coldDate, sh.startID, sh.endID, id);
    LineInObject(job.env, recs, job.data[id]);
  }

  // Why an acceptable row is lost with its shard: always when the success came without a
  // path, and otherwise only when the run was cut short.
  lemma LossHasACause(job: Job, deleteOk: seq<bool>, j: nat, id: int)
    requires Sensible(job) && |deleteOk| == job.n && j < job.n && id in job.data
    requires DeletedWith(job, deleteOk, j, id) && Acceptable(job, id)
    ensures First(job, j).path == "" ==> DroppedWith(job, deleteOk, j, id)
    ensures DroppedWith(job, deleteOk, j, id) ==>
              || First(job, j).path == ""
              || FirstCutShort(job, j)
  {
    ShardOutcomeMeaning(job.env, job.data, job.coldDate, job.dir, PlannedShard(job, j), job.firstRuns);
    CompleteObjectHasLine(job, j, id);
  }

  lemma KeptUnlessDropped(job: Job, shards: seq<Shard>, deleteOk: seq<bool>, before: map<string, string>,
                          oss: map<string, string>, id: int)
    requires Sensible(job) && Tracks(job, shards) && Uploaded(job, before, oss) && |deleteOk| == job.n
    requires id in job.data && !Dropped(job, deleteOk, id)
    ensures Kept(job, oss, Swept(job.data, shards, deleteOk, job.n), id)
  {
    SweptByFirstPass(job, shards, deleteOk, id);
    if id !in Swept(job.data, shards, deleteOk, job.n) {
      var j :| 0 <= j < job.n && DeletedWith(job, deleteOk, j, id);
      assert !DroppedWith(job, deleteOk, j, id);
      OwnShard(job, shards, j, id);
    }
  }

  lemma DroppedIsNotKept(job: Job, shards: seq<Shard>, deleteOk: seq<bool>, before: map<string, string>,
                         oss: map<string, string>, j: nat, id: int)
    requires Sensible(job) && Tracks(job, shards) && Uploaded(job, before, oss) && |deleteOk| == job.n && j < job.n
    requires FreshKeys(job, before) && id in job.data && DroppedWith(job, deleteOk, j, id)
    ensures !Kept(job, oss, Swept(job.data, shards, deleteOk, job.n), id)
  {
    SweptByFirstPass(job, shards, deleteOk, id);
    if ColdAt(job.data, job.coldDate, id) {
      OwnShard(job, shards, j, id);
    }
  }

  // Exactly which rows survive a completed job, in one form or another.
  lemma RowFate(job: Job, shards: seq<Shard>, deleteOk: seq<bool>, before: map<string, string>,
                oss: map<string, string>, id: int)
    requires Sensible(job) && Tracks(job, shards) && Uploaded(job, before, oss) && |deleteOk| == job.n && id in job.data
    ensures var after := Swept(job.data, shards, deleteOk, job.n);
            && (!Dropped(job, deleteOk, id) ==> Kept(job, oss, after, id))
            && (FreshKeys(job, before) && Dropped(job, deleteOk, id) ==> !Kept(job, oss, after, id))
  {
    if !Dropped(job, deleteOk, id) {
      KeptUnlessDropped(job, shards, deleteOk, before, oss, id);
    } else if FreshKeys(job, before) {
      var j :| 0 <= j < job.n && DroppedWith(job, deleteOk, j, id);
      DroppedIsNotKept(job, shards, deleteOk, before, oss, j, id);
    }
  }

  lemma EveryRowFate(job: Job, shards: seq<Shard>, deleteOk: seq<bool>, before: map<string, string>,
                     oss: map<string, string>, after: Table)
    requires Sensible(job) && Tracks(job, shards) && Uploaded(job, before, oss) && |deleteOk| == job.n
    requires after == Swept(job.data, shards, deleteOk, job.n)
    ensures Fates(job, deleteOk, before, oss, after)
  {
    forall id | id in job.data
      ensures !Dropped(job, deleteOk, id) ==> Kept(job, oss, after, id)
      ensures FreshKeys(job, before) && Dropped(job, deleteOk, id) ==> !Kept(job, oss, after, id)
    {
      RowFate(job, shards, deleteOk, before, oss, id);
    }
  }

  // ---- when nothing is lost

  ghost predicate UndisturbedRuns(env: Env, runs: Oracle)
    requires Schedules(env, runs)
  {
    forall i: nat, recs: seq<DataRecord> :: SoundRun(env, recs, runs(i, recs))
  }

  ghost predicate SoundRun(env: Env, recs: seq<DataRecord>, acts: Schedule) {
    CompleteRun(env, recs, acts) && P.Undisturbed(EndState(env, recs, acts))
  }

  // No more shards than ids, no hot row between the bounds, and no upload that fails and no
  // cancellation in the first pass.
  ghost predicate Gentle(job: Job)
    requires Sensible(job)
  {
    && job.n <= job.hi - job.lo + 1
    && (forall id :: id in job.data && job.lo <= id <= job.hi ==> ColdAt(job.data, job.coldDate, id))
    && UndisturbedRuns(job.env, job.firstRuns)
  }

  // Undisturbed, every shard succeeds in the first pass, with its own path and object.
  lemma FirstPassSuffices(job: Job, j: nat)
    requires Sensible(job) && UndisturbedRuns(job.env, job.firstRuns)
    ensures First(job, j).Success? && First(job, j).path == ShardKey(job.dir, j) && First(job, j).path != ""
    ensures FirstStored(job, j) == Some(ShardOutput(job, j))
  {
    var recs := StreamOf(job.data, job.coldDate, PlannedShard(job, j));
    assert SoundRun(job.env, recs, job.firstRuns(j, recs));
    P.ReturnedMeansDelivered(job.env, recs, job.firstRuns(j, recs), EndState(job.env, recs, job.firstRuns(j, recs)));
  }

  // So the job gets to registration whatever the retry bound, with every shard's object in
  // place.
  lemma AllArchived(job: Job, before: map<string, string>, oss: map<string, string>)
    requires Sensible(job) && UndisturbedRuns(job.env, job.firstRuns)
    ensures Accepted(job)
    ensures Uploaded(job, before, oss) ==>
              forall j :: 0 <= j < job.n ==> ArchivedIn(job, oss, j)
  {
    forall j | 0 <= j < job.n
      ensures First(job, j).Success? && (Uploaded(job, before, oss) ==> ArchivedIn(job, oss, j))
    {
      FirstPassSuffices(job, j);
    }
  }

  // The first pass reports a path under the name of its shard.
  lemma PathNamesShard(job: Job, j: nat)
    requires Sensible(job) && j < job.n && First(job, j).Success? && First(job, j).path != ""
    ensures NamesShard(First(job, j).path, job.dir, j)
  {
    ShardOutcomeMeaning(job.env, job.data, job.coldDate, job.dir, PlannedShard(job, j), job.firstRuns);
    ShardKeyNamesShard(job.dir, j);
  }

  // Loaded are exactly the paths that the first pass reports and StarRocks takes.
  ghost predicate LoadedBy(job: Job, loadOk: seq<bool>, was: seq<string>, loaded: seq<string>)
    requires Sensible(job) && |loadOk| == job.n
  {
    forall p :: p in loaded <==>
      || p in was
      || exists j :: 0 <= j < job.n && First(job, j).Success? && loadOk[j] && First(job, j).path == p != ""
  }

  // An object with the name of the shard is in place and loaded.
  ghost predicate LoadedAs(dir: string, oss: map<string, string>, loaded: seq<string>, j: nat) {
    exists p :: p in loaded && p in oss && NamesShard(p, dir, j)
  }

  ghost predicate AllLoaded(job: Job, oss: map<string, string>, loaded: seq<string>) {
    forall j :: 0 <= j < job.n ==> LoadedAs(job.dir, oss, loaded, j)
  }

  lemma LoadsOfFirstPass(job: Job, shards: seq<Shard>, loadOk: seq<bool>, was: seq<string>, loaded: seq<string>)
    requires Sensible(job) && Tracks(job, shards) && |loadOk| == job.n
    requires forall p :: p in loaded <==>
               p in was
                 || exists j :: 0 <= j < |shards| && shards[j].status.Completed? && loadOk[j]
                      && shards[j].ossPath == p != ""
    ensures LoadedBy(job, loadOk, was, loaded)
  {
    forall p
      ensures p in loaded <==>
              || p in was
              || exists j :: 0 <= j < job.n && First(job, j).Success? && loadOk[j] && First(job, j).path == p != ""
    {
      PathOfFirstPass(job, shards, loadOk, p);
    }
  }

  lemma PathOfFirstPass(job: Job, shards: seq<Shard>, loadOk: seq<bool>, p: string)
    requires Sensible(job) && Tracks(job, shards) && |loadOk| == job.n
    ensures (exists j :: 0 <= j < |shards| && shards[j].status.Completed? && loadOk[j] && shards[j].ossPath == p != "")
       <==> exists j :: 0 <= j < job.n && First(job, j).Success? && loadOk[j] && First(job, j).path == p != ""
  {
    if j :| 0 <= j < |shards| && shards[j].status.Completed? && loadOk[j] && shards[j].ossPath == p != "" {
      assert First(job, j).Success? && First(job, j).path == p;
    }
    if j :| 0 <= j < job.n && First(job, j).Success? && loadOk[j] && First(job, j).path == p != "" {
      assert shards[j].status.Completed? && shards[j].ossPath == p;
    }
  }

  lemma GentleJobLoads(job: Job, before: map<string, string>, oss: map<string, string>, loadOk: seq<bool>,
                       was: seq<string>, loaded: seq<string>)
    requires Sensible(job) && Uploaded(job, before, oss) && |loadOk| == job.n && LoadedBy(job, loadOk, was, loaded)
    ensures Gentle(job) && AllTrue(loadOk) ==> AllLoaded(job, oss, loaded)
  {
    if Gentle(job) && AllTrue(loadOk) {
      forall j | 0 <= j < job.n
        ensures LoadedAs(job.dir, oss, loaded, j)
      {
        FirstPassSuffices(job, j);
        PathNamesShard(job, j);
        assert First(job, j).path in loaded && ObjectAt(oss, ShardKey(job.dir, j)).Some?;
      }
    }
  }

  lemma GentleShard(job: Job, shards: seq<Shard>, deleteOk: seq<bool>, j: nat, id: int)
    requires Sensible(job) && Gentle(job) && Planned(shards, job.lo, job.hi, job.n) && |deleteOk| == job.n
    requires id in job.data && j < job.n
    ensures !DroppedWith(job, deleteOk, j, id)
  {
    ShardWithin(shards, job.lo, job.hi, job.n, j);
    FirstPassSuffices(job, j);
    if DroppedWith(job, deleteOk, j, id) {
      CompleteObjectHasLine(job, j, id);
    }
  }

  lemma NotDropped(job: Job, shards: seq<Shard>, deleteOk: seq<bool>, id: int)
    requires Sensible(job) && Gentle(job) && Planned(shards, job.lo, job.hi, job.n) && |deleteOk| == job.n
    requires id in job.data
    ensures !Dropped(job, deleteOk, id)
  {
    forall j | 0 <= j < job.n
      ensures !DroppedWith(job, deleteOk, j, id)
    {
      GentleShard(job, shards, deleteOk, j, id);
    }
  }

  // A gentle job keeps every row, whatever the store held before.
  lemma NothingLost(job: Job, shards: seq<Shard>, deleteOk: seq<bool>, before: map<string, string>,
                    oss: map<string, string>, after: Table)
    requires Sensible(job) && Planned(shards, job.lo, job.hi, job.n) && |deleteOk| == job.n
    requires Fates(job, deleteOk, before, oss, after)
    ensures Gentle(job) ==> forall id :: id in job.data ==> Kept(job, oss, after, id)
  {
    if Gentle(job) {
      forall id | id in job.data
        ensures Kept(job, oss, after, id)
      {
        NotDropped(job, shards, deleteOk, id);
      }
    }
  }

  // ---- rows that are lost

  // Some schedule without disturbance, and some with a swallowed upload failure.
  ghost function SoundSchedule(env: Env, recs: seq<DataRecord>): (acts: Schedule)
    requires env.batchSize >= 1
    ensures SoundRun(env, recs, acts)
  {
    assert P.Run(env, P.Init(recs), []) == Some(P.Init(recs));
    P.RunCompletes(env, recs, [], P.Init(recs));
    var acts, t :| [] <= acts && P.Run(env, P.Init(recs), acts) == Some(t) && P.Undisturbed(t)
                   && t.main == P.Returned(P.Done(|P.Deliverables(env, recs)|));
    acts
  }

  lemma SwallowedScheduleExists(env: Env, recs: seq<DataRecord>)
    requires env.batchSize >= 1
    ensures exists acts :: SwallowedRun(env, recs, acts)
  {
    var acts, t := P.SwallowedRun(env, recs);
    assert SwallowedRun(env, recs, acts);
  }

  ghost predicate SwallowedRun(env: Env, recs: seq<DataRecord>, acts: Schedule) {
    CompleteRun(env, recs, acts) && EndState(env, recs, acts).main == P.Returned(P.Blank)
      && EndState(env, recs, acts).stored == None
  }

  ghost function SwallowedSchedule(env: Env, recs: seq<DataRecord>): (acts: Schedule)
    requires env.batchSize >= 1
    ensures SwallowedRun(env, recs, acts)
  {
    SwallowedScheduleExists(env, recs);
    var acts :| SwallowedRun(env, recs, acts);
    acts
  }

  ghost predicate TruncatedRun(env: Env, recs: seq<DataRecord>, acts: Schedule) {
    CompleteRun(env, recs, acts) && EndState(env, recs, acts).main == P.Returned(P.Done(0))
      && EndState(env, recs, acts).stored == Some("")
  }

  lemma TruncatedScheduleExists(env: Env, recs: seq<DataRecord>)
    ensures exists acts :: TruncatedRun(env, recs, acts)
  {
    var acts, t := P.CancelledRunReportsSuccess(env, recs);
    assert TruncatedRun(env, recs, acts);
  }

  ghost function TruncatedSchedule(env: Env, recs: seq<DataRecord>): (acts: Schedule)
    ensures TruncatedRun(env, recs, acts)
  {
    TruncatedScheduleExists(env, recs);
    var acts :| TruncatedRun(env, recs, acts);
    acts
  }

  lemma OneShard(job: Job, j: nat)
    requires Sensible(job) && job.n == 1 && j == 0
    ensures PlannedShard(job, j).startID == job.lo && PlannedShard(job, j).endID == job.hi
  {
    FirstStart(job.lo, job.hi, 1);
  }

  // A hot row between the bounds of a job with one shard is deleted, without any failing
  // upload, and the job gets to its end.
  lemma HotRowIsDropped(job: Job, id: int)
    requires Sensible(job) && UndisturbedRuns(job.env, job.firstRuns) && job.n == 1
    requires id in job.data && job.lo <= id <= job.hi && !ColdAt(job.data, job.coldDate, id)
    ensures Accepted(job) && Dropped(job, [true], id)
  {
    AllArchived(job, map[], map[]);
    OneShard(job, 0);
    FirstPassSuffices(job, 0);
    assert DroppedWith(job, [true], 0, id);
  }

  function ThreeRows(coldDate: int): (data: Table)
    ensures Keyed(data) && ColdWithin(data, coldDate, 0, 2)
    ensures ColdAt(data, coldDate, 0) && ColdAt(data, coldDate, 2) && 1 in data && !ColdAt(data, coldDate, 1)
  {
    var cold := coldDate - 1;
    map[0 := DataRecord(0, cold, ""), 1 := DataRecord(1, coldDate, ""), 2 := DataRecord(2, cold, "")]
  }

  lemma SoundOracle(env: Env) returns (runs: Oracle)
    requires env.batchSize >= 1
    ensures Schedules(env, runs) && UndisturbedRuns(env, runs)
  {
    runs := (i: nat, recs: seq<DataRecord>) => SoundSchedule(env, recs);
    assert forall i: nat, recs: seq<DataRecord> :: SoundRun(env, recs, runs(i, recs));
  }

  // One hot row between two cold ones is such a row.
  lemma HotRowIsLost(env: Env, coldDate: int, dir: string, maxRetryCount: int) returns (job: Job)
    requires env.batchSize >= 1
    ensures job.env == env && job.coldDate == coldDate && job.dir == dir && job.maxRetryCount == maxRetryCount
              && job.n == 1
    ensures Sensible(job) && UndisturbedRuns(env, job.firstRuns) && Accepted(job)
    ensures job.data == ThreeRows(coldDate) && Dropped(job, [true], 1)
  {
    var runs := SoundOracle(env);
    job := Job(env, ThreeRows(coldDate), coldDate, dir, 0, 2, 1, maxRetryCount, runs, runs);
    HotRowIsDropped(job, 1);
  }

  // Any acceptable cold row, alone in its table: the upload fails unnoticed, the job gets to
  // its end, and the row is deleted.
  lemma SwallowedFailureLosesRow(env: Env, coldDate: int, dir: string, maxRetryCount: int, row: DataRecord)
    returns (job: Job)
    requires env.batchSize >= 1 && row.createdAt < coldDate && env.clean(row).Some?
    ensures job.env == env && job.coldDate == coldDate && job.dir == dir && job.maxRetryCount == maxRetryCount
              && job.n == 1
    ensures Sensible(job) && Accepted(job)
    ensures job.data == map[row.id := row] && Dropped(job, [true], row.id)
  {
    var data: Table := map[row.id := row];
    var runs := (i: nat, recs: seq<DataRecord>) => SwallowedSchedule(env, recs);
    job := Job(env, data, coldDate, dir, row.id, row.id, 1, maxRetryCount, runs, runs);
    assert forall i: nat, recs: seq<DataRecord> :: SwallowedRun(env, recs, runs(i, recs));
    OneShard(job, 0);
    var recs := StreamOf(data, coldDate, PlannedShard(job, 0));
    assert SwallowedRun(env, recs, runs(0, recs));
    assert First(job, 0) == Success(0, "");
    assert DroppedWith(job, [true], 0, row.id);
  }

  // Any acceptable cold row, alone in its table: the shard is cancelled, for its timeout say,
  // before the first record; it is COMPLETED all the same, the job gets to its end, and the
  // row is deleted.
  lemma TruncatedShardLosesRow(env: Env, coldDate: int, dir: string, maxRetryCount: int, row: DataRecord)
    returns (job: Job)
    requires row.createdAt < coldDate && env.clean(row).Some? && RowLine(env, row) != ""
    ensures job.env == env && job.coldDate == coldDate && job.dir == dir && job.maxRetryCount == maxRetryCount
              && job.n == 1
    ensures Sensible(job) && Accepted(job) && First(job, 0) == Success(0, ShardKey(dir, 0))
    ensures job.data == map[row.id := row] && Dropped(job, [true], row.id)
  {
    var data: Table := map[row.id := row];
    var runs := (i: nat, recs: seq<DataRecord>) => TruncatedSchedule(env, recs);
    job := Job(env, data, coldDate, dir, row.id, row.id, 1, maxRetryCount, runs, runs);
    assert forall i: nat, recs: seq<DataRecord> :: TruncatedRun(env, recs, runs(i, recs));
    OneShard(job, 0);
    var recs := StreamOf(data, coldDate, PlannedShard(job, 0));
    assert TruncatedRun(env, recs, runs(0, recs));
    assert !Block(RowLine(env, row), Some(""));
    assert DroppedWith(job, [true], 0, row.id);
  }

  // ------------------------------------------------------- the audit that follows the job

  // Of the cold rows, the source that a later audit reads holds exactly those whose shard
  // failed in the first pass or was not deleted.
  lemma LeftToAudit(job: Job, shards: seq<Shard>, deleteOk: seq<bool>, id: int)
    requires Sensible(job) && Tracks(job, shards) && |deleteOk| == job.n && ColdAt(job.data, job.coldDate, id)
    ensures var j := ShardFor(job.lo, job.hi, job.n, id);
            && 0 <= j < job.n
            && (id in Swept(job.data, shards, deleteOk, job.n) <==> !(deleteOk[j] && First(job, j).Success?))
  {
    SweptByFirstPass(job, shards, deleteOk, id);
    ShardsCover(shards, job.lo, job.hi, job.n, id);
    var j := ShardFor(job.lo, job.hi, job.n, id);
    assert shards[j].Covers(id);
    if id !in Swept(job.data, shards, deleteOk, job.n) {
      var k :| 0 <= k < job.n && DeletedWith(job, deleteOk, k, id);
      OwnShard(job, shards, k, id);
    } else {
      assert !DeletedWith(job, deleteOk, j, id);
    }
  }

  ghost predicate AllTrue(ok: seq<bool>) { forall j :: 0 <= j < |ok| ==> ok[j] }

  // A gentle job whose deletions all succeed deletes the cold rows and no others.
  lemma ColdRowsSwept(job: Job, shards: seq<Shard>, deleteOk: seq<bool>, id: int)
    requires Sensible(job) && Tracks(job, shards) && Gentle(job) && |deleteOk| == job.n && AllTrue(deleteOk)
    requires id in job.data
    ensures id in Swept(job.data, shards, deleteOk, job.n) <==> !ColdAt(job.data, job.coldDate, id)
  {
    if ColdAt(job.data, job.coldDate, id) {
      LeftToAudit(job, shards, deleteOk, id);
      FirstPassSuffices(job, ShardFor(job.lo, job.hi, job.n, id));
    } else {
      SweptByFirstPass(job, shards, deleteOk, id);
      NotDropped(job, shards, deleteOk, id);
      assert forall j :: 0 <= j < job.n && DeletedWith(job, deleteOk, j, id) ==> DroppedWith(job, deleteOk, j, id);
    }
  }

  // So an audit with any cold date finds only rows that have turned cold since; with the
  // job's own date it finds none, and is failed without comparing a single archived row.
  lemma NothingLeftToAudit(job: Job, shards: seq<Shard>, deleteOk: seq<bool>, auditDate: int)
    requires Sensible(job) && Tracks(job, shards) && Gentle(job) && |deleteOk| == job.n && AllTrue(deleteOk)
    ensures var after := Swept(job.data, shards, deleteOk, job.n);
            forall id :: ColdAt(after, auditDate, id) <==>
                           id in job.data && job.coldDate <= job.data[id].createdAt < auditDate
  {
    var after := Swept(job.data, shards, deleteOk, job.n);
    forall id
      ensures ColdAt(after, auditDate, id) <==>
              id in job.data && job.coldDate <= job.data[id].createdAt < auditDate
    {
      SweptMember(job.data, shards, deleteOk, job.n, id);
      if id in job.data {
        ColdRowsSwept(job, shards, deleteOk, id);
      }
    }
  }

  lemma ShardWithin(shards: seq<Shard>, lo: int, hi: int, n: int, j: nat)
    requires lo <= hi && 1 <= n <= hi - lo + 1 && Planned(shards, lo, hi, n) && j < n
    ensures lo <= shards[j].startID && shards[j].endID <= hi
  {
    FirstStart(lo, hi, n);
    StartsAscend(lo, hi, n, 0, j);
    if j < n - 1 {
      LastShardNonEmpty(shards, lo, hi, n);
      ShardsDisjoint(shards, lo, hi, n, j, n - 1);
    }
  }

  lemma LastShardNonEmpty(shards: seq<Shard>, lo: int, hi: int, n: int)
    requires lo <= hi && 1 <= n <= hi - lo + 1 && Planned(shards, lo, hi, n)
    ensures shards[n - 1].startID <= hi
  {
    ShardsTile(shards, lo, hi, n);
    assert (hi - lo + 1) / n >= 0 && (hi - lo + 1) % n >= 0;
    DivBounds(hi - lo + 1, n);
  }

  // --------------------------------------- the passes under any schedule of goroutines

  ghost predicate OutcomesOf(env: Env, data: Table, coldDate: int, dir: string, shards: seq<Shard>, runs: Oracle,
                             outcomes: seq<Outcome>)
    requires Schedules(env, runs)
  {
    |outcomes| == |shards| && forall j :: 0 <= j < |shards| ==>
      outcomes[j] == ShardOutcome(env, data, coldDate, dir, shards[j], runs)
  }

  // However the scheduler interleaves the first pass, without cancellation and wait
  // timeout: the shards end as ProcessShards leaves them, with the same verdict.
  lemma FirstPassUnderAnySchedule(env: Env, data: Table, coldDate: int, dir: string, shards: seq<Shard>,
          runs: Oracle, outcomes: seq<Outcome>, concurrency: nat, threshold: int, acts: seq<Scheduler.Action>,
          end: Scheduler.State)
    requires Schedules(env, runs) && OutcomesOf(env, data, coldDate, dir, shards, runs, outcomes)
    requires forall j :: 0 <= j < |shards| ==> shards[j].status.Pending?
    requires Scheduler.Run(Scheduler.Init(concurrency, threshold, shards, outcomes), acts) == Some(end)
    requires end.dispatcher.Finished? && end.dispatcher.ret != WaitTimeout && !end.cancelled
    ensures |end.workers| == |shards|
    ensures forall j :: 0 <= j < |shards| ==>
              end.workers[j].shard == Decide(shards[j].Start(), ShardOutcome(env, data, coldDate, dir, shards[j], runs))
    ensures end.dispatcher.ret == Nil <==> !exists j :: 0 <= j < |shards| && end.workers[j].shard.status.Failed?
  {
    ScheduleIrrelevant(concurrency, threshold, shards, outcomes, acts, end);
    if end.dispatcher.ret != Nil {
      var j :| 0 <= j < |shards| && !outcomes[j].Success?;
      assert end.workers[j].shard.status.Failed?;
    }
  }

  lemma {:induction false} RetryCopiesComeFrom(shards: seq<Shard>, k: nat)
    requires k < |FilterMap(RetryCopy, shards)|
    ensures exists j :: 0 <= j < |shards| && RetryCopy(shards[j]) == Some(FilterMap(RetryCopy, shards)[k])
  {
    if RetryCopy(shards[0]).Some? && k == 0 {
      assert RetryCopy(shards[0]) == Some(FilterMap(RetryCopy, shards)[k]);
    } else {
      var k' := if RetryCopy(shards[0]).Some? then k - 1 else k;
      RetryCopiesComeFrom(shards[1..], k');
      var j :| 0 <= j < |shards[1..]| && RetryCopy(shards[1..][j]) == Some(FilterMap(RetryCopy, shards[1..])[k']);
      assert RetryCopy(shards[j + 1]) == Some(FilterMap(RetryCopy, shards)[k]);
    }
  }

  // However the retries interleave: the compensation task concludes COMPLETED exactly when
  // TryCompensate reports no failed retry.
  lemma RetryUnderAnySchedule(env: Env, data: Table, coldDate: int, dir: string, failed: seq<Shard>, runs: Oracle,
                              outcomes: seq<Outcome>, moves: seq<Move>, end: Task)
    requires Schedules(env, runs) && OutcomesOf(env, data, coldDate, dir, FilterMap(RetryCopy, failed), runs, outcomes)
    requires PlayAll(Begin(FilterMap(RetryCopy, failed), outcomes), moves) == Some(end) && end.loop.Concluded?
    ensures end.loop.completed <==>
              forall j :: 0 <= j < |failed| && failed[j].CanRetry() ==>
                ShardOutcome(env, data, coldDate, dir, failed[j], runs).Success?
  {
    var copies := FilterMap(RetryCopy, failed);
    CompensationResult(copies, outcomes, moves, end);
    if end.loop.completed {
      forall j | 0 <= j < |failed| && failed[j].CanRetry()
        ensures ShardOutcome(env, data, coldDate, dir, failed[j], runs).Success?
      {
        FilterMapKeeps(RetryCopy, failed, j);
        var k :| 0 <= k < |copies| && copies[k] == RetryCopy(failed[j]).value;
        assert end.retries[k].shard.status.Completed?;
        assert outcomes[k] == ShardOutcome(env, data, coldDate, dir, copies[k], runs);
      }
    } else {
      var k :| 0 <= k < |copies| && !end.retries[k].shard.status.Completed?;
      RetryCopiesComeFrom(failed, k);
      var j :| 0 <= j < |failed| && RetryCopy(failed[j]) == Some(copies[k]);
      assert outcomes[k] == ShardOutcome(env, data, coldDate, dir, copies[k], runs);
      assert failed[j].CanRetry();
    }
  }
}
