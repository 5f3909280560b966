// The audit service: hashing and comparing one batch, and the job and batch records with
// the critical sections that update them.

module AuditJobs {
  import opened Sequences
  import opened Ordering
  import opened SourceRepo
  import opened Merkle
  import opened RecordEncoding
  import opened AuditBinding
  import opened AuditDispatch

  // ------------------------------------------------------------- hashing a batch

  // The rows of a table that a list of ids finds.
  function Side(table: Records, ids: seq<int>): Records {
    map id | id in table && id in ids :: table[id]
  }

  // The core fields of a target row; a column the row lacks is read as nil.
  function CoreFields(row: Fields): Fields {
    map k | k in CORE_FIELDS :: if k in row then row[k] else OtherV("<nil>")
  }

  // The columns by name; a missing one is hashed as the text that %v gives for nil.
  lemma CoreFieldsMean(row: Fields, k: string)
    ensures CoreFields(row).Keys == {"amount", "created_at", "updated_at", "order_id", "status"}
    ensures k in CoreFields(row) && k in row ==> CoreFields(row)[k] == row[k]
    ensures k in CoreFields(row) && k !in row ==> SerializeValue(CoreFields(row)[k]) == "<nil>"
  {
  }

  function CoreTable(table: Records): Records {
    map id | id in table :: CoreFields(table[id])
  }

  lemma CoreTableIsCore(table: Records)
    ensures CoreRecords(CoreTable(table))
  {
    forall id | id in table
      ensures CoreTable(table)[id].Keys == CORE_FIELDS
    {
    }
  }

  ghost predicate FieldOrders(orders: seq<seq<string>>, ids: seq<int>) {
    |orders| == |ids| && forall k :: 0 <= k < |ids| ==> Enumerates(orders[k], CORE_FIELDS)
  }

  lemma SideSnoc(h: HashFunc, table: Records, ids: seq<int>, id: int)
    ensures HashMap(h, Side(table, ids + [id]))
         == if id in table then HashMap(h, Side(table, ids))[id := RecordDigest(h, id, table[id])]
              else HashMap(h, Side(table, ids))
  {
    if id in table {
      assert Side(table, ids + [id]) == Side(table, ids)[id := table[id]];
    } else {
      assert Side(table, ids + [id]) == Side(table, ids);
    }
  }

  // The source as an audit reads it: the cold rows, in their five core fields.
  function ColdRecords(data: Table, coldDate: int, fieldsOf: DataRecord -> Fields): Records {
    map id | id in data && ColdAt(data, coldDate, id) :: fieldsOf(data[id])
  }

  // Source rows come as structs, so each has all five core fields.
  ghost predicate CoreReading(fieldsOf: DataRecord -> Fields) { forall r :: fieldsOf(r).Keys == CORE_FIELDS }

  lemma ColdRecordsAreCore(data: Table, coldDate: int, fieldsOf: DataRecord -> Fields)
    requires CoreReading(fieldsOf)
    ensures CoreRecords(ColdRecords(data, coldDate, fieldsOf))
  {
  }

  lemma OneRow(data: Table, coldDate: int, id: int)
    ensures Rows(data, coldDate, id, id) == if ColdAt(data, coldDate, id) then [data[id]] else []
  {
    assert Rows(data, coldDate, id + 1, id) == [];
  }

  // Each id is read as a shard of its own, so a row that is not cold is not found.
  method FetchRow(db: SourceDB, coldDate: int, id: int) returns (rec: Option<DataRecord>)
    ensures rec == if ColdAt(db.data, coldDate, id) then Some(db.data[id]) else None
  {
    OneRow(db.data, coldDate, id);
    var iter := new DataIterator(db, id, id, coldDate);
    var more := iter.HasNext();
    if more {
      rec := iter.Next();
    } else {
      rec := None;
    }
  }

  method ComputeSourceHashes(h: HashFunc, db: SourceDB, coldDate: int, fieldsOf: DataRecord -> Fields, ids: seq<int>,
                             orders: seq<seq<string>>)
    returns (hashMap: map<int, string>)
    requires Keyed(db.data) && CoreReading(fieldsOf) && FieldOrders(orders, ids)
    ensures hashMap == HashMap(h, Side(ColdRecords(db.data, coldDate, fieldsOf), ids))
    ensures forall id :: id in hashMap <==> id in ids && id in db.data && db.data[id].createdAt < coldDate
    ensures forall id :: id in hashMap ==> hashMap[id] == Hex(h(Encode(id, fieldsOf(db.data[id]))))
  {
    hashMap := map[];
    ghost var table := ColdRecords(db.data, coldDate, fieldsOf);
    for i := 0 to |ids|
      invariant hashMap == HashMap(h, Side(table, ids[..i]))
    {
      var id := ids[i];
      assert ids[..i + 1] == ids[..i] + [id];
      SideSnoc(h, table, ids[..i], id);
      var rec := FetchRow(db, coldDate, id);
      if rec.Some? {
        var d := RecordHash(h, rec.value.id, fieldsOf(rec.value), orders[i]);
        hashMap := hashMap[rec.value.id := d];
      }
    }
    assert ids[..|ids|] == ids;
  }

  method ComputeTargetHashes(h: HashFunc, table: Records, ids: seq<int>, orders: seq<seq<string>>)
    returns (hashMap: map<int, string>)
    requires FieldOrders(orders, ids)
    ensures hashMap == HashMap(h, Side(CoreTable(table), ids))
    ensures forall id :: id in hashMap <==> id in ids && id in table
    ensures forall id :: id in hashMap ==> hashMap[id] == Hex(h(Encode(id, CoreFields(table[id]))))
  {
    hashMap := map[];
    for i := 0 to |ids|
      invariant hashMap == HashMap(h, Side(CoreTable(table), ids[..i]))
    {
      var id := ids[i];
      assert ids[..i + 1] == ids[..i] + [id];
      SideSnoc(h, CoreTable(table), ids[..i], id);
      if id in table {
        var fields := CoreFields(table[id]);
        assert fields.Keys == CORE_FIELDS;
        var d := RecordHash(h, id, fields, orders[i]);
        hashMap := hashMap[id := d];
      }
    }
    assert ids[..|ids|] == ids;
  }

  // The orders in which the runtime happens to iterate the maps of one batch.
  datatype Orders = Orders(
    sourceFields: seq<seq<string>>, targetFields: seq<seq<string>>,
    comparing: seq<int>, collectingSource: seq<int>, collectingTarget: seq<int>)

  ghost predicate Possible(o: Orders, src: Records, tgt: Records, ids: seq<int>) {
    && FieldOrders(o.sourceFields, ids) && FieldOrders(o.targetFields, ids)
    && Enumerates(o.comparing, Side(src, ids).Keys) && Enumerates(o.collectingSource, Side(src, ids).Keys)
    && Enumerates(o.collectingTarget, Side(CoreTable(tgt), ids).Keys)
  }

  datatype BatchResult = BatchResult(sourceRoot: string, targetRoot: string, matched: nat, mismatched: nat,
                                     missing: nat)

  // What a batch over these rows comes to, free of any iteration order.
  ghost function ResultOf(h: HashFunc, s: Records, t: Records): BatchResult {
    var src, tgt := HashMap(h, s), HashMap(h, t);
    BatchResult(BatchRoot(h, s), BatchRoot(h, t), Tally(src, tgt, Match), Tally(src, tgt, Mismatch),
                Tally(src, tgt, Miss))
  }

  // Matched: equal on both sides.  Mismatched: on both, but different.  Missing: not in the
  // target.
  ghost predicate Counts(src: map<int, string>, tgt: map<int, string>, r: BatchResult) {
    && r.matched == |set id | id in src && id in tgt && src[id] == tgt[id]|
    && r.mismatched == |set id | id in src && id in tgt && src[id] != tgt[id]|
    && r.missing == |set id | id in src && id !in tgt|
  }

  method CompareAndHash(h: HashFunc, src: map<int, string>, tgt: map<int, string>, comparing: seq<int>,
                        left: seq<int>, right: seq<int>)
    returns (r: BatchResult)
    requires Enumerates(comparing, src.Keys) && Enumerates(left, src.Keys) && Enumerates(right, tgt.Keys)
    ensures r.sourceRoot == TreeRoot(h, SortedHashes(src)) && r.targetRoot == TreeRoot(h, SortedHashes(tgt))
    ensures r.matched == Tally(src, tgt, Match) && r.mismatched == Tally(src, tgt, Mismatch)
              && r.missing == Tally(src, tgt, Miss)
    ensures Counts(src, tgt, r)
    ensures r.mismatched == 0 && r.missing == 0 <==> Contained(src, tgt)
  {
    TallyMeans(src, tgt);
    TalliesAddUp(src, tgt);
    var matched, mismatched, missing := CompareHashMaps(src, tgt, comparing);
    var sourceRoot := ComputeBatchRoot(h, src, left);
    var targetRoot := ComputeBatchRoot(h, tgt, right);
    r := BatchResult(sourceRoot, targetRoot, |matched|, |mismatched|, |missing|);
  }

  // The counts between the hashes of two lists of rows; nothing is wrong exactly when the
  // source hashes are contained in the target hashes.
  ghost predicate CountsOf(h: HashFunc, src: Records, tgt: Records, r: BatchResult) {
    && Counts(HashMap(h, src), HashMap(h, tgt), r)
    && (r.mismatched == 0 && r.missing == 0 <==> Contained(HashMap(h, src), HashMap(h, tgt)))
  }

  method EvaluateAgainst(h: HashFunc, ghost src: Records, sourceHashMap: map<int, string>, tgt: Records, ids: seq<int>,
                         o: Orders)
    returns (r: BatchResult)
    requires sourceHashMap == HashMap(h, Side(src, ids)) && Possible(o, src, tgt, ids)
    ensures r == ResultOf(h, Side(src, ids), Side(CoreTable(tgt), ids))
    ensures CountsOf(h, Side(src, ids), Side(CoreTable(tgt), ids), r)
  {
    var targetHashMap := ComputeTargetHashes(h, tgt, ids, o.targetFields);
    assert sourceHashMap.Keys == Side(src, ids).Keys && targetHashMap.Keys == Side(CoreTable(tgt), ids).Keys;
    r := CompareAndHash(h, sourceHashMap, targetHashMap, o.comparing, o.collectingSource, o.collectingTarget);
  }

  // The source is the cold part of its table at the audit's own cold date.
  method EvaluateBatch(h: HashFunc, db: SourceDB, coldDate: int, fieldsOf: DataRecord -> Fields, tgt: Records,
                       ids: seq<int>, o: Orders)
    returns (r: BatchResult)
    requires Keyed(db.data) && CoreReading(fieldsOf)
    requires Possible(o, ColdRecords(db.data, coldDate, fieldsOf), tgt, ids)
    ensures r == ResultOf(h, Side(ColdRecords(db.data, coldDate, fieldsOf), ids), Side(CoreTable(tgt), ids))
    ensures CountsOf(h, Side(ColdRecords(db.data, coldDate, fieldsOf), ids), Side(CoreTable(tgt), ids), r)
  {
    var sourceHashMap := ComputeSourceHashes(h, db, coldDate, fieldsOf, ids, o.sourceFields);
    r := EvaluateAgainst(h, ColdRecords(db.data, coldDate, fieldsOf), sourceHashMap, tgt, ids, o);
  }

  // ------------------------------------------------------------ jobs and batches

  datatype AuditStatus = Pending | Running | Passed | Failed | Alert

  datatype AuditJob = AuditJob(
    status: AuditStatus, totalRecords: int, batchCount: int, sampledRecords: int,
    matchCount: int, mismatchCount: int, missingCount: int,
    sourceRootHash: string, targetRootHash: string, alertLevel: string, errorMessage: string)

  datatype BatchStatus = Waiting | Completed | Skipped

  datatype AuditBatch = AuditBatch(
    index: nat, startID: int, endID: int, recordCount: nat,
    sourceHash: string, targetHash: string, isMatched: bool, status: BatchStatus)

  // Alert thresholds on the mismatch rate and on the missing rate.
  datatype Limits = Limits(mismatch: real, miss: real)

  function NewJob(totalRecords: int): AuditJob {
    AuditJob(Pending, totalRecords, 0, 0, 0, 0, 0, "", "", "", "")
  }

  function NewBatch(t: Task): AuditBatch {
    AuditBatch(t.index, t.startID, t.endID, |t.ids|, "", "", false, Waiting)
  }

  // The same keys, and the same entries under all keys but k.
  ghost predicate SameBut<T>(before: map<string, T>, after: map<string, T>, k: string) {
    after.Keys == before.Keys && forall x :: x in before && x != k ==> after[x] == before[x]
  }

  // A batch as the dispatcher leaves it: of the task's range, empty, and skipped if the queue
  // had no room for it.
  predicate AppendedAs(b: AuditBatch, t: Task, accepted: bool) {
    && b.index == t.index && b.startID == t.startID && b.endID == t.endID && b.recordCount == |t.ids|
    && b.sourceHash == b.targetHash == "" && !b.isMatched
    && b.status == (if accepted then Waiting else Skipped)
  }

  function Fill(b: AuditBatch, r: BatchResult): AuditBatch {
    b.(sourceHash := r.sourceRoot, targetHash := r.targetRoot,
       isMatched := r.mismatched == 0 && r.missing == 0, status := Completed)
  }

  // The batch of the job at the index filled in, if there is one.
  function FillAt(batches: map<string, seq<AuditBatch>>, jobID: string, i: nat, r: BatchResult)
    : map<string, seq<AuditBatch>>
  {
    if jobID in batches && i < |batches[jobID]|
    then batches[jobID := batches[jobID][i := Fill(batches[jobID][i], r)]]
    else batches
  }

  function AddStats(j: AuditJob, r: BatchResult): AuditJob {
    j.(matchCount := j.matchCount + r.matched, mismatchCount := j.mismatchCount + r.mismatched,
       missingCount := j.missingCount + r.missing)
  }

  function SourceHashOf(b: AuditBatch): Option<string> { if b.sourceHash != "" then Some(b.sourceHash) else None }
  function TargetHashOf(b: AuditBatch): Option<string> { if b.targetHash != "" then Some(b.targetHash) else None }

  ghost function RootOver(h: HashFunc, hashes: seq<string>): string {
    if hashes == [] then "" else TreeRoot(h, hashes)
  }

  lemma {:induction false} NothingCollected(bs: seq<AuditBatch>)
    ensures (forall i :: 0 <= i < |bs| ==> bs[i].sourceHash == "") ==> FilterMap(SourceHashOf, bs) == []
    ensures (forall i :: 0 <= i < |bs| ==> bs[i].targetHash == "") ==> FilterMap(TargetHashOf, bs) == []
  {
    if bs != [] {
      NothingCollected(bs[1..]);
    }
  }

  function Rate(part: int, j: AuditJob): real {
    var checked := j.matchCount + j.mismatchCount + j.missingCount;
    if checked > 0 then part as real / checked as real else 0.0
  }

  function Judgement(j: AuditJob, l: Limits): AuditStatus {
    if j.mismatchCount == 0 && j.missingCount == 0 then Passed
    else if Rate(j.mismatchCount, j) >= l.mismatch || Rate(j.missingCount, j) >= l.miss then Alert
    else Failed
  }

  function LevelOf(s: AuditStatus): string {
    if s == Passed then "none" else if s == Alert then "critical" else "warning"
  }

  ghost function Settle(h: HashFunc, l: Limits, j: AuditJob, bs: seq<AuditBatch>): AuditJob {
    j.(sourceRootHash := RootOver(h, FilterMap(SourceHashOf, bs)),
       targetRootHash := RootOver(h, FilterMap(TargetHashOf, bs)),
       status := Judgement(j, l), alertLevel := LevelOf(Judgement(j, l)))
  }

  function Fail(j: AuditJob, msg: string): AuditJob { j.(status := Failed, errorMessage := msg) }

  predicate IsCompleted(b: AuditBatch) { b.status == Completed }
  predicate IsSkipped(b: AuditBatch) { b.status == Skipped }

  predicate AllDone(bs: seq<AuditBatch>) {
    Count(IsCompleted, bs) + Count(IsSkipped, bs) >= |bs| && |bs| > 0
  }

  predicate NotWaiting(b: AuditBatch) { !b.status.Waiting? }

  lemma {:induction false} DoneCount(bs: seq<AuditBatch>)
    ensures Count(IsCompleted, bs) + Count(IsSkipped, bs) == Count(NotWaiting, bs)
  {
    if bs != [] {
      DoneCount(bs[1..]);
    }
  }

  // The counting test of checkJobComplete: at least one batch, and none waiting.
  lemma AllDoneMeans(bs: seq<AuditBatch>)
    ensures AllDone(bs) <==> bs != [] && forall k :: 0 <= k < |bs| ==> !bs[k].status.Waiting?
  {
    DoneCount(bs);
    CountExtremes(NotWaiting, bs);
    assert forall k :: 0 <= k < |bs| ==> NotWaiting(bs[k]) == !bs[k].status.Waiting?;
  }

  // Something is wrong, and the different ids or the absent ones reach their share.
  predicate Alerting(l: Limits, different: int, absent: int, counted: int) {
    && different + absent > 0
    && (different as real >= l.mismatch * counted as real || absent as real >= l.miss * counted as real)
  }

  // With nonzero mismatches or misses, alert against failed in whole numbers of records.
  lemma JudgementMeans(j: AuditJob, l: Limits)
    requires j.matchCount >= 0 && j.mismatchCount >= 0 && j.missingCount >= 0
    ensures Judgement(j, l) == Passed <==> j.mismatchCount + j.missingCount == 0
    ensures Judgement(j, l) == Alert <==>
              Alerting(l, j.mismatchCount, j.missingCount, j.matchCount + j.mismatchCount + j.missingCount)
    ensures Judgement(j, l) == Failed || Judgement(j, l) == Passed || Judgement(j, l) == Alert
  {
    var checked := j.matchCount + j.mismatchCount + j.missingCount;
    if checked > 0 {
      RateAtLeast(j.mismatchCount as real, checked as real, l.mismatch);
      RateAtLeast(j.missingCount as real, checked as real, l.miss);
    }
  }

  lemma RateAtLeast(part: real, whole: real, limit: real)
    requires whole > 0.0
    ensures part / whole >= limit <==> part >= limit * whole
  {
    var r := part / whole;
    assert r * whole == part;
    if r >= limit {
      assert (r - limit) * whole >= 0.0;
    } else {
      assert (limit - r) * whole > 0.0;
    }
  }

  // ---------------------------------------------------------------- the service

  class AuditService {
    const hashFunc: HashFunc
    const limits: Limits
    var jobs: map<string, AuditJob>
    var batches: map<string, seq<AuditBatch>>
    var auditCount: int
    var alertCount: int
    var passCount: int
    var totalAudits: int
    var passedAudits: int
    var failedAudits: int
    var alertAudits: int
    var totalSampled: int
    var totalMismatches: int
    var totalMissings: int

    // Between critical sections: every finalized audit is counted once, under its status.
    ghost predicate Valid() reads this {
      && jobs.Keys == batches.Keys
      && totalAudits == passedAudits + failedAudits + alertAudits
      && auditCount == totalAudits && passCount == passedAudits && alertCount == alertAudits
    }

    constructor (h: HashFunc, l: Limits)
      ensures Valid() && jobs == map[] && batches == map[] && totalAudits == 0
      ensures hashFunc == h && limits == l
    {
      hashFunc, limits, jobs, batches := h, l, map[], map[];
      auditCount, alertCount, passCount := 0, 0, 0;
      totalAudits, passedAudits, failedAudits, alertAudits := 0, 0, 0, 0;
      totalSampled, totalMismatches, totalMissings := 0, 0, 0;
    }

    method SubmitAudit(jobID: string, totalRecords: int)
      requires Valid()
      modifies this`jobs, this`batches
      ensures Valid()
      ensures jobID in jobs && jobs == old(jobs)[jobID := jobs[jobID]] && batches == old(batches)[jobID := []]
      ensures var j := jobs[jobID];
              && j.status == Pending && j.totalRecords == totalRecords
              && j.matchCount == j.mismatchCount == j.missingCount == j.batchCount == j.sampledRecords == 0
              && j.sourceRootHash == j.targetRootHash == j.alertLevel == j.errorMessage == ""
    {
      jobs := jobs[jobID := NewJob(totalRecords)];
      batches := batches[jobID := []];
    }

    method AppendBatch(jobID: string, batch: AuditBatch)
      requires Valid() && jobID in jobs
      modifies this`batches
      ensures Valid()
      ensures batches == old(batches)[jobID := old(batches[jobID]) + [batch]]
    {
      batches := batches[jobID := batches[jobID] + [batch]];
    }

    method GetBatch(jobID: string, batchIndex: nat) returns (b: Option<AuditBatch>)
      ensures b.Some? <==> jobID in batches && batchIndex < |batches[jobID]|
      ensures b.Some? ==> b.value == batches[jobID][batchIndex]
    {
      if jobID !in batches || batchIndex >= |batches[jobID]| {
        return None;
      }
      return Some(batches[jobID][batchIndex]);
    }

    method UpdateJobStats(jobID: string, r: BatchResult)
      requires Valid()
      modifies this`jobs
      ensures Valid()
      ensures jobs == if jobID in old(jobs) then old(jobs)[jobID := AddStats(old(jobs[jobID]), r)] else old(jobs)
      ensures jobID in old(jobs) ==>
                var j := old(jobs[jobID]);
                jobs[jobID] == j.(matchCount := j.matchCount + r.matched,
                                  mismatchCount := j.mismatchCount + r.mismatched,
                                  missingCount := j.missingCount + r.missing)
    {
      if jobID !in jobs {
        return;
      }
      var job := jobs[jobID];
      job := job.(matchCount := job.matchCount + r.matched);
      job := job.(mismatchCount := job.mismatchCount + r.mismatched);
      job := job.(missingCount := job.missingCount + r.missing);
      jobs := jobs[jobID := job];
    }

    // The batch under the index, if there is one, gets the result field by field.
    method RecordResult(jobID: string, batchIndex: nat, r: BatchResult)
      requires Valid()
      modifies this`batches
      ensures Valid()
      ensures batches == FillAt(old(batches), jobID, batchIndex, r)
      ensures batches.Keys == old(batches).Keys
      ensures forall k, i :: k in batches && 0 <= i < |old(batches)[k]| && (k != jobID || i != batchIndex) ==>
                |batches[k]| == |old(batches)[k]| && batches[k][i] == old(batches)[k][i]
      ensures jobID in batches && batchIndex < |old(batches)[jobID]| ==>
                && batchIndex < |batches[jobID]|
                && batches[jobID][batchIndex] ==
                     old(batches)[jobID][batchIndex].(sourceHash := r.sourceRoot, targetHash := r.targetRoot,
                                                      isMatched := r.mismatched == 0 && r.missing == 0,
                                                      status := Completed)
    {
      var batch := GetBatch(jobID, batchIndex);
      if batch.Some? {
        var b := batch.value;
        b := b.(sourceHash := r.sourceRoot);
        b := b.(targetHash := r.targetRoot);
        b := b.(isMatched := r.mismatched == 0 && r.missing == 0);
        b := b.(status := Completed);
        batches := batches[jobID := batches[jobID][batchIndex := b]];
      }
    }

    method EvaluateTask(t: Task, db: SourceDB, coldDate: int, fieldsOf: DataRecord -> Fields, tgt: Records, o: Orders)
      returns (r: BatchResult)
      requires Keyed(db.data) && CoreReading(fieldsOf)
      requires Possible(o, ColdRecords(db.data, coldDate, fieldsOf), tgt, t.ids)
      ensures r == ResultOf(hashFunc, Side(ColdRecords(db.data, coldDate, fieldsOf), t.ids),
                            Side(CoreTable(tgt), t.ids))
    {
      r := EvaluateBatch(hashFunc, db, coldDate, fieldsOf, tgt, t.ids, o);
    }

    // One task from start to end with nobody in between: the batch under its index
    // is filled in, if it is there, and the job gets the counts either way.
    method ProcessAuditBatch(jobID: string, t: Task, db: SourceDB, coldDate: int, fieldsOf: DataRecord -> Fields,
                             tgt: Records, o: Orders)
      requires Valid() && Keyed(db.data) && CoreReading(fieldsOf)
      requires Possible(o, ColdRecords(db.data, coldDate, fieldsOf), tgt, t.ids)
      modifies this`jobs, this`batches
      ensures Valid()
      ensures var src := Side(ColdRecords(db.data, coldDate, fieldsOf), t.ids);
              Accounted(jobID, t, ResultOf(hashFunc, src, Side(CoreTable(tgt), t.ids)))
    {
      var r := EvaluateTask(t, db, coldDate, fieldsOf, tgt, o);
      Account(jobID, t, r);
    }

    // The writes of one task whose rows evaluate to r.
    twostate predicate Accounted(jobID: string, t: Task, r: BatchResult)
      reads this
    {
      && jobs == (if jobID in old(jobs) then old(jobs)[jobID := AddStats(old(jobs[jobID]), r)] else old(jobs))
      && batches == FillAt(old(batches), jobID, t.index, r)
    }

    method Account(jobID: string, t: Task, r: BatchResult)
      requires Valid()
      modifies this`jobs, this`batches
      ensures Valid() && Accounted(jobID, t, r)
    {
      RecordResult(jobID, t.index, r);
      UpdateJobStats(jobID, r);
    }

    // The dispatcher without interruption; accepted tells which offers the queue takes.
    method DispatchAuditBatches(jobID: string, db: SourceDB, coldDate: int, mapOrder: seq<int>, batchSize: nat,
                                rate: real, draws: seq<real>, accepted: nat -> bool)
      returns (outcome: Outcome, sampled: seq<int>, tasks: seq<Task>, ghost lo: int, ghost hi: int)
      requires Valid() && jobID in jobs && batches[jobID] == []
      requires Keyed(db.data) && Enumerates(mapOrder, db.data.Keys)
      requires batchSize > 0 && 0.0 < rate <= 1.0 && Draws(draws)
      requires forall lo, hi :: ColdAt(db.data, coldDate, lo) && ColdAt(db.data, coldDate, hi) && lo <= hi ==>
                 SampleCount(hi - lo + 1, rate, jobs[jobID].totalRecords) <= |draws|
      modifies this`jobs, this`batches
      ensures Valid() && SameBut(old(jobs), jobs, jobID) && SameBut(old(batches), batches, jobID)
      ensures outcome == NoRecords <==> forall id :: !ColdAt(db.data, coldDate, id)
      ensures outcome == NoRecords ==> batches[jobID] == []
      ensures outcome == NoRecords ==>
                jobs[jobID] == old(jobs[jobID]).(status := Failed,
                                                 errorMessage := "get min max id failed: no cold data found")
      ensures outcome != NoRecords ==> lo <= hi && ColdAt(db.data, coldDate, lo) && ColdAt(db.data, coldDate, hi)
      ensures outcome != NoRecords ==> forall id :: ColdAt(db.data, coldDate, id) ==> lo <= id <= hi
      ensures outcome != NoRecords ==>
                var n := SampleCount(hi - lo + 1, rate, old(jobs[jobID]).totalRecords);
                && jobs[jobID] == old(jobs[jobID]).(status := Running, batchCount := BatchCount(n, batchSize),
                                                    sampledRecords := n)
                && sampled == Sample(lo, hi - lo + 1, n, draws) && Planned(tasks, sampled, batchSize)
                && (outcome == Stopped <==> RunsPast(hi - lo + 1, n, batchSize))
      ensures outcome != NoRecords ==>
                |batches[jobID]| == |tasks|
                && forall i :: 0 <= i < |tasks| ==> AppendedAs(batches[jobID][i], tasks[i], accepted(i))
    {
      jobs := jobs[jobID := jobs[jobID].(status := Running)];
      var sampleCount;
      outcome, sampleCount, sampled, tasks, lo, hi :=
        DispatchBatches(db, coldDate, mapOrder, jobs[jobID].totalRecords, batchSize, rate, draws);
      if outcome == NoRecords {
        FailJob(jobID, "get min max id failed: no cold data found");
        return;
      }
      jobs := jobs[jobID := jobs[jobID].(batchCount := BatchCount(sampleCount, batchSize),
                                         sampledRecords := sampleCount)];
      OfferBatches(jobID, tasks, accepted);
    }

    // Every batch is appended, and marked when the queue has no room for its task.
    method OfferBatches(jobID: string, tasks: seq<Task>, accepted: nat -> bool)
      requires Valid() && jobID in jobs && batches[jobID] == []
      modifies this`batches
      ensures Valid() && SameBut(old(batches), batches, jobID) && |batches[jobID]| == |tasks|
      ensures forall i :: 0 <= i < |tasks| ==> AppendedAs(batches[jobID][i], tasks[i], accepted(i))
    {
      for k := 0 to |tasks|
        invariant Valid() && SameBut(old(batches), batches, jobID) && |batches[jobID]| == k
        invariant forall i :: 0 <= i < k ==> AppendedAs(batches[jobID][i], tasks[i], accepted(i))
      {
        AppendBatch(jobID, NewBatch(tasks[k]));
        if !accepted(k) {
          batches := batches[jobID := batches[jobID][k := batches[jobID][k].(status := Skipped)]];
        }
      }
    }

    method FailJob(jobID: string, msg: string)
      requires Valid()
      modifies this`jobs
      ensures Valid()
      ensures SameBut(old(jobs), jobs, jobID)
      ensures jobID in old(jobs) ==> jobs[jobID] == old(jobs[jobID]).(status := Failed, errorMessage := msg)
    {
      if jobID in jobs {
        jobs := jobs[jobID := jobs[jobID].(status := Failed, errorMessage := msg)];
      }
    }

    method CollectRoots(bs: seq<AuditBatch>) returns (sourceRoot: string, targetRoot: string)
      ensures sourceRoot == RootOver(hashFunc, FilterMap(SourceHashOf, bs))
      ensures targetRoot == RootOver(hashFunc, FilterMap(TargetHashOf, bs))
      ensures (forall i :: 0 <= i < |bs| ==> bs[i].sourceHash == "") ==> sourceRoot == ""
      ensures (forall i :: 0 <= i < |bs| ==> bs[i].targetHash == "") ==> targetRoot == ""
    {
      NothingCollected(bs);
      var sourceHashes, targetHashes: seq<string> := [], [];
      for i := 0 to |bs|
        invariant sourceHashes == FilterMap(SourceHashOf, bs[..i])
        invariant targetHashes == FilterMap(TargetHashOf, bs[..i])
      {
        var b := bs[i];
        assert bs[..i + 1] == bs[..i] + [b];
        FilterMapAppend(SourceHashOf, bs[..i], [b]);
        FilterMapAppend(TargetHashOf, bs[..i], [b]);
        if b.sourceHash != "" {
          sourceHashes := sourceHashes + [b.sourceHash];
        }
        if b.targetHash != "" {
          targetHashes := targetHashes + [b.targetHash];
        }
      }
      assert bs[..|bs|] == bs;
      sourceRoot, targetRoot := "", "";
      if |sourceHashes| > 0 {
        var t := NewMerkleTree(hashFunc, sourceHashes);
        sourceRoot := t.rootHash;
      }
      if |targetHashes| > 0 {
        var t := NewMerkleTree(hashFunc, targetHashes);
        targetRoot := t.rootHash;
      }
    }

    method Assess(job: AuditJob) returns (status: AuditStatus, level: string)
      ensures status == Judgement(job, limits) && level == LevelOf(status)
    {
      var totalChecked := job.matchCount + job.mismatchCount + job.missingCount;
      var mismatchRate, missingRate := 0.0, 0.0;
      if totalChecked > 0 {
        mismatchRate := job.mismatchCount as real / totalChecked as real;
        missingRate := job.missingCount as real / totalChecked as real;
      }
      if job.mismatchCount == 0 && job.missingCount == 0 {
        status, level := Passed, "none";
      } else if mismatchRate >= limits.mismatch || missingRate >= limits.miss {
        status, level := Alert, "critical";
      } else {
        status, level := Failed, "warning";
      }
    }

    // The service-wide counters, under the same lock as the job.
    method CountAudit(job: AuditJob)
      requires Valid() && (job.status == Passed || job.status == Failed || job.status == Alert)
      modifies this`auditCount, this`alertCount, this`passCount, this`totalAudits, this`passedAudits,
               this`failedAudits, this`alertAudits, this`totalSampled, this`totalMismatches, this`totalMissings
      ensures Valid()
      ensures totalAudits == old(totalAudits) + 1
      ensures passedAudits == old(passedAudits) + Bit(job.status == Passed)
      ensures failedAudits == old(failedAudits) + Bit(job.status == Failed)
      ensures alertAudits == old(alertAudits) + Bit(job.status == Alert)
      ensures totalSampled == old(totalSampled) + job.sampledRecords
      ensures totalMismatches == old(totalMismatches) + job.mismatchCount
      ensures totalMissings == old(totalMissings) + job.missingCount
    {
      if job.status == Passed {
        passCount := passCount + 1;
      } else if job.status == Alert {
        alertCount := alertCount + 1;
      }
      auditCount := auditCount + 1;
      totalAudits := totalAudits + 1;
      if job.status == Passed {
        passedAudits := passedAudits + 1;
      } else if job.status == Failed {
        failedAudits := failedAudits + 1;
      } else if job.status == Alert {
        alertAudits := alertAudits + 1;
      }
      totalSampled := totalSampled + job.sampledRecords;
      totalMismatches := totalMismatches + job.mismatchCount;
      totalMissings := totalMissings + job.missingCount;
    }

    method FinalizeJob(jobID: string)
      requires Valid()
      modifies this`jobs, this`auditCount, this`alertCount, this`passCount, this`totalAudits, this`passedAudits,
               this`failedAudits, this`alertAudits, this`totalSampled, this`totalMismatches, this`totalMissings
      ensures Valid()
      ensures jobID !in old(jobs) ==> jobs == old(jobs) && totalAudits == old(totalAudits)
      ensures jobID in old(jobs) ==>
                var j := old(jobs[jobID]);
                && jobs == old(jobs)[jobID := Settle(hashFunc, limits, j, batches[jobID])]
                && totalAudits == old(totalAudits) + 1
                && passedAudits == old(passedAudits) + Bit(Judgement(j, limits) == Passed)
                && failedAudits == old(failedAudits) + Bit(Judgement(j, limits) == Failed)
                && alertAudits == old(alertAudits) + Bit(Judgement(j, limits) == Alert)
                && totalSampled == old(totalSampled) + j.sampledRecords
                && totalMismatches == old(totalMismatches) + j.mismatchCount
                && totalMissings == old(totalMissings) + j.missingCount
      ensures jobID in old(jobs) ==>
                var j, k := old(jobs[jobID]), jobs[jobID];
                && (k.status == Passed <==> j.mismatchCount == 0 && j.missingCount == 0)
                && (k.status == Passed || k.status == Alert || k.status == Failed)
                && (k.status == Passed ==> k.alertLevel == "none") && (k.status == Alert ==> k.alertLevel == "critical")
                && (k.status == Failed ==> k.alertLevel == "warning")
                && k.matchCount == j.matchCount && k.mismatchCount == j.mismatchCount
                && k.missingCount == j.missingCount && k.errorMessage == j.errorMessage
    {
      if jobID !in jobs {
        return;
      }
      var job := jobs[jobID];
      var sourceRoot, targetRoot := CollectRoots(batches[jobID]);
      job := job.(sourceRootHash := sourceRoot, targetRootHash := targetRoot);

      var status, level := Assess(job);
      job := job.(status := status, alertLevel := level);
      jobs := jobs[jobID := job];
      CountAudit(job);
    }

    method NoneWaiting(bs: seq<AuditBatch>) returns (done: bool)
      ensures done <==> bs != [] && forall k :: 0 <= k < |bs| ==> !bs[k].status.Waiting?
    {
      var completedCount, skippedCount := 0, 0;
      for i := 0 to |bs|
        invariant completedCount == Count(IsCompleted, bs[..i])
        invariant skippedCount == Count(IsSkipped, bs[..i])
      {
        CountSnoc(IsCompleted, bs, i);
        CountSnoc(IsSkipped, bs, i);
        if bs[i].status == Completed {
          completedCount := completedCount + 1;
        }
        if bs[i].status == Skipped {
          skippedCount := skippedCount + 1;
        }
      }
      assert bs[..|bs|] == bs;
      AllDoneMeans(bs);
      done := completedCount + skippedCount >= |bs| && |bs| > 0;
    }

    // True when there is nothing left to watch: an unknown job, or one just finalized
    // because every batch is completed or skipped.
    method CheckJobComplete(jobID: string) returns (done: bool)
      requires Valid()
      modifies this`jobs, this`auditCount, this`alertCount, this`passCount, this`totalAudits, this`passedAudits,
               this`failedAudits, this`alertAudits, this`totalSampled, this`totalMismatches, this`totalMissings
      ensures Valid()
      ensures done <==>
              jobID !in old(jobs)
                || (batches[jobID] != [] && forall k :: 0 <= k < |batches[jobID]| ==>
                       !batches[jobID][k].status.Waiting?)
      ensures jobs == if done && jobID in old(jobs)
                      then old(jobs)[jobID := Settle(hashFunc, limits, old(jobs[jobID]), batches[jobID])]
                      else old(jobs)
      ensures totalAudits == old(totalAudits) + Bit(done && jobID in old(jobs))
    {
      if jobID !in jobs {
        return true;
      }
      done := NoneWaiting(batches[jobID]);
      if done {
        FinalizeJob(jobID);
      }
    }
  }
}
