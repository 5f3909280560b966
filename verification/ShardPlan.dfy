// Splitting the id range of the cold rows into shards.

module ShardPlan {
  import opened Sequences
  import opened SourceRepo

  datatype Status = Pending | Running | Completed | Failed

  datatype Shard = Shard(index: nat, startID: int, endID: int, status: Status, recordCount: nat, ossPath: string,
                         retryCount: nat, maxRetryCount: int)
  {
    function Start(): Shard { this.(status := Running) }
    function Complete(n: nat, path: string): Shard { this.(status := Completed, recordCount := n, ossPath := path) }
    function Fail(): Shard { this.(status := Failed, retryCount := retryCount + 1) }
    predicate CanRetry() { retryCount < maxRetryCount }
    predicate Covers(id: int) { startID <= id <= endID }
  }

  function ShardSize(minID: int, maxID: int, n: int): (size: int)
    requires minID <= maxID && n >= 1
    ensures size >= 1
  {
    var size := (maxID - minID + 1) / n;
    if size == 0 then 1 else size
  }

  function StartOf(minID: int, maxID: int, n: int, i: nat): int
    requires minID <= maxID && n >= 1
  {
    minID + i * ShardSize(minID, maxID, n)
  }

  function EndOf(minID: int, maxID: int, n: int, i: nat): int
    requires minID <= maxID && n >= 1
  {
    if i == n - 1 then maxID else StartOf(minID, maxID, n, i + 1) - 1
  }

  // The plan that the loop of prepareShards lays out.
  ghost predicate Planned(shards: seq<Shard>, minID: int, maxID: int, n: int)
    requires minID <= maxID && n >= 1
  {
    |shards| == n
    && forall i :: 0 <= i < n ==>
         shards[i].index == i && shards[i].startID == StartOf(minID, maxID, n, i)
           && shards[i].endID == EndOf(minID, maxID, n, i)
  }

  lemma NextStart(minID: int, maxID: int, n: int, i: nat)
    requires minID <= maxID && n >= 1
    ensures StartOf(minID, maxID, n, i + 1) == StartOf(minID, maxID, n, i) + ShardSize(minID, maxID, n)
  {
    var size := ShardSize(minID, maxID, n);
    assert (i + 1) * size == i * size + size;
  }

  method PrepareShards(minID: int, maxID: int, shardCount: int, maxRetryCount: int) returns (shards: seq<Shard>)
    requires minID <= maxID && shardCount >= 1
    ensures Planned(shards, minID, maxID, shardCount)
    ensures forall i :: 0 <= i < |shards| ==>
              && shards[i].status == Pending && shards[i].retryCount == 0 && shards[i].maxRetryCount == maxRetryCount
              && shards[i].recordCount == 0 && shards[i].ossPath == ""
  {
    var totalRange := maxID - minID + 1;
    var shardSize := totalRange / shardCount;
    if shardSize == 0 {
      shardSize := 1;
    }
    shards := [];
    var currentStart := minID;
    for i := 0 to shardCount
      invariant |shards| == i
      invariant i < shardCount ==> currentStart == StartOf(minID, maxID, shardCount, i)
      invariant forall k :: 0 <= k < i ==>
                  shards[k]
                    == Shard(k, StartOf(minID, maxID, shardCount, k), EndOf(minID, maxID, shardCount, k), Pending, 0,
                             "", 0, maxRetryCount)
    {
      NextStart(minID, maxID, shardCount, i);
      var endID := currentStart + shardSize - 1;
      if i == shardCount - 1 {
        endID := maxID;
      }
      shards := shards + [Shard(i, currentStart, endID, Pending, 0, "", 0, maxRetryCount)];
      currentStart := endID + 1;
    }
  }

  lemma {:induction false} StartsAscend(minID: int, maxID: int, n: int, i: nat, j: nat)
    requires minID <= maxID && n >= 1 && i <= j
    ensures StartOf(minID, maxID, n, i) + (j - i) <= StartOf(minID, maxID, n, j)
    decreases j - i
  {
    if i < j {
      NextStart(minID, maxID, n, i);
      StartsAscend(minID, maxID, n, i + 1, j);
    }
  }

  // Later shards start after earlier ones end.
  lemma ShardsDisjoint(shards: seq<Shard>, minID: int, maxID: int, n: int, i: nat, j: nat)
    requires minID <= maxID && n >= 1 && Planned(shards, minID, maxID, n) && i < j < n
    ensures shards[i].endID < shards[j].startID
  {
    StartsAscend(minID, maxID, n, i + 1, j);
  }

  // The shard that an id of the range falls into.
  function ShardFor(minID: int, maxID: int, n: int, id: int): (i: nat)
    requires minID <= id <= maxID && n >= 1
    ensures i < n
  {
    var k := (id - minID) / ShardSize(minID, maxID, n);
    if k < n - 1 then k else n - 1
  }

  lemma DivBounds(a: int, b: int)
    requires a >= 0 && b >= 1
    ensures a / b * b <= a < (a / b + 1) * b
  {
    assert a == a / b * b + a % b;
    assert (a / b + 1) * b == a / b * b + b;
  }

  // Every id of the range lies in exactly one shard, however many shards there are.
  lemma ShardsCover(shards: seq<Shard>, minID: int, maxID: int, n: int, id: int)
    requires minID <= id <= maxID && n >= 1 && Planned(shards, minID, maxID, n)
    ensures forall i :: 0 <= i < n ==> (shards[i].Covers(id) <==> i == ShardFor(minID, maxID, n, id))
  {
    var size := ShardSize(minID, maxID, n);
    var k := (id - minID) / size;
    var i := ShardFor(minID, maxID, n, id);
    DivBounds(id - minID, size);
    assert StartOf(minID, maxID, n, k) <= id < StartOf(minID, maxID, n, k + 1);
    StartsAscend(minID, maxID, n, i, k);
    assert shards[i].Covers(id);
    forall j | 0 <= j < n && j != i
      ensures !shards[j].Covers(id)
    {
      if j < i {
        ShardsDisjoint(shards, minID, maxID, n, j, i);
      } else {
        ShardsDisjoint(shards, minID, maxID, n, i, j);
      }
    }
  }

  // With no more shards than ids the shards tile the range: only the last one has another
  // size, and it is larger by the remainder.
  lemma ShardsTile(shards: seq<Shard>, minID: int, maxID: int, n: int)
    requires minID <= maxID && 1 <= n <= maxID - minID + 1 && Planned(shards, minID, maxID, n)
    ensures shards[0].startID == minID && shards[n - 1].endID == maxID
    ensures forall i :: 0 <= i < n - 1 ==> shards[i + 1].startID == shards[i].endID + 1
    ensures forall i :: 0 <= i < n - 1 ==> shards[i].endID - shards[i].startID + 1 == (maxID - minID + 1) / n
    ensures shards[n - 1].endID - shards[n - 1].startID + 1 == (maxID - minID + 1) / n + (maxID - minID + 1) % n
  {
    var range := maxID - minID + 1;
    var size := range / n;
    DivBounds(range, n);
    assert ShardSize(minID, maxID, n) == size;
    assert range == size * n + range % n;
    assert (n - 1) * size == size * n - size;
    forall i | 0 <= i < n - 1
      ensures shards[i].endID - shards[i].startID + 1 == size
    {
      NextStart(minID, maxID, n, i);
    }
  }

  // With more shards than ids every shard but the last is one id wide, one after the other,
  // also past maxID; the last one is empty.
  lemma ThinShards(shards: seq<Shard>, minID: int, maxID: int, n: int)
    requires minID <= maxID && n > maxID - minID + 1 && Planned(shards, minID, maxID, n)
    ensures forall i :: 0 <= i < n - 1 ==> shards[i].startID == shards[i].endID == minID + i
    ensures shards[n - 1].startID == minID + n - 1 && shards[n - 1].endID == maxID < shards[n - 1].startID
  {
    assert (maxID - minID + 1) / n == 0;
    assert ShardSize(minID, maxID, n) == 1;
  }

  // --------------------------------------------------------- the shards' row streams

  // What the iterator of a shard returns.
  function StreamOf(data: Table, coldDate: int, sh: Shard): seq<DataRecord> {
    Rows(data, coldDate, sh.startID, sh.endID)
  }

  function Streams(data: Table, coldDate: int, shards: seq<Shard>): (r: seq<seq<DataRecord>>)
    ensures |r| == |shards|
    ensures forall i :: 0 <= i < |r| ==> r[i] == StreamOf(data, coldDate, shards[i])
  {
    Map((sh: Shard) => StreamOf(data, coldDate, sh), shards)
  }

  ghost predicate ColdWithin(data: Table, coldDate: int, lo: int, hi: int) {
    forall id :: ColdAt(data, coldDate, id) ==> lo <= id <= hi
  }

  lemma StreamsSnoc(data: Table, coldDate: int, shards: seq<Shard>, k: nat)
    requires k < |shards|
    ensures Flatten(Streams(data, coldDate, shards[..k + 1]))
         == Flatten(Streams(data, coldDate, shards[..k])) + StreamOf(data, coldDate, shards[k])
  {
    assert shards[..k + 1] == shards[..k] + [shards[k]];
    assert Streams(data, coldDate, shards[..k + 1]) == Streams(data, coldDate, shards[..k]) +
             [StreamOf(data, coldDate, shards[k])];
    FlattenSnoc(Streams(data, coldDate, shards[..k]), StreamOf(data, coldDate, shards[k]));
  }

  // One more shard extends the rows up to its end.
  lemma AppendStream(data: Table, coldDate: int, shards: seq<Shard>, k: nat, minID: int)
    requires k < |shards| && minID <= shards[k].startID <= shards[k].endID + 1
    requires Flatten(Streams(data, coldDate, shards[..k])) == Rows(data, coldDate, minID, shards[k].startID - 1)
    ensures Flatten(Streams(data, coldDate, shards[..k + 1])) == Rows(data, coldDate, minID, shards[k].endID)
  {
    StreamsSnoc(data, coldDate, shards, k);
    RowsSplit(data, coldDate, minID, shards[k].startID - 1, shards[k].endID);
  }

  // Neighbouring shards meet, and no shard starts before minID.
  lemma Adjacent(shards: seq<Shard>, minID: int, maxID: int, n: int, k: nat)
    requires minID <= maxID && n >= 1 && Planned(shards, minID, maxID, n) && k + 1 < n
    ensures minID <= shards[k].startID <= shards[k].endID + 1 == shards[k + 1].startID
  {
    FirstStart(minID, maxID, n);
    StartsAscend(minID, maxID, n, 0, k);
    StartsAscend(minID, maxID, n, k, k + 1);
    NextStart(minID, maxID, n, k);
  }

  lemma {:induction false} StreamsPrefix(data: Table, coldDate: int, shards: seq<Shard>, minID: int, maxID: int,
          n: int, k: nat)
    requires minID <= maxID && n >= 1 && Planned(shards, minID, maxID, n) && k < n
    ensures Flatten(Streams(data, coldDate, shards[..k])) == Rows(data, coldDate, minID, shards[k].startID - 1)
  {
    if k == 0 {
      FirstStart(minID, maxID, n);
    } else {
      StreamsPrefix(data, coldDate, shards, minID, maxID, n, k - 1);
      Adjacent(shards, minID, maxID, n, k - 1);
      AppendStream(data, coldDate, shards, k - 1, minID);
    }
  }

  lemma FirstStart(minID: int, maxID: int, n: int)
    requires minID <= maxID && n >= 1
    ensures StartOf(minID, maxID, n, 0) == minID
  {
    assert 0 * ShardSize(minID, maxID, n) == 0;
  }

  // The last shard ends at maxID, wherever it starts.
  lemma LastStream(data: Table, coldDate: int, minID: int, maxID: int, start: int)
    requires minID <= start && minID <= maxID && ColdWithin(data, coldDate, minID, maxID)
    ensures Rows(data, coldDate, minID, start - 1) +
              Rows(data, coldDate, start, maxID) == Rows(data, coldDate, minID, maxID)
  {
    if start - 1 <= maxID {
      RowsSplit(data, coldDate, minID, start - 1, maxID);
    } else {
      RowsSplit(data, coldDate, minID, maxID, start - 1);
      NoRows(data, coldDate, maxID + 1, start - 1);
    }
  }

  lemma RowsAreColdIds(data: Table, coldDate: int, minID: int, maxID: int)
    requires ColdWithin(data, coldDate, minID, maxID)
    ensures |Rows(data, coldDate, minID, maxID)| == |ColdIds(data, coldDate)|
  {
    RowsCount(data, coldDate, minID, maxID);
    assert (set id | id in data && minID <= id <= maxID && ColdAt(data, coldDate, id)) == ColdIds(data, coldDate);
  }

  lemma LastShard(shards: seq<Shard>, minID: int, maxID: int, n: int)
    requires minID <= maxID && n >= 1 && Planned(shards, minID, maxID, n)
    ensures minID <= shards[n - 1].startID && shards[n - 1].endID == maxID
  {
    FirstStart(minID, maxID, n);
    StartsAscend(minID, maxID, n, 0, n - 1);
  }

  lemma JoinLast(data: Table, coldDate: int, shards: seq<Shard>, k: nat, minID: int, maxID: int)
    requires |shards| == k + 1 && minID <= maxID && ColdWithin(data, coldDate, minID, maxID)
    requires minID <= shards[k].startID && shards[k].endID == maxID
    requires Flatten(Streams(data, coldDate, shards[..k])) == Rows(data, coldDate, minID, shards[k].startID - 1)
    ensures Flatten(Streams(data, coldDate, shards)) == Rows(data, coldDate, minID, maxID)
  {
    StreamsSnoc(data, coldDate, shards, k);
    assert shards[..k + 1] == shards;
    LastStream(data, coldDate, minID, maxID, shards[k].startID);
  }

  lemma StreamsAreRows(data: Table, coldDate: int, shards: seq<Shard>, minID: int, maxID: int, n: int)
    requires minID <= maxID && n >= 1 && Planned(shards, minID, maxID, n) && ColdWithin(data, coldDate, minID, maxID)
    ensures Flatten(Streams(data, coldDate, shards)) == Rows(data, coldDate, minID, maxID)
  {
    StreamsPrefix(data, coldDate, shards, minID, maxID, n, n - 1);
    LastShard(shards, minID, maxID, n);
    JoinLast(data, coldDate, shards, n - 1, minID, maxID);
  }

  lemma RowsExact(data: Table, coldDate: int, minID: int, maxID: int)
    requires Keyed(data) && ColdWithin(data, coldDate, minID, maxID)
    ensures forall r :: r in Rows(data, coldDate, minID, maxID) <==> ColdAt(data, coldDate, r.id) && data[r.id] == r
  {
    RowsSound(data, coldDate, minID, maxID);
    forall r: DataRecord | ColdAt(data, coldDate, r.id) && data[r.id] == r
      ensures r in Rows(data, coldDate, minID, maxID)
    {
      RowsMember(data, coldDate, minID, maxID, r.id);
    }
  }

  // The shards' streams one after the other are the cold rows of the table, each once, in
  // ascending id order; there are as many of them as CountColdData says.
  lemma StreamsComplete(data: Table, coldDate: int, shards: seq<Shard>, minID: int, maxID: int, n: int)
    requires minID <= maxID && n >= 1 && Planned(shards, minID, maxID, n)
    requires Keyed(data) && ColdWithin(data, coldDate, minID, maxID)
    ensures Flatten(Streams(data, coldDate, shards)) == Rows(data, coldDate, minID, maxID)
    ensures Ascending(Flatten(Streams(data, coldDate, shards)))
    ensures forall r :: r in Flatten(Streams(data, coldDate, shards)) <==>
              ColdAt(data, coldDate, r.id) && data[r.id] == r
    ensures |Flatten(Streams(data, coldDate, shards))| == |ColdIds(data, coldDate)|
  {
    StreamsAreRows(data, coldDate, shards, minID, maxID, n);
    RowsAreColdIds(data, coldDate, minID, maxID);
    RowsAscend(data, coldDate, minID, maxID);
    RowsExact(data, coldDate, minID, maxID);
  }
}
