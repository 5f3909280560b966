// The source table: counting, scanning, reading and deleting rows by id range.

module SourceRepo {
  import opened Sequences
  import opened Ordering

  // body stands for the business fields, which only cleaning and masking look at.
  datatype DataRecord = DataRecord(id: int, createdAt: int, body: string)

  type Table = map<int, DataRecord>

  ghost predicate Keyed(data: Table) { forall id :: id in data ==> data[id].id == id }

  predicate Cold(rec: DataRecord, coldDate: int) { rec.createdAt < coldDate }

  predicate ColdAt(data: Table, coldDate: int, id: int) { id in data && Cold(data[id], coldDate) }

  function ColdIds(data: Table, coldDate: int): set<int> {
    set id | id in data && ColdAt(data, coldDate, id)
  }

  // The cold rows with ids lo..hi in ascending order.
  function Rows(data: Table, coldDate: int, lo: int, hi: int): seq<DataRecord>
    decreases hi - lo
  {
    if lo > hi then []
    else (if ColdAt(data, coldDate, lo) then [data[lo]] else []) + Rows(data, coldDate, lo + 1, hi)
  }

  lemma {:induction false} RowsSplit(data: Table, coldDate: int, lo: int, mid: int, hi: int)
    requires lo - 1 <= mid <= hi
    ensures Rows(data, coldDate, lo, hi) == Rows(data, coldDate, lo, mid) + Rows(data, coldDate, mid + 1, hi)
    decreases hi - lo
  {
    if lo <= mid {
      RowsSplit(data, coldDate, lo + 1, mid, hi);
    }
  }

  lemma {:induction false} NoRows(data: Table, coldDate: int, lo: int, hi: int)
    requires forall id :: lo <= id <= hi ==> !ColdAt(data, coldDate, id)
    ensures Rows(data, coldDate, lo, hi) == []
    decreases hi - lo
  {
    if lo <= hi {
      NoRows(data, coldDate, lo + 1, hi);
    }
  }

  lemma {:induction false} RowsMember(data: Table, coldDate: int, lo: int, hi: int, id: int)
    requires Keyed(data)
    ensures lo <= id <= hi && ColdAt(data, coldDate, id) ==> data[id] in Rows(data, coldDate, lo, hi)
    decreases hi - lo
  {
    if lo <= hi && lo != id {
      RowsMember(data, coldDate, lo + 1, hi, id);
    }
  }

  // Every listed row is a cold row of the range.
  lemma {:induction false} RowsSound(data: Table, coldDate: int, lo: int, hi: int)
    requires Keyed(data)
    ensures forall r :: r in Rows(data, coldDate, lo, hi) ==>
              lo <= r.id <= hi && ColdAt(data, coldDate, r.id) && data[r.id] == r
    decreases hi - lo
  {
    if lo <= hi {
      RowsSound(data, coldDate, lo + 1, hi);
    }
  }

  ghost predicate Ascending(s: seq<DataRecord>) { forall i, j :: 0 <= i < j < |s| ==> s[i].id < s[j].id }

  lemma AscendingCons(x: DataRecord, s: seq<DataRecord>)
    requires Ascending(s) && forall r :: r in s ==> x.id < r.id
    ensures Ascending([x] + s)
  {
  }

  lemma {:induction false} RowsAscend(data: Table, coldDate: int, lo: int, hi: int)
    requires Keyed(data)
    ensures Ascending(Rows(data, coldDate, lo, hi))
    decreases hi - lo
  {
    if lo <= hi {
      RowsAscend(data, coldDate, lo + 1, hi);
      RowsSound(data, coldDate, lo + 1, hi);
      if ColdAt(data, coldDate, lo) {
        AscendingCons(data[lo], Rows(data, coldDate, lo + 1, hi));
      }
    }
  }

  lemma {:induction false} RowsCount(data: Table, coldDate: int, lo: int, hi: int)
    ensures |Rows(data, coldDate, lo, hi)| == |set id | id in data && lo <= id <= hi && ColdAt(data, coldDate, id)|
    decreases hi - lo
  {
    var ids := set id | id in data && lo <= id <= hi && ColdAt(data, coldDate, id);
    if lo > hi {
      assert ids == {};
    } else {
      var rest := set id | id in data && lo + 1 <= id <= hi && ColdAt(data, coldDate, id);
      RowsCount(data, coldDate, lo + 1, hi);
      assert ids == (if ColdAt(data, coldDate, lo) then {lo} else {}) + rest;
      assert lo !in rest;
    }
  }

  function Remove(data: Table, lo: int, hi: int): Table {
    map id | id in data && !(lo <= id <= hi) :: data[id]
  }

  lemma RemoveNothing(data: Table, lo: int, hi: int)
    requires lo > hi
    ensures Remove(data, lo, hi) == data
  {
  }

  lemma SeenOneMore(cold: set<int>, seen: set<int>, id: int)
    requires id !in seen
    ensures |cold * (seen + {id})| == |cold * seen| + Bit(id in cold)
  {
    if id in cold {
      assert cold * (seen + {id}) == cold * seen + {id};
    } else {
      assert cold * (seen + {id}) == cold * seen;
    }
  }

  class SourceDB {
    var data: Table

    constructor (rows: Table)
      ensures data == rows
    {
      data := rows;
    }

    // mapOrder: the order in which the runtime iterates the table.
    method CountColdData(coldDate: int, mapOrder: seq<int>) returns (count: nat)
      requires Enumerates(mapOrder, data.Keys)
      ensures count == |ColdIds(data, coldDate)|
      ensures count == |set id | id in data && data[id].createdAt < coldDate|
    {
      count := 0;
      ghost var seen: set<int> := {};
      EnumerationDistinct(mapOrder, data.Keys);
      for i := 0 to |mapOrder|
        invariant forall id :: id in seen <==> id in mapOrder[..i]
        invariant count == |ColdIds(data, coldDate) * seen|
      {
        var id := mapOrder[i];
        EnumerationMember(mapOrder, data.Keys, id);
        assert id !in seen;
        SeenOneMore(ColdIds(data, coldDate), seen, id);
        if Cold(data[id], coldDate) {
          count := count + 1;
        }
        assert mapOrder[..i + 1] == mapOrder[..i] + [id];
        seen := seen + {id};
      }
      forall id | id in ColdIds(data, coldDate)
        ensures id in seen
      {
        EnumerationMember(mapOrder, data.Keys, id);
        assert mapOrder[..|mapOrder|] == mapOrder;
      }
      assert ColdIds(data, coldDate) * seen == ColdIds(data, coldDate);
      assert ColdIds(data, coldDate) == set id | id in data && data[id].createdAt < coldDate;
    }

    // Least and greatest id of a cold row, None when there is no cold row.
    method GetMinMaxID(coldDate: int, mapOrder: seq<int>) returns (r: Option<(int, int)>)
      requires Keyed(data) && Enumerates(mapOrder, data.Keys)
      ensures r.None? <==> forall id :: !ColdAt(data, coldDate, id)
      ensures r.Some? ==> ColdAt(data, coldDate, r.value.0) && ColdAt(data, coldDate, r.value.1)
      ensures r.Some? ==> forall id :: ColdAt(data, coldDate, id) ==> r.value.0 <= id <= r.value.1
    {
      var minID, maxID, first := 0, 0, true;
      for i := 0 to |mapOrder|
        invariant first ==> forall k :: 0 <= k < i ==> !ColdAt(data, coldDate, mapOrder[k])
        invariant !first ==> ColdAt(data, coldDate, minID) && ColdAt(data, coldDate, maxID)
        invariant !first ==> forall k :: 0 <= k < i && ColdAt(data, coldDate, mapOrder[k]) ==>
                    minID <= mapOrder[k] <= maxID
      {
        EnumerationMember(mapOrder, data.Keys, mapOrder[i]);
        var rec := data[mapOrder[i]];
        if Cold(rec, coldDate) {
          if first {
            minID, maxID, first := rec.id, rec.id, false;
          }
          if rec.id < minID { minID := rec.id; }
          if rec.id > maxID { maxID := rec.id; }
        }
      }
      forall id | ColdAt(data, coldDate, id)
        ensures !first && minID <= id <= maxID
      {
        EnumerationMember(mapOrder, data.Keys, id);
        var k :| 0 <= k < |mapOrder| && mapOrder[k] == id;
      }
      r := if first then None else Some((minID, maxID));
    }

    // Removes every row of the range, cold or not.
    method DeleteShard(startID: int, endID: int)
      modifies this
      ensures data == Remove(old(data), startID, endID)
      ensures forall id :: id in data <==> id in old(data) && !(startID <= id <= endID)
      ensures forall id :: id in data ==> data[id] == old(data)[id]
    {
      var id := startID;
      while id <= endID
        invariant startID <= id && (startID <= endID ==> id <= endID + 1) && (startID > endID ==> id == startID)
        invariant data == Remove(old(data), startID, id - 1)
      {
        if id in data {
          data := data - {id};
        }
        id := id + 1;
      }
      if startID > endID {
        RemoveNothing(old(data), startID, endID);
        RemoveNothing(old(data), startID, startID - 1);
      }
    }
  }

  class DataIterator {
    const repo: SourceDB
    const endID: int
    const coldDate: int
    var current: int

    // The rows that the iterator has not returned yet.
    ghost function Remaining(): seq<DataRecord> reads this, repo {
      Rows(repo.data, coldDate, current + 1, endID)
    }

    constructor (repo: SourceDB, startID: int, endID: int, coldDate: int)
      ensures this.repo == repo && Remaining() == Rows(repo.data, coldDate, startID, endID)
    {
      this.repo, this.endID, this.coldDate := repo, endID, coldDate;
      current := startID - 1;
    }

    method HasNext() returns (more: bool)
      ensures more <==> Remaining() != []
    {
      var id := current + 1;
      while id <= endID
        invariant current + 1 <= id
        invariant Rows(repo.data, coldDate, id, endID) == Remaining()
        decreases endID - id
      {
        if id in repo.data && Cold(repo.data[id], coldDate) {
          return true;
        }
        id := id + 1;
      }
      more := false;
    }

    // The first remaining row, or the error of an exhausted iterator.
    method Next() returns (rec: Option<DataRecord>)
      modifies this`current
      ensures old(Remaining()) == [] ==> rec == None && Remaining() == []
      ensures old(Remaining()) != [] ==> rec == Some(old(Remaining())[0]) && Remaining() == old(Remaining())[1..]
      ensures current <= endID || current == old(current)
    {
      while current < endID
        invariant Remaining() == old(Remaining())
        invariant current <= endID || current == old(current)
        decreases endID - current
      {
        current := current + 1;
        if current in repo.data && Cold(repo.data[current], coldDate) {
          return Some(repo.data[current]);
        }
      }
      rec := None;
    }
  }

  // The loop of the extract goroutine without interruption: the whole stream, in order.
  method DrainIterator(it: DataIterator) returns (out: seq<DataRecord>)
    modifies it`current
    ensures out == old(it.Remaining()) && it.Remaining() == []
  {
    out := [];
    var more := it.HasNext();
    while more
      invariant out + it.Remaining() == old(it.Remaining())
      invariant more <==> it.Remaining() != []
      decreases |it.Remaining()|
    {
      var rec := it.Next();
      out := out + [rec.value];
      more := it.HasNext();
    }
  }
}
