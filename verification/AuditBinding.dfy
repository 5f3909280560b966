// What equal root hashes say about the audited records: batch trees over record
// hashes, and the job tree over batch roots.

module AuditBinding {
  import opened Sequences
  import opened Ordering
  import opened Merkle
  import opened RecordEncoding

  // One side of an audit batch: the records found, by id, reduced to their core fields.
  type Records = map<int, Fields>

  ghost function HashMap(h: HashFunc, recs: Records): map<int, string> {
    map id | id in recs :: RecordDigest(h, id, recs[id])
  }

  // --------------------------------------------------------- comparing two maps

  datatype Verdict = Match | Mismatch | Miss

  function Judge(src: map<int, string>, tgt: map<int, string>, id: int): Verdict
    requires id in src
  {
    if id in tgt then (if src[id] == tgt[id] then Match else Mismatch) else Miss
  }

  // The ids of the list with verdict v, in order.
  function Select(src: map<int, string>, tgt: map<int, string>, ids: seq<int>, v: Verdict): seq<int>
    requires forall i :: 0 <= i < |ids| ==> ids[i] in src
  {
    if ids == [] then []
    else
      var last := ids[|ids| - 1];
      Select(src, tgt, ids[..|ids| - 1], v) + (if Judge(src, tgt, last) == v then [last] else [])
  }

  // Every source entry is in the target; target entries without a source do not count.
  ghost predicate Contained(src: map<int, string>, tgt: map<int, string>) {
    forall id :: id in src ==> id in tgt && tgt[id] == src[id]
  }

  // Every id gets one verdict.
  lemma {:induction false} SelectPartitions(src: map<int, string>, tgt: map<int, string>, ids: seq<int>)
    requires forall i :: 0 <= i < |ids| ==> ids[i] in src
    ensures |Select(src, tgt, ids, Match)| + |Select(src, tgt, ids, Mismatch)| + |Select(src, tgt, ids, Miss)| == |ids|
  {
    if ids != [] {
      SelectPartitions(src, tgt, ids[..|ids| - 1]);
    }
  }

  lemma {:induction false} SelectMember(src: map<int, string>, tgt: map<int, string>, ids: seq<int>, v: Verdict,
          id: int)
    requires forall i :: 0 <= i < |ids| ==> ids[i] in src
    ensures id in Select(src, tgt, ids, v) <==> id in ids && Judge(src, tgt, id) == v
  {
    if ids != [] {
      SelectMember(src, tgt, ids[..|ids| - 1], v, id);
      assert ids == ids[..|ids| - 1] + [ids[|ids| - 1]];
    }
  }

  // How many source ids get verdict v, whatever the iteration order.
  ghost function Tally(src: map<int, string>, tgt: map<int, string>, v: Verdict): nat {
    |set id | id in src && Judge(src, tgt, id) == v|
  }

  // The three tallies: equal on both sides, in both but different, absent from the target.
  lemma TallyMeans(src: map<int, string>, tgt: map<int, string>)
    ensures Tally(src, tgt, Match) == |set id | id in src && id in tgt && src[id] == tgt[id]|
    ensures Tally(src, tgt, Mismatch) == |set id | id in src && id in tgt && src[id] != tgt[id]|
    ensures Tally(src, tgt, Miss) == |set id | id in src && id !in tgt|
  {
    assert (set id | id in src && Judge(src, tgt, id) == Match)
        == set id | id in src && id in tgt && src[id] == tgt[id];
    assert (set id | id in src && Judge(src, tgt, id) == Mismatch)
        == set id | id in src && id in tgt && src[id] != tgt[id];
    assert (set id | id in src && Judge(src, tgt, id) == Miss) == set id | id in src && id !in tgt;
  }

  // The members of the list with verdict v.
  ghost function Judged(src: map<int, string>, tgt: map<int, string>, ids: seq<int>, v: Verdict): set<int> {
    set id | id in ids && id in src && Judge(src, tgt, id) == v
  }

  lemma JudgedSnoc(src: map<int, string>, tgt: map<int, string>, front: seq<int>, last: int, v: Verdict)
    requires last !in front && last in src
    ensures |Judged(src, tgt, front + [last], v)| == |Judged(src, tgt, front, v)| + Bit(Judge(src, tgt, last) == v)
  {
    var before := Judged(src, tgt, front, v);
    if Judge(src, tgt, last) == v {
      assert Judged(src, tgt, front + [last], v) == before + {last};
    } else {
      assert Judged(src, tgt, front + [last], v) == before;
    }
  }

  lemma {:induction false} SelectCounts(src: map<int, string>, tgt: map<int, string>, ids: seq<int>, v: Verdict)
    requires Distinct(ids) && forall i :: 0 <= i < |ids| ==> ids[i] in src
    ensures |Select(src, tgt, ids, v)| == |Judged(src, tgt, ids, v)|
  {
    if ids == [] {
      assert Judged(src, tgt, ids, v) == {};
    } else {
      var front, last := ids[..|ids| - 1], ids[|ids| - 1];
      SelectCounts(src, tgt, front, v);
      assert ids == front + [last];
      assert last !in front;
      JudgedSnoc(src, tgt, front, last, v);
    }
  }

  lemma SelectTallies(src: map<int, string>, tgt: map<int, string>, ids: seq<int>, v: Verdict)
    requires Enumerates(ids, src.Keys)
    ensures forall i :: 0 <= i < |ids| ==> ids[i] in src
    ensures |Select(src, tgt, ids, v)| == Tally(src, tgt, v)
  {
    forall k
      ensures k in ids <==> k in src
    {
      EnumerationMember(ids, src.Keys, k);
    }
    EnumerationDistinct(ids, src.Keys);
    SelectCounts(src, tgt, ids, v);
    assert Judged(src, tgt, ids, v) == set id | id in src && Judge(src, tgt, id) == v;
  }

  // The three tallies add up to the source; the last two vanish exactly on containment.
  lemma TalliesAddUp(src: map<int, string>, tgt: map<int, string>)
    ensures Tally(src, tgt, Match) + Tally(src, tgt, Mismatch) + Tally(src, tgt, Miss) == |src|
    ensures Tally(src, tgt, Mismatch) == 0 && Tally(src, tgt, Miss) == 0 <==> Contained(src, tgt)
  {
    var ids := SomeOrder(src.Keys);
    SelectTallies(src, tgt, ids, Match);
    SelectTallies(src, tgt, ids, Mismatch);
    SelectTallies(src, tgt, ids, Miss);
    SelectPartitions(src, tgt, ids);
    MatchedIffContained(src, tgt, ids);
  }

  // A batch is matched exactly when the source map is contained in the target map.
  lemma MatchedIffContained(src: map<int, string>, tgt: map<int, string>, ids: seq<int>)
    requires Enumerates(ids, src.Keys)
    ensures forall i :: 0 <= i < |ids| ==> ids[i] in src
    ensures Select(src, tgt, ids, Mismatch) == [] && Select(src, tgt, ids, Miss) == [] <==> Contained(src, tgt)
    ensures |ids| == |src|
  {
    forall k
      ensures k in ids <==> k in src
    {
      EnumerationMember(ids, src.Keys, k);
    }
    assert |ids| == |multiset(ids)| == |src.Keys|;
    var bad, gone := Select(src, tgt, ids, Mismatch), Select(src, tgt, ids, Miss);
    if bad == [] && gone == [] {
      forall id | id in src
        ensures id in tgt && tgt[id] == src[id]
      {
        SelectMember(src, tgt, ids, Mismatch, id);
        SelectMember(src, tgt, ids, Miss, id);
      }
    }
    if bad != [] {
      SelectMember(src, tgt, ids, Mismatch, bad[0]);
    }
    if gone != [] {
      SelectMember(src, tgt, ids, Miss, gone[0]);
    }
  }

  lemma {:induction false} SelectDistinct(src: map<int, string>, tgt: map<int, string>, ids: seq<int>, v: Verdict)
    requires Distinct(ids) && forall i :: 0 <= i < |ids| ==> ids[i] in src
    ensures Distinct(Select(src, tgt, ids, v))
  {
    if ids != [] {
      var front, last := ids[..|ids| - 1], ids[|ids| - 1];
      SelectDistinct(src, tgt, front, v);
      SelectMember(src, tgt, front, v, last);
    }
  }

  // mapOrder: the order in which the runtime iterates the source map.
  method CompareHashMaps(src: map<int, string>, tgt: map<int, string>, mapOrder: seq<int>)
    returns (matched: seq<int>, mismatched: seq<int>, missing: seq<int>)
    requires Enumerates(mapOrder, src.Keys)
    ensures forall id :: id in matched <==> id in src && id in tgt && src[id] == tgt[id]
    ensures forall id :: id in mismatched <==> id in src && id in tgt && src[id] != tgt[id]
    ensures forall id :: id in missing <==> id in src && id !in tgt
    ensures |matched| == Tally(src, tgt, Match) && |mismatched| == Tally(src, tgt, Mismatch)
              && |missing| == Tally(src, tgt, Miss)
    ensures Distinct(matched) && Distinct(mismatched) && Distinct(missing)
    ensures mismatched == [] && missing == [] <==> Contained(src, tgt)
  {
    MatchedIffContained(src, tgt, mapOrder);
    EnumerationDistinct(mapOrder, src.Keys);
    matched, mismatched, missing := [], [], [];
    for i := 0 to |mapOrder|
      invariant matched == Select(src, tgt, mapOrder[..i], Match)
      invariant mismatched == Select(src, tgt, mapOrder[..i], Mismatch)
      invariant missing == Select(src, tgt, mapOrder[..i], Miss)
    {
      var id := mapOrder[i];
      assert mapOrder[..i + 1][..i] == mapOrder[..i];
      if id in tgt {
        if src[id] == tgt[id] {
          matched := matched + [id];
        } else {
          mismatched := mismatched + [id];
        }
      } else {
        missing := missing + [id];
      }
    }
    assert mapOrder[..|mapOrder|] == mapOrder;
    SelectTallies(src, tgt, mapOrder, Match);
    SelectTallies(src, tgt, mapOrder, Mismatch);
    SelectTallies(src, tgt, mapOrder, Miss);
    SelectDistinct(src, tgt, mapOrder, Match);
    SelectDistinct(src, tgt, mapOrder, Mismatch);
    SelectDistinct(src, tgt, mapOrder, Miss);
    forall id
      ensures id in matched <==> id in src && id in tgt && src[id] == tgt[id]
      ensures id in mismatched <==> id in src && id in tgt && src[id] != tgt[id]
      ensures id in missing <==> id in src && id !in tgt
    {
      EnumerationMember(mapOrder, src.Keys, id);
      SelectMember(src, tgt, mapOrder, Match, id);
      SelectMember(src, tgt, mapOrder, Mismatch, id);
      SelectMember(src, tgt, mapOrder, Miss, id);
    }
  }

  // ------------------------------------------------------------------ batch roots

  function Lookup(m: map<int, string>): int -> string {
    id => if id in m then m[id] else ""
  }

  // The values of the map, sorted; the enumeration of the ids does not matter.
  ghost function SortedHashes(m: map<int, string>): seq<string> {
    Sort(StringLe, Map(Lookup(m), SomeOrder(m.Keys)))
  }

  ghost function BatchRoot(h: HashFunc, recs: Records): string {
    TreeRoot(h, SortedHashes(HashMap(h, recs)))
  }

  // Every string hashed for one side of a batch: the record encodings and the tree nodes.
  ghost function Encodings(recs: Records): set<string> {
    set id | id in recs :: Encode(id, recs[id])
  }

  ghost function BatchInputs(h: HashFunc, recs: Records): set<string> {
    Encodings(recs) + TreeInputs(h, SortedHashes(HashMap(h, recs)))
  }

  // The leaf list of a batch tree does not depend on how the hash map is iterated.
  lemma IterationOrderOfHashes(m: map<int, string>, ids: seq<int>)
    requires Enumerates(ids, m.Keys)
    ensures Sort(StringLe, Map(Lookup(m), ids)) == SortedHashes(m)
  {
    StringOrder();
    MapPermutes(Lookup(m), ids, SomeOrder(m.Keys));
    SortForgetsOrder(StringLe, Map(Lookup(m), ids), Map(Lookup(m), SomeOrder(m.Keys)));
  }

  // All hashes of the map, each as often as it occurs, in ascending order.
  lemma SortedHashesMean(m: map<int, string>)
    ensures SortedBy(StringLe, SortedHashes(m)) && |SortedHashes(m)| == |m|
    ensures forall d :: d in SortedHashes(m) <==> exists id :: id in m && m[id] == d
  {
    StringOrder();
    var ids := SomeOrder(m.Keys);
    SortSorts(StringLe, Map(Lookup(m), ids));
    assert |ids| == |multiset(ids)| == |m.Keys|;
    forall d
      ensures d in SortedHashes(m) <==> exists id :: id in m && m[id] == d
    {
      SortedHashMember(m, d);
    }
  }

  // Collecting, sorting and hashing the values of a hash map, iterated in any order.
  method ComputeBatchRoot(h: HashFunc, hashMap: map<int, string>, mapOrder: seq<int>) returns (root: string)
    requires Enumerates(mapOrder, hashMap.Keys)
    ensures root == TreeRoot(h, SortedHashes(hashMap))
  {
    var hashes: seq<string> := [];
    for i := 0 to |mapOrder|
      invariant hashes == Map(Lookup(hashMap), mapOrder[..i])
    {
      EnumerationMember(mapOrder, hashMap.Keys, mapOrder[i]);
      hashes := hashes + [hashMap[mapOrder[i]]];
    }
    assert mapOrder[..|mapOrder|] == mapOrder;
    IterationOrderOfHashes(hashMap, mapOrder);
    var t := NewMerkleTree(h, Sort(StringLe, hashes));
    root := t.rootHash;
  }

  lemma SortedHashMember(m: map<int, string>, d: string)
    ensures d in SortedHashes(m) <==> exists id :: id in m && m[id] == d
  {
    var ids := SomeOrder(m.Keys);
    var vs := Map(Lookup(m), ids);
    StringOrder();
    SortSorts(StringLe, vs);
    assert d in SortedHashes(m) <==> d in multiset(SortedHashes(m));
    assert d in vs <==> d in multiset(vs);
    if d in vs {
      var i :| 0 <= i < |vs| && vs[i] == d;
      EnumerationMember(ids, m.Keys, ids[i]);
      assert ids[i] in m && m[ids[i]] == d;
    }
    if exists id :: id in m && m[id] == d {
      var id :| id in m && m[id] == d;
      EnumerationMember(ids, m.Keys, id);
      var i :| 0 <= i < |ids| && ids[i] == id;
      assert vs[i] == d;
    }
  }

  lemma SortedHashMembers(m: map<int, string>)
    ensures forall d :: d in SortedHashes(m) <==> exists id :: id in m && m[id] == d
  {
    forall d
      ensures d in SortedHashes(m) <==> exists id :: id in m && m[id] == d
    {
      SortedHashMember(m, d);
    }
  }

  lemma SameHashSameId(h: HashFunc, recs: Records, i: int, j: int)
    requires i in recs && j in recs && !Collides(h, Encodings(recs))
    requires RecordDigest(h, i, recs[i]) == RecordDigest(h, j, recs[j])
    ensures i == j
  {
    assert Encode(i, recs[i]) in Encodings(recs) && Encode(j, recs[j]) in Encodings(recs);
    SameDigest(h, Encodings(recs), Encode(i, recs[i]), Encode(j, recs[j]));
    EncodingDeterminesId(i, recs[i], j, recs[j]);
  }

  // Two records of one side with the same digest have different encodings: a collision.
  lemma HashesDistinct(h: HashFunc, recs: Records)
    ensures Distinct(SortedHashes(HashMap(h, recs))) || Collides(h, Encodings(recs))
  {
    var m := HashMap(h, recs);
    var ids := SomeOrder(m.Keys);
    EnumerationDistinct(ids, m.Keys);
    var vs := Map(Lookup(m), ids);
    if !Collides(h, Encodings(recs)) {
      forall i, j | 0 <= i < j < |vs|
        ensures vs[i] != vs[j]
      {
        EnumerationMember(ids, m.Keys, ids[i]);
        EnumerationMember(ids, m.Keys, ids[j]);
        if vs[i] == vs[j] {
          SameHashSameId(h, recs, ids[i], ids[j]);
        }
      }
      StringOrder();
      SortSorts(StringLe, vs);
      DistinctPermutation(vs, SortedHashes(m));
    }
  }

  // A list of preimages for a list of digests drawn from E.
  lemma {:induction false} PreimagesExist(h: HashFunc, s: seq<string>, E: set<string>)
    requires forall d :: d in s ==> exists e :: e in E && d == Digest(h, e)
    ensures exists es: seq<string> :: LeafHashes(h, es) == s && forall e :: e in es ==> e in E
  {
    if s == [] {
      assert LeafHashes(h, []) == s;
    } else {
      assert forall d :: d in s[1..] ==> d in s;
      PreimagesExist(h, s[1..], E);
      var es: seq<string> :| LeafHashes(h, es) == s[1..] && forall e :: e in es ==> e in E;
      assert s[0] in s;
      var e :| e in E && s[0] == Digest(h, e);
      assert LeafHashes(h, [e] + es) == s;
    }
  }

  lemma BatchPreimages(h: HashFunc, recs: Records) returns (es: seq<string>)
    ensures LeafHashes(h, es) == SortedHashes(HashMap(h, recs))
    ensures (set e | e in es) <= Encodings(recs)
    ensures forall e :: e in es ==> LeafPreimage(e)
  {
    var m := HashMap(h, recs);
    SortedHashMembers(m);
    forall d | d in SortedHashes(m)
      ensures exists e :: e in Encodings(recs) && d == Digest(h, e)
    {
      var id :| id in m && m[id] == d;
      assert Encode(id, recs[id]) in Encodings(recs);
    }
    PreimagesExist(h, SortedHashes(m), Encodings(recs));
    es :| LeafHashes(h, es) == SortedHashes(m) && forall e :: e in es ==> e in Encodings(recs);
    forall e | e in es
      ensures LeafPreimage(e)
    {
      var id :| id in recs && e == Encode(id, recs[id]);
      EncodingIsLeafPreimage(id, recs[id]);
    }
  }

  // Equal batch roots: the same leaf lists, or a collision.
  lemma BatchLeavesBinding(h: HashFunc, w: nat, s: Records, t: Records)
    requires FixedWidth(h, w) && BatchRoot(h, s) == BatchRoot(h, t)
    ensures SortedHashes(HashMap(h, s)) == SortedHashes(HashMap(h, t))
              || Collides(h, BatchInputs(h, s) + BatchInputs(h, t))
  {
    var A := BatchInputs(h, s) + BatchInputs(h, t);
    HashesDistinct(h, s);
    HashesDistinct(h, t);
    CollidesMonotone(h, Encodings(s), A);
    CollidesMonotone(h, Encodings(t), A);
    if !Collides(h, A) {
      var es := BatchPreimages(h, s);
      var fs := BatchPreimages(h, t);
      RootBinding(h, w, es, fs);
      CollidesMonotone(h, LeafTreeInputs(h, es) + LeafTreeInputs(h, fs), A);
    }
  }

  lemma SameHashAcross(h: HashFunc, s: Records, t: Records, id: int, id': int, A: set<string>)
    requires Encodings(s) + Encodings(t) <= A && !Collides(h, A)
    requires id in s && id' in t && RecordDigest(h, id, s[id]) == RecordDigest(h, id', t[id'])
    ensures id == id'
  {
    assert Encode(id, s[id]) in Encodings(s) && Encode(id', t[id']) in Encodings(t);
    SameDigest(h, A, Encode(id, s[id]), Encode(id', t[id']));
    EncodingDeterminesId(id, s[id], id', t[id']);
  }

  lemma SameLeavesSameEntry(h: HashFunc, s: Records, t: Records, id: int, A: set<string>)
    requires SortedHashes(HashMap(h, s)) == SortedHashes(HashMap(h, t))
    requires Encodings(s) + Encodings(t) <= A && !Collides(h, A)
    requires id in s
    ensures id in t && RecordDigest(h, id, s[id]) == RecordDigest(h, id, t[id])
  {
    var m, n := HashMap(h, s), HashMap(h, t);
    SortedHashMember(m, m[id]);
    SortedHashMember(n, m[id]);
    var id' :| id' in n && n[id'] == m[id];
    SameHashAcross(h, s, t, id, id', A);
  }

  lemma HashMapsEqual(h: HashFunc, s: Records, t: Records)
    requires s.Keys == t.Keys
    requires forall id :: id in s ==> RecordDigest(h, id, s[id]) == RecordDigest(h, id, t[id])
    ensures HashMap(h, s) == HashMap(h, t)
  {
  }

  lemma SameLeavesSameMap(h: HashFunc, s: Records, t: Records, A: set<string>)
    requires SortedHashes(HashMap(h, s)) == SortedHashes(HashMap(h, t))
    requires Encodings(s) + Encodings(t) <= A && !Collides(h, A)
    ensures HashMap(h, s) == HashMap(h, t)
  {
    forall id | id in s
      ensures id in t && RecordDigest(h, id, s[id]) == RecordDigest(h, id, t[id])
    {
      SameLeavesSameEntry(h, s, t, id, A);
    }
    forall id | id in t
      ensures id in s
    {
      SameLeavesSameEntry(h, t, s, id, A);
    }
    HashMapsEqual(h, s, t);
  }

  // Equal batch roots: the id-to-hash maps agree entry by entry, or a collision.
  lemma BatchBinding(h: HashFunc, w: nat, s: Records, t: Records)
    requires FixedWidth(h, w) && BatchRoot(h, s) == BatchRoot(h, t)
    ensures HashMap(h, s) == HashMap(h, t) || Collides(h, BatchInputs(h, s) + BatchInputs(h, t))
  {
    BatchLeavesBinding(h, w, s, t);
    if !Collides(h, BatchInputs(h, s) + BatchInputs(h, t)) {
      SameLeavesSameMap(h, s, t, BatchInputs(h, s) + BatchInputs(h, t));
    }
  }

  // -------------------------------------------------------------------- job roots

  ghost function BatchRoots(h: HashFunc, batches: seq<Records>): (r: seq<string>)
    ensures |r| == |batches|
    ensures forall i :: 0 <= i < |r| ==> r[i] == BatchRoot(h, batches[i])
  {
    seq(|batches|, i requires 0 <= i < |batches| => BatchRoot(h, batches[i]))
  }

  ghost function JobRoot(h: HashFunc, batches: seq<Records>): string { TreeRoot(h, BatchRoots(h, batches)) }

  ghost function JobInputs(h: HashFunc, batches: seq<Records>): set<string> {
    TreeInputs(h, BatchRoots(h, batches)) + (set i, x | 0 <= i < |batches| && x in BatchInputs(h, batches[i]) :: x)
  }

  lemma {:induction false} RootDigest(h: HashFunc, w: nat, s: seq<string>)
    requires FixedWidth(h, w) && Digests(s, w)
    ensures |TreeRoot(h, s)| == 2 * w && IsHex(TreeRoot(h, s))
    decreases |s|
  {
    if |s| > 1 {
      forall k | 0 <= k < |Level(h, s)|
        ensures |Level(h, s)[k]| == 2 * w && IsHex(Level(h, s)[k])
      {
        LevelAt(h, s, k);
      }
      RootDigest(h, w, Level(h, s));
    }
  }

  lemma BatchRootDigest(h: HashFunc, w: nat, recs: Records)
    requires FixedWidth(h, w)
    ensures |BatchRoot(h, recs)| == 2 * w && IsHex(BatchRoot(h, recs))
  {
    var m := HashMap(h, recs);
    SortedHashMembers(m);
    forall i | 0 <= i < |SortedHashes(m)|
      ensures |SortedHashes(m)[i]| == 2 * w && IsHex(SortedHashes(m)[i])
    {
      assert SortedHashes(m)[i] in SortedHashes(m);
      var id :| id in m && m[id] == SortedHashes(m)[i];
    }
    RootDigest(h, w, SortedHashes(m));
  }

  // The tree of batch roots over the trees of record hashes: equal job roots force equal
  // maps in every batch, or a collision among the strings hashed in the two audits.
  lemma JobBinding(h: HashFunc, w: nat, src: seq<Records>, tgt: seq<Records>)
    requires FixedWidth(h, w) && |src| == |tgt| && JobRoot(h, src) == JobRoot(h, tgt)
    ensures (forall i :: 0 <= i < |src| ==> HashMap(h, src[i]) == HashMap(h, tgt[i]))
         || Collides(h, JobInputs(h, src) + JobInputs(h, tgt))
  {
    var A := JobInputs(h, src) + JobInputs(h, tgt);
    var p, q := BatchRoots(h, src), BatchRoots(h, tgt);
    forall i | 0 <= i < |src|
      ensures |p[i]| == 2 * w && IsHex(p[i]) && |q[i]| == 2 * w && IsHex(q[i])
    {
      BatchRootDigest(h, w, src[i]);
      BatchRootDigest(h, w, tgt[i]);
    }
    EqualLengthBinding(h, w, p, q);
    CollidesMonotone(h, TreeInputs(h, p) + TreeInputs(h, q), A);
    if !Collides(h, A) {
      forall i | 0 <= i < |src|
        ensures HashMap(h, src[i]) == HashMap(h, tgt[i])
      {
        assert p[i] == q[i];
        BatchBinding(h, w, src[i], tgt[i]);
        CollidesMonotone(h, BatchInputs(h, src[i]) + BatchInputs(h, tgt[i]), A);
      }
    }
  }

  // --------------------------------------------------- from hashes back to records

  ghost predicate CoreRecords(recs: Records) {
    forall id :: id in recs ==> recs[id].Keys == CORE_FIELDS
  }

  // No record has a value with the separator of its own or the next key.
  ghost predicate Unambiguous(recs: Records) {
    forall id :: id in recs ==> !Straddles(recs[id])
  }

  // The same texts; and, where the types agree as well, the same values.
  ghost predicate SameRecord(f: Fields, g: Fields) {
    f.Keys == g.Keys && SameText(f, g) && (SameTypes(f, g) ==> f == g)
  }

  ghost predicate SameRecords(s: Records, t: Records) {
    s.Keys == t.Keys && forall id :: id in s ==> SameRecord(s[id], t[id])
  }

  lemma SameDigestSameText(h: HashFunc, id: int, f: Fields, g: Fields, A: set<string>)
    requires f.Keys == g.Keys == CORE_FIELDS && !Straddles(f)
    requires Encode(id, f) in A && Encode(id, g) in A && !Collides(h, A)
    requires RecordDigest(h, id, f) == RecordDigest(h, id, g)
    ensures SameRecord(f, g)
  {
    SameDigest(h, A, Encode(id, f), Encode(id, g));
    CoreKeysSorted(f);
    EncodingDeterminesRecord(id, f, id, g);
  }

  lemma SameHashesSameRecord(h: HashFunc, s: Records, t: Records, A: set<string>, id: int)
    requires CoreRecords(s) && CoreRecords(t) && Unambiguous(s) && HashMap(h, s) == HashMap(h, t)
    requires Encodings(s) + Encodings(t) <= A && !Collides(h, A)
    requires id in s
    ensures id in t && SameRecord(s[id], t[id])
  {
    assert id in HashMap(h, t) && HashMap(h, s)[id] == HashMap(h, t)[id];
    assert Encode(id, s[id]) in Encodings(s) && Encode(id, t[id]) in Encodings(t);
    SameDigestSameText(h, id, s[id], t[id], A);
  }

  lemma SameHashesSameRecords(h: HashFunc, s: Records, t: Records, A: set<string>)
    requires CoreRecords(s) && CoreRecords(t) && Unambiguous(s) && HashMap(h, s) == HashMap(h, t)
    requires Encodings(s) + Encodings(t) <= A && !Collides(h, A)
    ensures SameRecords(s, t)
  {
    SameHashesSameIds(h, s, t);
    forall id | id in s
      ensures SameRecord(s[id], t[id])
    {
      SameHashesSameRecord(h, s, t, A, id);
    }
  }

  lemma SameHashesSameIds(h: HashFunc, s: Records, t: Records)
    requires HashMap(h, s) == HashMap(h, t)
    ensures s.Keys == t.Keys
  {
    assert s.Keys == HashMap(h, s).Keys && t.Keys == HashMap(h, t).Keys;
  }

  // Rows with one id have values of the same types.
  ghost predicate SameTyped(s: Records, t: Records) {
    forall id :: id in s && id in t && s[id].Keys == t[id].Keys ==> SameTypes(s[id], t[id])
  }

  lemma SameTypedSame(s: Records, t: Records)
    requires SameRecords(s, t) && SameTyped(s, t)
    ensures s == t
  {
    forall id | id in s
      ensures s[id] == t[id]
    {
      assert SameRecord(s[id], t[id]);
    }
  }

  // End to end: if no source record is ambiguous, equal job roots mean that every batch has
  // the same ids with the same core-field texts on both sides, and the same values where the
  // types agree, or a collision.  So over records of the same types the batches are equal.
  lemma JobRecordsBinding(h: HashFunc, w: nat, src: seq<Records>, tgt: seq<Records>)
    requires FixedWidth(h, w) && |src| == |tgt| && JobRoot(h, src) == JobRoot(h, tgt)
    requires forall i :: 0 <= i < |src| ==> CoreRecords(src[i]) && CoreRecords(tgt[i]) && Unambiguous(src[i])
    ensures (forall i :: 0 <= i < |src| ==> SameRecords(src[i], tgt[i]))
         || Collides(h, JobInputs(h, src) + JobInputs(h, tgt))
    ensures (forall i :: 0 <= i < |src| ==> SameTyped(src[i], tgt[i])) ==>
              src == tgt || Collides(h, JobInputs(h, src) + JobInputs(h, tgt))
  {
    var A := JobInputs(h, src) + JobInputs(h, tgt);
    JobBinding(h, w, src, tgt);
    if !Collides(h, A) {
      forall i | 0 <= i < |src|
        ensures SameRecords(src[i], tgt[i])
      {
        assert BatchInputs(h, src[i]) <= A && BatchInputs(h, tgt[i]) <= A;
        SameHashesSameRecords(h, src[i], tgt[i], A);
      }
      if forall i :: 0 <= i < |src| ==> SameTyped(src[i], tgt[i]) {
        forall i | 0 <= i < |src|
          ensures src[i] == tgt[i]
        {
          SameTypedSame(src[i], tgt[i]);
        }
      }
    }
  }
}
