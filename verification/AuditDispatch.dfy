// Choosing the ids of an audit job and cutting them into batches.  The generator's draws
// from [0, 1) are a parameter, and positions are exact reals.

module AuditDispatch {
  import opened Sequences
  import opened Ordering
  import opened SourceRepo

  // ------------------------------------------------------------------- sampling

  ghost predicate Draws(u: seq<real>) { forall i :: 0 <= i < |u| ==> 0.0 <= u[i] < 1.0 }

  function Step(total: nat, count: nat): real
    requires count > 0
  {
    total as real / count as real
  }

  // Where stratum i begins, as an offset from minID: i times the step.
  function Edge(step: real, i: nat): real { if i == 0 then 0.0 else Edge(step, i - 1) + step }

  // Where draw u falls within stratum i.
  function Position(step: real, i: nat, u: real): real { Edge(step, i) + u * step }

  function Stratified(minID: int, step: real, u: seq<real>): (ids: seq<int>)
    ensures |ids| == |u|
  {
    seq(|u|, i requires 0 <= i < |u| => minID + Position(step, i, u[i]).Floor)
  }

  function Range(minID: int, total: nat): (ids: seq<int>)
    ensures |ids| == total
  {
    seq(total, i => minID + i)
  }

  function Sample(minID: int, total: nat, count: int, draws: seq<real>): seq<int>
    requires count <= |draws|
  {
    if count <= 0 then []
    else if total <= count then Range(minID, total)
    else Stratified(minID, Step(total, count), draws[..count])
  }

  lemma {:induction false} EdgeProduct(step: real, i: nat)
    ensures Edge(step, i) == i as real * step
  {
    if i > 0 {
      EdgeProduct(step, i - 1);
      assert i as real == (i - 1) as real + 1.0;
      assert ((i - 1) as real + 1.0) * step == (i - 1) as real * step + step;
    }
  }

  lemma {:induction false} EdgesAscend(step: real, i: nat, j: nat)
    requires step > 0.0 && i <= j
    ensures Edge(step, i) <= Edge(step, j)
  {
    if i < j {
      EdgesAscend(step, i, j - 1);
    }
  }

  // The strata of a sample: steps longer than one that end at the range's end.
  ghost predicate Spans(step: real, total: nat, u: seq<real>) {
    Draws(u) && step > 1.0 && Edge(step, |u|) == total as real
  }

  lemma QuotientAboveOne(total: real, count: real)
    requires 0.0 < count < total
    ensures total / count > 1.0 && count * (total / count) == total
  {
    var r := total / count;
    assert r * count == total;
    PositiveFactor(r - 1.0, count);
  }

  lemma StepSpans(total: nat, u: seq<real>)
    requires Draws(u) && 1 <= |u| < total
    ensures Spans(Step(total, |u|), total, u)
  {
    QuotientAboveOne(total as real, |u| as real);
    EdgeProduct(Step(total, |u|), |u|);
  }

  lemma PositiveFactor(x: real, c: real)
    requires c > 0.0 && x * c > 0.0
    ensures x > 0.0
  {
  }

  lemma Scaled(u: real, step: real)
    requires step > 0.0 && 0.0 <= u < 1.0
    ensures 0.0 <= u * step < step
  {
    assert (1.0 - u) * step > 0.0;
    assert (1.0 - u) * step == step - u * step;
  }

  lemma InStratum(step: real, i: nat, u: real)
    requires step > 0.0 && 0.0 <= u < 1.0
    ensures Edge(step, i) <= Position(step, i, u) < Edge(step, i + 1)
  {
    Scaled(u, step);
  }

  // A sampled id lies in its own stratum, up to the rounding, and in the range.
  lemma IdInStratum(minID: int, step: real, total: nat, u: seq<real>, i: nat)
    requires Spans(step, total, u) && i < |u|
    ensures Edge(step, i) - 1.0 < (Stratified(minID, step, u)[i] - minID) as real < Edge(step, i + 1)
    ensures minID <= Stratified(minID, step, u)[i] < minID + total
  {
    InStratum(step, i, u[i]);
    EdgesAscend(step, 0, i);
    EdgesAscend(step, i + 1, |u|);
    var p := Position(step, i, u[i]);
    assert Stratified(minID, step, u)[i] - minID == p.Floor;
    assert p.Floor as real <= p < p.Floor as real + 1.0;
  }

  lemma FloorMonotone(x: real, y: real)
    requires x <= y
    ensures x.Floor <= y.Floor
    ensures x + 1.0 <= y ==> x.Floor + 1 <= y.Floor
  {
    assert x.Floor as real <= x && y < y.Floor as real + 1.0;
    assert x.Floor as real < (y.Floor + 1) as real;
  }

  // Sampled ids never descend, and ids two places apart differ.
  lemma SampleAscends(minID: int, step: real, u: seq<real>, i: nat, j: nat)
    requires Draws(u) && step > 1.0 && i < j < |u|
    ensures Stratified(minID, step, u)[i] <= Stratified(minID, step, u)[j]
    ensures i + 2 <= j ==> Stratified(minID, step, u)[i] < Stratified(minID, step, u)[j]
  {
    InStratum(step, i, u[i]);
    InStratum(step, j, u[j]);
    EdgesAscend(step, i + 1, j);
    if i + 2 <= j {
      EdgesAscend(step, i + 2, j);
    }
    FloorMonotone(Position(step, i, u[i]), Position(step, j, u[j]));
  }

  lemma NextGap(minID: int, step: real, total: nat, u: seq<real>, i: nat)
    requires Spans(step, total, u) && i + 1 < |u|
    ensures (Stratified(minID, step, u)[i + 1] - Stratified(minID, step, u)[i]) as real < 2.0 * step + 1.0
  {
    IdInStratum(minID, step, total, u, i);
    IdInStratum(minID, step, total, u, i + 1);
    var a, b := Stratified(minID, step, u)[i] - minID, Stratified(minID, step, u)[i + 1] - minID;
    assert (b - a) as real == b as real - a as real;
  }

  // The sample over [minID, minID + total): in range, in ascending order, with steps
  // below twice the stratum width plus one.
  lemma SampleSpread(minID: int, total: nat, u: seq<real>)
    requires Draws(u) && 1 <= |u| < total
    ensures var ids, step := Stratified(minID, Step(total, |u|), u), Step(total, |u|);
            && (forall i :: 0 <= i < |u| ==> minID <= ids[i] < minID + total)
            && SortedBy(IntLe, ids)
            && (forall i {:trigger ids[i]} :: 0 <= i < |u| - 1 ==> (ids[i + 1] - ids[i]) as real < 2.0 * step + 1.0)
  {
    var step := Step(total, |u|);
    StepSpans(total, u);
    var ids := Stratified(minID, step, u);
    forall i | 0 <= i < |u|
      ensures minID <= ids[i] < minID + total
    {
      IdInStratum(minID, step, total, u, i);
    }
    forall i, j | 0 <= i < j < |u|
      ensures IntLe(ids[i], ids[j])
    {
      SampleAscends(minID, step, u, i, j);
    }
    forall i {:trigger ids[i]} | 0 <= i < |u| - 1
      ensures (ids[i + 1] - ids[i]) as real < 2.0 * step + 1.0
    {
      NextGap(minID, step, total, u, i);
    }
  }

  ghost predicate SpacedByTwo(s: seq<int>) {
    && (forall i, j :: 0 <= i < j < |s| ==> s[i] <= s[j])
    && (forall i, j :: 0 <= i && i + 2 <= j < |s| ==> s[i] < s[j])
  }

  lemma AbsentCounts(s: seq<int>, x: int)
    requires forall i :: 0 <= i < |s| ==> s[i] != x
    ensures multiset(s)[x] == 0
  {
    assert x !in s;
    assert x !in multiset(s);
  }

  lemma SpacedPrefix(s: seq<int>, n: nat)
    requires SpacedByTwo(s) && n <= |s|
    ensures SpacedByTwo(s[..n])
  {
    var t := s[..n];
    assert forall i :: 0 <= i < |t| ==> t[i] == s[i];
  }

  lemma LastTwo(s: seq<int>, x: int)
    requires SpacedByTwo(s) && |s| >= 2 && x == s[|s| - 1]
    ensures multiset(s)[x] <= 2
  {
    var n := |s| - 2;
    AbsentCounts(s[..n], x);
    assert s == s[..n] + [s[n], s[n + 1]];
  }

  lemma {:induction false} SpacedCounts(s: seq<int>, x: int)
    requires SpacedByTwo(s)
    ensures multiset(s)[x] <= 2
  {
    if |s| >= 2 && x == s[|s| - 1] {
      LastTwo(s, x);
    } else if |s| >= 2 {
      SpacedPrefix(s, |s| - 1);
      SpacedCounts(s[..|s| - 1], x);
      assert s == s[..|s| - 1] + [s[|s| - 1]];
    } else if |s| == 1 {
      assert s == [s[0]];
    }
  }

  // No id is sampled more than twice.
  lemma NoIdThrice(minID: int, total: nat, u: seq<real>, x: int)
    requires Draws(u) && 1 <= |u| < total
    ensures multiset(Stratified(minID, Step(total, |u|), u))[x] <= 2
  {
    var step := Step(total, |u|);
    StepSpans(total, u);
    var ids := Stratified(minID, step, u);
    forall i, j | 0 <= i < j < |ids|
      ensures ids[i] <= ids[j] && (i + 2 <= j ==> ids[i] < ids[j])
    {
      SampleAscends(minID, step, u, i, j);
    }
    SpacedCounts(ids, x);
  }

  lemma {:induction false} StratumOf(step: real, count: nat, d: real) returns (k: nat)
    requires step > 0.0 && 0.0 <= d < Edge(step, count)
    ensures k < count && Edge(step, k) <= d < Edge(step, k + 1)
  {
    if d >= Edge(step, count - 1) {
      k := count - 1;
    } else {
      k := StratumOf(step, count - 1, d);
    }
  }

  lemma NearestSample(minID: int, step: real, total: nat, u: seq<real>, x: int) returns (k: nat)
    requires Spans(step, total, u) && minID <= x < minID + total
    ensures k < |u| && -step - 1.0 < (Stratified(minID, step, u)[k] - x) as real < step + 1.0
  {
    k := StratumOf(step, |u|, (x - minID) as real);
    IdInStratum(minID, step, total, u, k);
    var a, d := Stratified(minID, step, u)[k] - minID, x - minID;
    assert (a - d) as real == a as real - d as real;
  }

  // Wherever a record sits in the range, some sampled id is less than a stratum width
  // plus one away.
  lemma EveryIdHasASampleNearby(minID: int, total: nat, u: seq<real>, x: int)
    requires Draws(u) && 1 <= |u| < total && minID <= x < minID + total
    ensures var ids, step := Stratified(minID, Step(total, |u|), u), Step(total, |u|);
            exists k :: 0 <= k < |u| && -step - 1.0 < (ids[k] - x) as real < step + 1.0
  {
    StepSpans(total, u);
    var k := NearestSample(minID, Step(total, |u|), total, u, x);
  }

  // ---- when repeats can occur

  lemma BelowWhole(p: real, m: int)
    requires p < m as real
    ensures p.Floor < m
  {
    assert p.Floor as real <= p;
  }

  lemma AtLeastWhole(p: real, m: int)
    requires m as real <= p
    ensures m <= p.Floor
  {
    assert p < p.Floor as real + 1.0;
  }

  lemma {:induction false} WholeEdge(q: nat, i: nat) returns (e: int)
    ensures Edge(q as real, i) == e as real
  {
    if i == 0 {
      e := 0;
    } else {
      var e' := WholeEdge(q, i - 1);
      e := e' + q;
    }
  }

  lemma WholeStep(total: nat, count: nat)
    requires 1 <= count && total % count == 0
    ensures Step(total, count) == (total / count) as real
  {
    var q := total / count;
    assert q * count == total;
    assert q as real * count as real == (q * count) as real;
  }

  // Edges on whole offsets keep neighbouring strata apart.
  lemma WholeSteps(minID: int, q: nat, u: seq<real>, i: nat, j: nat)
    requires Draws(u) && q > 1 && i < j < |u|
    ensures Stratified(minID, q as real, u)[i] < Stratified(minID, q as real, u)[j]
  {
    var step := q as real;
    var e := WholeEdge(q, i + 1);
    InStratum(step, i, u[i]);
    InStratum(step, j, u[j]);
    EdgesAscend(step, i + 1, j);
    BelowWhole(Position(step, i, u[i]), e);
    AtLeastWhole(Position(step, j, u[j]), e);
  }

  // The draw that lands on the last whole offset of the first stratum.
  function LateDraw(q: nat, step: real): real
    requires step > 0.0
  {
    q as real / step
  }

  function Repeating(q: nat, step: real, count: nat): (u: seq<real>)
    requires step > 0.0
    ensures |u| == count
  {
    seq(count, i => if i == 0 then LateDraw(q, step) else 0.0)
  }

  lemma QuotientBounds(a: real, c: real, lo: real, hi: real)
    requires c > 0.0 && lo * c < a < hi * c
    ensures lo < a / c < hi
  {
    var r := a / c;
    assert r * c == a;
    PositiveFactor(r - lo, c);
    PositiveFactor(hi - r, c);
  }

  lemma QuotientBelow(q: nat, step: real)
    requires q >= 1 && step > q as real
    ensures 0.0 <= LateDraw(q, step) < 1.0
    ensures LateDraw(q, step) * step == q as real
  {
    var r := q as real / step;
    assert r * step == q as real;
    PositiveFactor(1.0 - r, step);
    PositiveFactor(r, step);
  }

  lemma BetweenWhole(total: nat, count: nat)
    requires 1 <= count < total && total % count != 0
    ensures total / count >= 1
    ensures (total / count) as real < Step(total, count) < (total / count) as real + 1.0
  {
    var q := total / count;
    assert q * count < total < (q + 1) * count;
    assert q as real * count as real == (q * count) as real;
    assert (q as real + 1.0) * count as real == ((q + 1) * count) as real;
    QuotientBounds(total as real, count as real, q as real, q as real + 1.0);
  }

  lemma RepeatingRepeats(minID: int, q: nat, step: real, count: nat)
    requires q >= 1 && q as real < step < q as real + 1.0 && count >= 2
    ensures Draws(Repeating(q, step, count))
    ensures !Distinct(Stratified(minID, step, Repeating(q, step, count)))
  {
    var u := Repeating(q, step, count);
    QuotientBelow(q, step);
    assert Position(step, 0, u[0]) == q as real;
    assert Position(step, 1, u[1]) == Edge(step, 0) + step + 0.0 * step == step;
    var ids := Stratified(minID, step, u);
    assert ids[0] == minID + q && ids[1] == minID + q;
  }

  // Sampling is free of repeats, whatever is drawn, exactly when the count divides the range.
  lemma NoRepeatsExactlyWhenCountDivides(minID: int, total: nat, count: nat)
    requires 1 <= count < total
    ensures (forall u :: Draws(u) && |u| == count ==> Distinct(Stratified(minID, Step(total, count), u))) <==>
              total % count == 0
  {
    if total % count == 0 {
      WholeStep(total, count);
      WholeIsLong(total, count);
      forall u | Draws(u) && |u| == count
        ensures Distinct(Stratified(minID, Step(total, count), u))
      {
        forall i, j | 0 <= i < j < count
          ensures Stratified(minID, Step(total, count), u)[i] != Stratified(minID, Step(total, count), u)[j]
        {
          WholeSteps(minID, total / count, u, i, j);
        }
      }
    } else {
      BetweenWhole(total, count);
      RepeatingRepeats(minID, total / count, Step(total, count), count);
    }
  }

  lemma WholeIsLong(total: nat, count: nat)
    requires 1 <= count < total && total % count == 0
    ensures total / count > 1
  {
    assert total == total / count * count;
  }

  // Any sample is already sorted.
  lemma SampleSorted(minID: int, total: nat, count: int, draws: seq<real>)
    requires count <= |draws| && Draws(draws)
    ensures SortedBy(IntLe, Sample(minID, total, count, draws))
    ensures |Sample(minID, total, count, draws)| == if count <= 0 then 0 else if total <= count then total else count
  {
    if 0 < count < total {
      SampleSpread(minID, total, draws[..count]);
    }
  }

  // The sample id by id: the whole range when it is not larger than the count; otherwise the
  // integer part of a draw's place in its stratum, for strata of equal real width.
  lemma SampleMeans(minID: int, total: nat, count: int, draws: seq<real>, i: nat)
    requires count <= |draws| && i < |Sample(minID, total, count, draws)|
    ensures total <= count ==> Sample(minID, total, count, draws)[i] == minID + i
    ensures total > count ==>
              var place := (i as real + draws[i]) * (total as real / count as real);
              var offset := (Sample(minID, total, count, draws)[i] - minID) as real;
              offset <= place < offset + 1.0
  {
    if total > count {
      var step := Step(total, count);
      EdgeProduct(step, i);
      assert (i as real + draws[i]) * step == i as real * step + draws[i] * step;
      assert draws[..count][i] == draws[i];
    }
  }

  lemma WholeRangeSampled(minID: int, total: nat, count: int, draws: seq<real>)
    requires 0 < count <= |draws| && total <= count
    ensures forall id :: id in Sample(minID, total, count, draws) <==> minID <= id < minID + total
    ensures Distinct(Sample(minID, total, count, draws))
  {
    var ids := Sample(minID, total, count, draws);
    forall id | minID <= id < minID + total
      ensures id in ids
    {
      assert ids[id - minID] == id;
    }
  }

  // The clamp to maxID is there for rounding; over the reals it never acts.
  method SampleRecordIDs(minID: int, maxID: int, count: int, draws: seq<real>) returns (ids: seq<int>)
    requires minID <= maxID + 1 && count <= |draws| && Draws(draws)
    ensures ids == Sample(minID, maxID - minID + 1, count, draws)
  {
    ids := [];
    if count <= 0 {
      return;
    }
    var total := maxID - minID + 1;
    if total <= count {
      var id := minID;
      while id <= maxID
        invariant minID <= id <= maxID + 1
        invariant ids == Range(minID, id - minID)
      {
        ids := ids + [id];
        id := id + 1;
      }
      return;
    }
    ghost var u := draws[..count];
    StepSpans(total, u);
    var step := total as real / count as real;
    for i := 0 to count
      invariant |ids| == i && ids == Stratified(minID, step, u)[..i]
    {
      var id := minID + (i as real * step + draws[i] * step).Floor;
      EdgeProduct(step, i);
      IdInStratum(minID, step, total, u, i);
      assert id == Stratified(minID, step, u)[i];
      if id > maxID {
        id := maxID;
      }
      ids := ids + [id];
    }
  }

  // -------------------------------------------------------------------- batching

  datatype Task = Task(index: nat, startID: int, endID: int, ids: seq<int>)

  // NoRecords: the job is failed.  Stopped: slicing past the sample panics, the panic is
  // recovered and logged, and no monitor is started.  Monitored: all batches went out.
  datatype Outcome = NoRecords | Stopped | Monitored

  // Go's division truncates toward zero; TotalRecords comes from the caller and may be negative.
  function TruncDiv(a: int, b: nat): int
    requires b > 0
  {
    if a >= 0 then a / b else -((-a) / b)
  }

  // The configured share of the range, but at least ten, and no more than the records the
  // caller knows of.
  function SampleCount(total: nat, rate: real, totalRecords: int): (n: int)
    ensures n <= totalRecords
    ensures n < totalRecords ==> n >= 10 && total as real * rate < n as real + 1.0
    ensures n > 10 ==> n as real <= total as real * rate
  {
    var c := (total as real * rate).Floor;
    var atLeast := if c < 10 then 10 else c;
    if atLeast > totalRecords then totalRecords else atLeast
  }

  function BatchCount(n: int, b: nat): int
    requires b > 0
  {
    TruncDiv(n, b) + (if n - TruncDiv(n, b) * b > 0 then 1 else 0)
  }

  // The list cut into pieces of b, the last one possibly shorter.
  function Chunks(s: seq<int>, b: nat): seq<seq<int>>
    requires b > 0
  {
    if s == [] then []
    else if |s| <= b then [s]
    else [s[..b]] + Chunks(s[b..], b)
  }

  lemma {:induction false} ChunksPartition(s: seq<int>, b: nat)
    requires b > 0
    ensures Flatten(Chunks(s, b)) == s
    ensures forall k :: 0 <= k < |Chunks(s, b)| ==> 1 <= |Chunks(s, b)[k]| <= b
    ensures forall k :: 0 <= k < |Chunks(s, b)| - 1 ==> |Chunks(s, b)[k]| == b
    decreases |s|
  {
    if |s| > b {
      ChunksPartition(s[b..], b);
      assert s == s[..b] + s[b..];
    } else if s != [] {
      assert Flatten([s]) == s;
    }
  }

  lemma ChunksStep(s: seq<int>, b: nat, pos: nat, end: nat)
    requires b > 0 && pos < |s| && end == if pos + b > |s| then |s| else pos + b
    ensures Chunks(s[pos..], b) == [s[pos..end]] + Chunks(s[end..], b)
  {
    if pos + b < |s| {
      assert s[pos..][..b] == s[pos..end] && s[pos..][b..] == s[end..];
    } else {
      assert s[pos..] == s[pos..end] && s[end..] == [];
    }
  }

  function IdsOf(tasks: seq<Task>): seq<seq<int>> { Map((t: Task) => t.ids, tasks) }

  // Tasks carry the pieces of the sample, each under its own position as index.
  ghost predicate Planned(tasks: seq<Task>, sampled: seq<int>, b: nat)
    requires b > 0
  {
    IdsOf(tasks) == Chunks(sampled, b) && Indexed(tasks)
  }

  ghost predicate Indexed(tasks: seq<Task>) {
    forall k {:trigger tasks[k]} :: 0 <= k < |tasks| ==>
      tasks[k].index == k && tasks[k].ids != [] &&
      tasks[k].startID == tasks[k].ids[0] && tasks[k].endID == tasks[k].ids[|tasks[k].ids| - 1]
  }

  // Progress of the cutting loop: tasks made so far and the uncut rest, from pos on.
  ghost predicate CutTo(tasks: seq<Task>, sampled: seq<int>, b: nat, pos: nat)
    requires b > 0
  {
    pos <= |sampled| && IdsOf(tasks) + Chunks(sampled[pos..], b) == Chunks(sampled, b) && Indexed(tasks)
  }

  lemma CutOne(tasks: seq<Task>, sampled: seq<int>, b: nat, pos: nat, end: nat, t: Task)
    requires b > 0 && CutTo(tasks, sampled, b, pos)
    requires pos < |sampled| && end == if pos + b > |sampled| then |sampled| else pos + b
    requires t.ids == sampled[pos..end] && t == Task(|tasks|, t.ids[0], t.ids[|t.ids| - 1], t.ids)
    ensures CutTo(tasks + [t], sampled, b, end)
  {
    ChunksStep(sampled, b, pos, end);
    MapAppend((t: Task) => t.ids, tasks, [t]);
    assert IdsOf(tasks + [t]) == IdsOf(tasks) + [t.ids];
  }

  // A plan hands out the sorted sample, all of it, in pieces of one to b ids.
  lemma PlanCoversSample(tasks: seq<Task>, sampled: seq<int>, b: nat)
    requires b > 0 && Planned(tasks, sampled, b)
    ensures Flatten(IdsOf(tasks)) == sampled
    ensures forall k :: 0 <= k < |tasks| ==> 1 <= |tasks[k].ids| <= b
    ensures forall k :: 0 <= k < |tasks| - 1 ==> |tasks[k].ids| == b
  {
    ChunksPartition(sampled, b);
    assert forall k :: 0 <= k < |tasks| ==> IdsOf(tasks)[k] == tasks[k].ids;
  }

  // Whether the last batch would start beyond the end of the sample.
  predicate RunsPast(total: nat, n: int, b: nat)
    requires b > 0
  {
    total < n && (BatchCount(n, b) - 1) * b > total
  }

  lemma TruncBounds(n: int, b: nat)
    requires b > 0
    ensures n >= 0 ==> 0 <= n - TruncDiv(n, b) * b < b
    ensures n < 0 ==> 0 <= TruncDiv(n, b) * b - n < b
  {
    if n >= 0 {
      assert n == n / b * b + n % b;
    } else {
      var k := (-n) / b;
      assert -n == k * b + (-n) % b;
      assert (-k) * b == -(k * b);
    }
  }

  lemma MultiplesAscend(k: int, b: nat)
    requires b > 0
    ensures (k - 1) * b == k * b - b && (k + 1) * b == k * b + b
    ensures k <= 0 <==> k * b <= 0
  {
  }

  // The batch count is the sample count over the batch size, rounded up.
  lemma BatchesOf(n: int, b: nat)
    requires b > 0
    ensures n <= 0 <==> BatchCount(n, b) <= 0
    ensures (BatchCount(n, b) - 1) * b < n <= BatchCount(n, b) * b
  {
    TruncBounds(n, b);
    MultiplesAscend(TruncDiv(n, b), b);
    MultiplesAscend(BatchCount(n, b), b);
    MultiplesAscend(BatchCount(n, b) - 1, b);
  }

  lemma BatchCountFits(total: nat, n: int, b: nat, len: nat)
    requires b > 0 && len == if n <= 0 then 0 else if total <= n then total else n
    ensures len > 0 ==> BatchCount(n, b) > 0 && len <= BatchCount(n, b) * b
    ensures BatchCount(n, b) > 0 && (BatchCount(n, b) - 1) * b > len <==> RunsPast(total, n, b)
  {
    BatchesOf(n, b);
  }

  lemma ShareOfRange(total: nat, rate: real)
    requires 0.0 < rate <= 1.0
    ensures (total as real * rate).Floor <= total
  {
    assert total as real * (1.0 - rate) >= 0.0;
    assert total as real * rate <= total as real;
  }

  // The slice leaves the sample only on ranges of at most eight ids cut into batches of
  // at most nine; elsewhere every job that has records is monitored.
  lemma RunsPastOnlyOnTinyRanges(total: nat, rate: real, totalRecords: int, b: nat)
    requires b > 0 && 0.0 < rate <= 1.0 && RunsPast(total, SampleCount(total, rate, totalRecords), b)
    ensures total <= 8 && b <= 9
  {
    ShareOfRange(total, rate);
    var n := SampleCount(total, rate, totalRecords);
    BatchesOf(n, b);
    assert (BatchCount(n, b) - 1) * b <= 9;
    AtLeastOnce(BatchCount(n, b) - 1, b);
  }

  // One id, a tenth of the range asked for, ten known records, batches of three: the
  // fourth batch would start at nine.
  lemma RunsPastHappens()
    ensures RunsPast(1, SampleCount(1, 0.1, 10), 3)
  {
    assert SampleCount(1, 0.1, 10) == 10;
    assert BatchCount(10, 3) == 4;
  }

  lemma AtLeastOnce(m: int, b: nat)
    requires m * b > 0
    ensures b <= m * b
  {
  }

  // The batch loop.  A start beyond the end of the sample is a slice out of bounds.
  method CutBatches(sampled: seq<int>, batchCount: int, batchSize: nat) returns (stopped: bool, tasks: seq<Task>)
    requires batchSize > 0 && (sampled != [] ==> batchCount > 0 && |sampled| <= batchCount * batchSize)
    ensures stopped <==> batchCount > 0 && (batchCount - 1) * batchSize > |sampled|
    ensures Planned(tasks, sampled, batchSize)
  {
    stopped, tasks := false, [];
    var i := 0;
    ghost var pos := 0;
    while i < batchCount
      invariant 0 <= i && (i <= batchCount || i == 0)
      invariant pos == if i * batchSize > |sampled| then |sampled| else i * batchSize
      invariant CutTo(tasks, sampled, batchSize, pos)
      invariant |tasks| == i || i * batchSize > |sampled|
      invariant i > 0 ==> (i - 1) * batchSize <= |sampled|
      decreases batchCount - i
    {
      var start := i * batchSize;
      var end := start + batchSize;
      assert (i + 1) * batchSize == end;
      if end > |sampled| {
        end := |sampled|;
      }
      if start > end {
        stopped := true;
        PastEnd(batchCount, batchSize, i);
        break;
      }
      var batchIDs := sampled[start..end];
      if |batchIDs| > 0 {
        var task := Task(i, batchIDs[0], batchIDs[|batchIDs| - 1], batchIDs);
        CutOne(tasks, sampled, batchSize, start, end, task);
        tasks := tasks + [task];
      }
      pos := end;
      i := i + 1;
    }
    assert pos == |sampled|;
    assert sampled[|sampled|..] == [];
  }

  lemma PastEnd(batchCount: int, b: nat, i: nat)
    requires i < batchCount
    ensures i * b <= (batchCount - 1) * b
  {
  }

  // dispatchAuditBatches up to the queue: the batches in the order they are appended.
  method PlanBatches(minID: int, maxID: int, totalRecords: int, batchSize: nat, rate: real, draws: seq<real>)
    returns (outcome: Outcome, sampleCount: int, sampled: seq<int>, tasks: seq<Task>)
    requires batchSize > 0 && 0.0 < rate <= 1.0 && Draws(draws)
    requires minID <= maxID ==> SampleCount(maxID - minID + 1, rate, totalRecords) <= |draws|
    ensures outcome == NoRecords <==> maxID < minID
    ensures outcome == NoRecords ==> tasks == []
    ensures outcome != NoRecords ==>
              var total, n := maxID - minID + 1, SampleCount(maxID - minID + 1, rate, totalRecords);
              && sampleCount == n && sampled == Sample(minID, total, n, draws)
              && Planned(tasks, sampled, batchSize)
              && (outcome == Stopped <==> RunsPast(total, n, batchSize))
  {
    outcome, sampleCount, sampled, tasks := NoRecords, 0, [], [];
    var totalRange := maxID - minID + 1;
    if totalRange <= 0 {
      return;
    }
    sampleCount := SampleCount(totalRange, rate, totalRecords);
    var batchCount := BatchCount(sampleCount, batchSize);
    var ids := SampleRecordIDs(minID, maxID, sampleCount, draws);
    SampleSorted(minID, totalRange, sampleCount, draws);
    IntOrder();
    SortOfSorted(IntLe, ids);
    sampled := Sort(IntLe, ids);
    BatchCountFits(totalRange, sampleCount, batchSize, |sampled|);
    var stopped;
    stopped, tasks := CutBatches(sampled, batchCount, batchSize);
    outcome := if stopped then Stopped else Monitored;
  }

  // The dispatch for the cold rows that there are when it starts; without one the job is
  // failed before anything is sampled.  lo and hi are the bounds of the cold ids.
  method DispatchBatches(db: SourceDB, coldDate: int, mapOrder: seq<int>, totalRecords: int, batchSize: nat,
                         rate: real, draws: seq<real>)
    returns (outcome: Outcome, sampleCount: int, sampled: seq<int>, tasks: seq<Task>, ghost lo: int, ghost hi: int)
    requires Keyed(db.data) && Enumerates(mapOrder, db.data.Keys)
    requires batchSize > 0 && 0.0 < rate <= 1.0 && Draws(draws)
    requires forall lo, hi :: ColdAt(db.data, coldDate, lo) && ColdAt(db.data, coldDate, hi) && lo <= hi ==>
               SampleCount(hi - lo + 1, rate, totalRecords) <= |draws|
    ensures outcome == NoRecords <==> forall id :: !ColdAt(db.data, coldDate, id)
    ensures outcome == NoRecords ==> tasks == []
    ensures outcome != NoRecords ==>
              && ColdAt(db.data, coldDate, lo) && ColdAt(db.data, coldDate, hi) && lo <= hi
              && forall id :: ColdAt(db.data, coldDate, id) ==> lo <= id <= hi
    ensures outcome != NoRecords ==>
              var total, n := hi - lo + 1, SampleCount(hi - lo + 1, rate, totalRecords);
              && sampleCount == n && sampled == Sample(lo, total, n, draws)
              && Planned(tasks, sampled, batchSize)
              && (outcome == Stopped <==> RunsPast(total, n, batchSize))
  {
    outcome, sampleCount, sampled, tasks, lo, hi := NoRecords, 0, [], [], 0, 0;
    var bounds := db.GetMinMaxID(coldDate, mapOrder);
    if bounds.None? {
      return;
    }
    lo, hi := bounds.value.0, bounds.value.1;
    outcome, sampleCount, sampled, tasks :=
      PlanBatches(bounds.value.0, bounds.value.1, totalRecords, batchSize, rate, draws);
  }
}
