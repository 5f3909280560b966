// The ring-buffer queue of pkg/queue: the shared fields and their atomic updates, every
// interleaving of P producers and C consumers, and the uninterrupted operations.

module RingQueue {
  import opened Sequences
  import opened Binary

  // ------------------------------------------------------- shared memory, one step each

  datatype Ring<T> = Ring(cap: nat, buffer: seq<Option<T>>, writePos: nat, readPos: nat, itemCount: int) {
    predicate Shape() { cap > 0 && |buffer| == cap }

    function Slot(pos: nat): (i: nat)
      requires Shape()
      ensures i < |buffer|
    {
      pos % cap
    }

    function AddWritePos(): Ring<T> { this.(writePos := writePos + 1) }
    function AddReadPos(): Ring<T> { this.(readPos := readPos + 1) }
    function AddItemCount(d: int): Ring<T> { this.(itemCount := itemCount + d) }

    function StoreSlot(pos: nat, v: Option<T>): Ring<T>
      requires Shape()
    {
      this.(buffer := buffer[Slot(pos) := v])
    }
  }

  function EmptyRing<T>(cap: nat): Ring<T> {
    Ring(cap, seq(cap, _ => None), 0, 0, 0)
  }

  // Where a goroutine stands between two atomic steps of Enqueue and of Dequeue.
  datatype Producer<T> =
    | PIdle
    | PChecked(item: T)
    | PSpin(item: T, pos: nat)
    | PStore(item: T, pos: nat)
    | PPublish(item: T, pos: nat)

  datatype Consumer<T> =
    | CIdle
    | CChecked
    | CSpin(pos: nat)
    | CRead(pos: nat)
    | CClear(pos: nat, got: Option<T>)
    | CRelease(got: Option<T>)

  // published: items in the order of their count increments.
  // returned: what Dequeue hands out with ok, in the order of the count decrements.
  datatype State<T> = State(
    ring: Ring<T>,
    producers: seq<Producer<T>>,
    consumers: seq<Consumer<T>>,
    published: seq<T>,
    returned: seq<Option<T>>)

  datatype Action<T> =
    | EnqueueLoad(p: nat, item: T)
    | ReserveWrite(p: nat)
    | SpinFull(p: nat)
    | Store(p: nat)
    | Publish(p: nat)
    | DequeueLoad(c: nat)
    | ReserveRead(c: nat)
    | SpinEmpty(c: nat)
    | Read(c: nat)
    | Clear(c: nat)
    | Release(c: nat)

  function Init<T>(cap: nat, P: nat, C: nat): State<T> {
    State(EmptyRing(cap), seq(P, _ => PIdle), seq(C, _ => CIdle), [], [])
  }

  predicate ProducerAction<T>(a: Action<T>) {
    a.EnqueueLoad? || a.ReserveWrite? || a.SpinFull? || a.Store? || a.Publish?
  }

  // One atomic step of one goroutine; None when it is not at that step.
  function Exec<T>(s: State<T>, a: Action<T>): Option<State<T>>
    requires s.ring.Shape()
  {
    if ProducerAction(a) then ExecProducer(s, a) else ExecConsumer(s, a)
  }

  function ExecProducer<T>(s: State<T>, a: Action<T>): Option<State<T>>
    requires s.ring.Shape() && ProducerAction(a)
  {
    if a.p >= |s.producers| then None
    else
      match (a, s.producers[a.p])
      case (EnqueueLoad(p, item), PIdle) =>
        // a full queue is refused: Enqueue returns false
        Some(if s.ring.itemCount >= s.ring.cap then s else s.(producers := s.producers[p := PChecked(item)]))
      case (ReserveWrite(p), PChecked(item)) =>
        Some(s.(ring := s.ring.AddWritePos(), producers := s.producers[p := PSpin(item, s.ring.writePos)]))
      case (SpinFull(p), PSpin(item, pos)) =>
        Some(if s.ring.itemCount >= s.ring.cap then s else s.(producers := s.producers[p := PStore(item, pos)]))
      case (Store(p), PStore(item, pos)) =>
        Some(s.(ring := s.ring.StoreSlot(pos, Some(item)), producers := s.producers[p := PPublish(item, pos)]))
      case (Publish(p), PPublish(item, pos)) =>
        Some(s.(ring := s.ring.AddItemCount(1), producers := s.producers[p := PIdle],
                published := s.published + [item]))
      case _ => None
  }

  function ExecConsumer<T>(s: State<T>, a: Action<T>): Option<State<T>>
    requires s.ring.Shape() && !ProducerAction(a)
  {
    if a.c >= |s.consumers| then None
    else
      match (a, s.consumers[a.c])
      case (DequeueLoad(c), CIdle) =>
        // an empty queue is refused: Dequeue returns (nil, false)
        Some(if s.ring.itemCount <= 0 then s else s.(consumers := s.consumers[c := CChecked]))
      case (ReserveRead(c), CChecked) =>
        Some(s.(ring := s.ring.AddReadPos(), consumers := s.consumers[c := CSpin(s.ring.readPos)]))
      case (SpinEmpty(c), CSpin(pos)) =>
        Some(if s.ring.itemCount <= 0 then s else s.(consumers := s.consumers[c := CRead(pos)]))
      case (Read(c), CRead(pos)) =>
        Some(s.(consumers := s.consumers[c := CClear(pos, s.ring.buffer[s.ring.Slot(pos)])]))
      case (Clear(c), CClear(pos, got)) =>
        Some(s.(ring := s.ring.StoreSlot(pos, None), consumers := s.consumers[c := CRelease(got)]))
      case (Release(c), CRelease(got)) =>
        Some(s.(ring := s.ring.AddItemCount(-1), consumers := s.consumers[c := CIdle], returned := s.returned + [got]))
      case _ => None
  }

  lemma ExecKeepsShape<T>(s: State<T>, a: Action<T>)
    requires s.ring.Shape()
    ensures Exec(s, a).Some? ==> Exec(s, a).value.ring.Shape() && Exec(s, a).value.ring.cap == s.ring.cap
  {
  }

  // The state after a sequence of steps, None if some step was not enabled.
  function Run<T>(s: State<T>, acts: seq<Action<T>>): (r: Option<State<T>>)
    requires s.ring.Shape()
    ensures r.Some? ==> r.value.ring.Shape()
  {
    if acts == [] then Some(s)
    else
      match Run(s, acts[..|acts| - 1])
      case None => None
      case Some(t) => ExecKeepsShape(t, acts[|acts| - 1]); Exec(t, acts[|acts| - 1])
  }

  ghost predicate Reachable<T(!new)>(init: State<T>, s: State<T>) {
    init.ring.Shape() && exists acts :: Run(init, acts) == Some(s)
  }

  lemma ReachStep<T(!new)>(init: State<T>, s: State<T>, a: Action<T>)
    requires Reachable(init, s) && s.ring.Shape() && Exec(s, a).Some?
    ensures Reachable(init, Exec(s, a).value)
  {
    var acts :| Run(init, acts) == Some(s);
    assert (acts + [a])[..|acts|] == acts;
    assert Run(init, acts + [a]) == Exec(s, a);
  }

  // ------------------------------------------------ any number of producers and consumers

  predicate Writing<T>(p: Producer<T>) { p.PSpin? || p.PStore? || p.PPublish? }
  predicate PastFull<T>(p: Producer<T>) { p.PStore? || p.PPublish? }
  predicate Reading<T>(c: Consumer<T>) { !c.CIdle? && !c.CChecked? }
  predicate PastEmpty<T>(c: Consumer<T>) { c.CRead? || c.CClear? || c.CRelease? }

  // Accounting: completed operations, operations in flight, and the bound that each
  // operation past its spin may still add to or take from the count.
  ghost predicate Accounts<T>(s: State<T>) {
    && s.ring.Shape()
    && s.ring.itemCount == |s.published| - |s.returned|
    && s.ring.writePos == |s.published| + Count(Writing, s.producers)
    && s.ring.readPos == |s.returned| + Count(Reading, s.consumers)
    && s.ring.itemCount + Count(PastFull, s.producers) <= s.ring.cap + |s.producers| - 1
    && s.ring.itemCount - Count(PastEmpty, s.consumers) >= 1 - |s.consumers|
  }

  lemma NotAll<T>(p: T -> bool, s: seq<T>, i: nat)
    requires i < |s| && !p(s[i])
    ensures Count(p, s) < |s|
  {
    CountExtremes(p, s);
  }

  lemma ProducerAccounts<T>(s: State<T>, a: Action<T>)
    requires Accounts(s) && ProducerAction(a) && Exec(s, a).Some?
    ensures Accounts(Exec(s, a).value)
  {
    var x := Exec(s, a).value.producers[a.p];
    CountUpdate(Writing, s.producers, a.p, x);
    CountUpdate(PastFull, s.producers, a.p, x);
    if a.SpinFull? {
      NotAll(PastFull, s.producers, a.p);
    }
    if Exec(s, a).value.producers == s.producers {
      assert s.producers[a.p := x] == s.producers;
    }
  }

  lemma ConsumerAccounts<T>(s: State<T>, a: Action<T>)
    requires Accounts(s) && !ProducerAction(a) && Exec(s, a).Some?
    ensures Accounts(Exec(s, a).value)
  {
    var x := Exec(s, a).value.consumers[a.c];
    CountUpdate(Reading, s.consumers, a.c, x);
    CountUpdate(PastEmpty, s.consumers, a.c, x);
    if a.SpinEmpty? {
      NotAll(PastEmpty, s.consumers, a.c);
    }
    if Exec(s, a).value.consumers == s.consumers {
      assert s.consumers[a.c := x] == s.consumers;
    }
  }

  lemma {:induction false} CountNone<T>(p: T -> bool, s: seq<T>)
    requires forall i :: 0 <= i < |s| ==> !p(s[i])
    ensures Count(p, s) == 0
  {
    CountExtremes(p, s);
  }

  lemma InitAccounts<T>(cap: nat, P: nat, C: nat)
    requires cap >= 1 && P >= 1 && C >= 1
    ensures Accounts<T>(Init(cap, P, C))
  {
    var s: State<T> := Init(cap, P, C);
    CountNone(Writing, s.producers);
    CountNone(PastFull, s.producers);
    CountNone(Reading, s.consumers);
    CountNone(PastEmpty, s.consumers);
  }

  lemma StepAccounts<T>(s: State<T>, a: Action<T>)
    requires Accounts(s) && Exec(s, a).Some?
    ensures var t := Exec(s, a).value;
            Accounts(t) && t.ring.cap == s.ring.cap && |t.producers| == |s.producers| && |t.consumers| == |s.consumers|
  {
    if ProducerAction(a) {
      ProducerAccounts(s, a);
    } else {
      ConsumerAccounts(s, a);
    }
  }

  lemma {:induction false} RunAccounts<T>(cap: nat, P: nat, C: nat, acts: seq<Action<T>>, s: State<T>)
    requires cap >= 1 && P >= 1 && C >= 1 && Run(Init(cap, P, C), acts) == Some(s)
    ensures Accounts(s) && s.ring.cap == cap && |s.producers| == P && |s.consumers| == C
  {
    if acts == [] {
      InitAccounts<T>(cap, P, C);
    } else {
      var t := Run(Init(cap, P, C), acts[..|acts| - 1]).value;
      RunAccounts(cap, P, C, acts[..|acts| - 1], t);
      StepAccounts(t, acts[|acts| - 1]);
    }
  }

  // In every interleaving the count is completed enqueues minus completed dequeues and
  // stays between 1 - C and capacity + P - 1.
  lemma ItemCountBounds<T>(cap: nat, P: nat, C: nat, acts: seq<Action<T>>, s: State<T>)
    requires cap >= 1 && P >= 1 && C >= 1 && Run(Init(cap, P, C), acts) == Some(s)
    ensures s.ring.itemCount == |s.published| - |s.returned|
    ensures 1 - C <= s.ring.itemCount <= cap + P - 1
  {
    RunAccounts(cap, P, C, acts, s);
  }

  // -------------------------------------------------- one producer and one consumer

  // What Dequeue has handed out is what was published, from the front, in order.
  ghost predicate Fifo<T>(s: State<T>) {
    |s.returned| <= |s.published| && s.returned == Map(x => Some(x), s.published[..|s.returned|])
  }

  // The queue as its two users see it.
  function Contents<T>(s: State<T>): seq<T>
    requires |s.returned| <= |s.published|
  {
    s.published[|s.returned|..]
  }

  // From this position on the slots hold the published items that were not yet cleared.
  function FirstFull<T>(s: State<T>): nat
    requires |s.consumers| == 1
  {
    |s.returned| + Bit(s.consumers[0].CRelease?)
  }

  ghost predicate SlotsHold<T>(s: State<T>)
    requires s.ring.Shape() && |s.consumers| == 1
  {
    forall j {:trigger s.published[j]} :: FirstFull(s) <= j < |s.published| ==>
      s.ring.buffer[s.ring.Slot(j)] == Some(s.published[j])
  }

  ghost predicate Spsc<T>(s: State<T>) {
    && s.ring.Shape() && |s.producers| == 1 && |s.consumers| == 1
    && Fifo(s)
    && s.ring.itemCount == |s.published| - |s.returned| <= s.ring.cap
    && ProducerOk(s) && ConsumerOk(s) && SlotsHold(s)
  }

  ghost predicate ProducerOk<T>(s: State<T>)
    requires s.ring.Shape() && |s.producers| == 1
  {
    var p, n := s.producers[0], |s.published|;
    && s.ring.writePos == n + Bit(Writing(p))
    && (p.PSpin? || p.PStore? || p.PPublish? ==> p.pos == n)
    && (!p.PIdle? ==> s.ring.itemCount < s.ring.cap)
    && (p.PPublish? ==> s.ring.buffer[s.ring.Slot(n)] == Some(p.item))
  }

  ghost predicate ConsumerOk<T>(s: State<T>)
    requires s.ring.Shape() && |s.consumers| == 1
  {
    var c, m := s.consumers[0], |s.returned|;
    && s.ring.readPos == m + Bit(Reading(c))
    && (!c.CIdle? ==> m < |s.published|)
    && (c.CSpin? || c.CRead? || c.CClear? ==> c.pos == m)
    && (c.CClear? || c.CRelease? ==> m < |s.published| && c.got == Some(s.published[m]))
  }

  lemma StoreKeepsUnread<T>(s: State<T>)
    requires Spsc(s) && s.producers[0].PStore?
    ensures Spsc(Exec(s, Store(0)).value)
  {
    var t := Exec(s, Store(0)).value;
    var n := |s.published|;
    forall j | FirstFull(t) <= j < |t.published|
      ensures t.ring.buffer[t.ring.Slot(j)] == Some(t.published[j])
    {
      ResiduesDiffer(j, n, s.ring.cap);
      assert s.ring.buffer[s.ring.Slot(j)] == Some(s.published[j]);
    }
  }

  lemma PublishKeepsSlots<T>(s: State<T>)
    requires Spsc(s) && s.producers[0].PPublish?
    ensures Spsc(Exec(s, Publish(0)).value)
  {
    var t := Exec(s, Publish(0)).value;
    forall j | FirstFull(t) <= j < |t.published|
      ensures t.ring.buffer[t.ring.Slot(j)] == Some(t.published[j])
    {
      if j < |s.published| {
        assert s.ring.buffer[s.ring.Slot(j)] == Some(s.published[j]);
      }
    }
    assert t.published[..|t.returned|] == s.published[..|s.returned|];
  }

  lemma ReadSeesFront<T>(s: State<T>)
    requires Spsc(s) && s.consumers[0].CRead?
    ensures Spsc(Exec(s, Read(0)).value)
  {
    var m := |s.returned|;
    assert s.ring.buffer[s.ring.Slot(m)] == Some(s.published[m]);
    var t := Exec(s, Read(0)).value;
    assert SlotsHold(t);
  }

  lemma ClearKeepsRest<T>(s: State<T>)
    requires Spsc(s) && s.consumers[0].CClear?
    ensures Spsc(Exec(s, Clear(0)).value)
  {
    var t := Exec(s, Clear(0)).value;
    var m := |s.returned|;
    forall j | FirstFull(t) <= j < |t.published|
      ensures t.ring.buffer[t.ring.Slot(j)] == Some(t.published[j])
    {
      ResiduesDiffer(m, j, s.ring.cap);
      assert s.ring.buffer[s.ring.Slot(j)] == Some(s.published[j]);
    }
    if s.producers[0].PPublish? {
      ResiduesDiffer(m, |s.published|, s.ring.cap);
    }
  }

  lemma ReleaseTakesFront<T>(s: State<T>)
    requires Spsc(s) && s.consumers[0].CRelease?
    ensures Spsc(Exec(s, Release(0)).value)
  {
    var t := Exec(s, Release(0)).value;
    var m := |s.returned|;
    assert SlotsHold(t);
    var f := (x: T) => Some(x);
    assert s.published[..m + 1] == s.published[..m] + [s.published[m]];
    assert t.returned == Map(x => Some(x), t.published[..m + 1]);
  }

  lemma OtherKeepsSlots<T>(s: State<T>, a: Action<T>)
    requires Spsc(s) && Exec(s, a).Some?
    requires !a.Store? && !a.Publish? && !a.Read? && !a.Clear? && !a.Release?
    ensures Spsc(Exec(s, a).value)
  {
    var t := Exec(s, a).value;
    assert SlotsHold(t);
  }

  lemma SpscStep<T>(s: State<T>, a: Action<T>)
    requires Spsc(s) && Exec(s, a).Some?
    ensures Spsc(Exec(s, a).value)
  {
    match a
    case Store(_) => StoreKeepsUnread(s);
    case Publish(_) => PublishKeepsSlots(s);
    case Read(_) => ReadSeesFront(s);
    case Clear(_) => ClearKeepsRest(s);
    case Release(_) => ReleaseTakesFront(s);
    case _ => OtherKeepsSlots(s, a);
  }

  lemma {:induction false} SpscRun<T>(cap: nat, acts: seq<Action<T>>, s: State<T>)
    requires cap >= 1 && Run(Init(cap, 1, 1), acts) == Some(s)
    ensures Spsc(s) && s.ring.cap == cap
  {
    if acts != [] {
      var t := Run(Init(cap, 1, 1), acts[..|acts| - 1]).value;
      SpscRun(cap, acts[..|acts| - 1], t);
      SpscStep(t, acts[|acts| - 1]);
      ExecKeepsShape(t, acts[|acts| - 1]);
    }
  }

  lemma StepRefines<T>(s: State<T>, a: Action<T>, t: State<T>)
    requires Spsc(s) && Spsc(t) && Exec(s, a) == Some(t)
    ensures a.Publish? ==>
              s.producers[0].PPublish? && |Contents(s)| < s.ring.cap
                && Contents(t) == Contents(s) + [s.producers[0].item]
    ensures a.Release? ==> Contents(s) == [t.published[|s.returned|]] + Contents(t)
                           && t.returned == s.returned + [Some(t.published[|s.returned|])]
    ensures !a.Publish? && !a.Release? ==> Contents(t) == Contents(s)
  {
  }

  lemma RefusalsAndSpins<T>(s: State<T>, a: Action<T>, t: State<T>)
    requires Spsc(s) && Exec(s, a) == Some(t)
    ensures a.EnqueueLoad? ==> (t == s <==> |Contents(s)| == s.ring.cap)
    ensures a.DequeueLoad? ==> (t == s <==> Contents(s) == [])
    ensures a.SpinFull? || a.SpinEmpty? ==> t != s
  {
  }

  // Every step of a run with one producer and one consumer is a step of a bounded FIFO
  // or leaves the FIFO alone; refusals happen only when it is full or empty; and neither
  // side ever has to spin.
  lemma SpscRefinesFifo<T>(cap: nat, acts: seq<Action<T>>, s: State<T>, a: Action<T>, t: State<T>)
    requires cap >= 1 && Run(Init(cap, 1, 1), acts) == Some(s) && Exec(s, a) == Some(t)
    ensures Fifo(s) && Fifo(t) && |Contents(s)| <= cap
    ensures a.Publish? ==>
              s.producers[0].PPublish? && |Contents(s)| < cap && Contents(t) == Contents(s) + [s.producers[0].item]
    ensures a.Release? ==> Contents(s) == [t.published[|s.returned|]] + Contents(t)
                           && t.returned == s.returned + [Some(t.published[|s.returned|])]
    ensures !a.Publish? && !a.Release? ==> Contents(t) == Contents(s)
    ensures a.EnqueueLoad? ==> (t == s <==> |Contents(s)| == cap)
    ensures a.DequeueLoad? ==> (t == s <==> Contents(s) == [])
    ensures a.SpinFull? || a.SpinEmpty? ==> t != s
  {
    SpscRun(cap, acts, s);
    SpscStep(s, a);
    StepRefines(s, a, t);
    RefusalsAndSpins(s, a, t);
  }

  // ---- slots that are given back

  // The slots outside the queue keep no item: from here to one round later all are empty.
  function Behind<T>(s: State<T>): nat
    requires |s.producers| == 1
  {
    |s.published| + Bit(s.producers[0].PPublish?)
  }

  ghost predicate SlotsFree<T>(s: State<T>)
    requires s.ring.Shape() && |s.producers| == 1 && |s.consumers| == 1
  {
    forall pos {:trigger s.ring.Slot(pos)} :: Behind(s) <= pos < FirstFull(s) + s.ring.cap ==>
      s.ring.buffer[s.ring.Slot(pos)] == None
  }

  lemma NextRound(pos: nat, cap: nat)
    requires cap > 0
    ensures (pos + cap) % cap == pos % cap
  {
    var q, r := pos / cap, pos % cap;
    var q', r' := (pos + cap) / cap, (pos + cap) % cap;
    assert q * cap + r + cap == q' * cap + r';
    var d := q' - q - 1;
    assert d * cap == q' * cap - q * cap - cap == r - r';
    assert -d * cap == -(d * cap);
    if d >= 1 {
      MultipleIsLarge(d, cap);
    } else if d <= -1 {
      MultipleIsLarge(-d, cap);
    }
  }

  lemma StoreKeepsFree<T>(s: State<T>, t: State<T>)
    requires Spsc(s) && SlotsFree(s) && s.producers[0].PStore? && Exec(s, Store(0)) == Some(t)
    ensures Spsc(t) && SlotsFree(t)
  {
    StoreKeepsUnread(s);
    var n := |s.published|;
    forall pos | Behind(t) <= pos < FirstFull(t) + t.ring.cap
      ensures t.ring.buffer[t.ring.Slot(pos)] == None
    {
      ResiduesDiffer(n, pos, s.ring.cap);
      assert s.ring.buffer[s.ring.Slot(pos)] == None;
    }
  }

  lemma ClearFrees<T>(s: State<T>, t: State<T>)
    requires Spsc(s) && SlotsFree(s) && s.consumers[0].CClear? && Exec(s, Clear(0)) == Some(t)
    ensures Spsc(t) && SlotsFree(t)
  {
    ClearKeepsRest(s);
    var m := |s.returned|;
    NextRound(m, s.ring.cap);
    forall pos | Behind(t) <= pos < FirstFull(t) + t.ring.cap
      ensures t.ring.buffer[t.ring.Slot(pos)] == None
    {
      if pos < FirstFull(s) + s.ring.cap {
        assert s.ring.buffer[s.ring.Slot(pos)] == None;
      }
    }
  }

  lemma OtherKeepsFree<T>(s: State<T>, a: Action<T>, t: State<T>)
    requires Spsc(s) && SlotsFree(s) && Exec(s, a) == Some(t) && !a.Store? && !a.Clear?
    ensures Spsc(t) && SlotsFree(t)
  {
    SpscStep(s, a);
    assert t.ring.buffer == s.ring.buffer && t.ring.cap == s.ring.cap;
    assert Behind(t) == Behind(s) && FirstFull(t) == FirstFull(s);
    forall pos | Behind(t) <= pos < FirstFull(t) + t.ring.cap
      ensures t.ring.buffer[t.ring.Slot(pos)] == None
    {
      assert s.ring.buffer[s.ring.Slot(pos)] == None;
    }
  }

  lemma {:induction false} FreeRun<T>(cap: nat, acts: seq<Action<T>>, s: State<T>)
    requires cap >= 1 && Run(Init(cap, 1, 1), acts) == Some(s)
    ensures Spsc(s) && SlotsFree(s) && s.ring.cap == cap
  {
    SpscRun(cap, acts, s);
    if acts != [] {
      var t, a := Run(Init(cap, 1, 1), acts[..|acts| - 1]).value, acts[|acts| - 1];
      FreeRun(cap, acts[..|acts| - 1], t);
      match a
      case Store(_) => StoreKeepsFree(t, s);
      case Clear(_) => ClearFrees(t, s);
      case _ => OtherKeepsFree(t, a, s);
    }
  }

  // In every run with one producer and one consumer, while both are idle, a slot that holds
  // no item of the queue is empty: what was handed out is not kept alive.
  lemma NothingKeptBehind<T>(cap: nat, acts: seq<Action<T>>, s: State<T>, pos: nat)
    requires cap >= 1 && Run(Init(cap, 1, 1), acts) == Some(s)
    requires s.producers == [PIdle] && s.consumers == [CIdle]
    requires |s.published| <= pos < |s.returned| + cap
    ensures pos % cap < |s.ring.buffer| && s.ring.buffer[pos % cap] == None
  {
    FreeRun(cap, acts, s);
    assert s.ring.buffer[s.ring.Slot(pos)] == None;
  }

  // ------------------------------------------ more than one producer or consumer

  // The schedules below are built from these blocks.  EnterEnqueue: producer p passes
  // both checks of Enqueue and holds position writePos.
  lemma EnterEnqueue<T(!new)>(i: State<T>, s: State<T>, p: nat, x: T) returns (t: State<T>)
    requires Reachable(i, s) && s.ring.Shape() && s.ring.itemCount < s.ring.cap
    requires p < |s.producers| && s.producers[p].PIdle?
    ensures Reachable(i, t)
    ensures t == s.(ring := s.ring.AddWritePos(), producers := s.producers[p := PStore(x, s.ring.writePos)])
  {
    ReachStep(i, s, EnqueueLoad(p, x));
    var s1 := Exec(s, EnqueueLoad(p, x)).value;
    assert s1 == s.(producers := s.producers[p := PChecked(x)]);
    ReachStep(i, s1, ReserveWrite(p));
    var s2 := Exec(s1, ReserveWrite(p)).value;
    assert s2.producers == s.producers[p := PSpin(x, s.ring.writePos)];
    ReachStep(i, s2, SpinFull(p));
    t := Exec(s2, SpinFull(p)).value;
    assert t.producers == s.producers[p := PStore(x, s.ring.writePos)];
  }

  // EnterDequeue: consumer c passes both checks of Dequeue and holds position readPos.
  lemma EnterDequeue<T(!new)>(i: State<T>, s: State<T>, c: nat) returns (t: State<T>)
    requires Reachable(i, s) && s.ring.Shape() && s.ring.itemCount > 0
    requires c < |s.consumers| && s.consumers[c].CIdle?
    ensures Reachable(i, t)
    ensures t == s.(ring := s.ring.AddReadPos(), consumers := s.consumers[c := CRead(s.ring.readPos)])
  {
    ReachStep(i, s, DequeueLoad(c));
    var s1 := Exec(s, DequeueLoad(c)).value;
    assert s1 == s.(consumers := s.consumers[c := CChecked]);
    ReachStep(i, s1, ReserveRead(c));
    var s2 := Exec(s1, ReserveRead(c)).value;
    assert s2.consumers == s.consumers[c := CSpin(s.ring.readPos)];
    ReachStep(i, s2, SpinEmpty(c));
    t := Exec(s2, SpinEmpty(c)).value;
    assert t.consumers == s.consumers[c := CRead(s.ring.readPos)];
  }

  // FinishDequeue: consumer c, which has read its slot, clears it and returns.
  lemma FinishDequeue<T(!new)>(i: State<T>, s: State<T>, c: nat) returns (t: State<T>)
    requires Reachable(i, s) && s.ring.Shape() && c < |s.consumers| && s.consumers[c].CClear?
    ensures Reachable(i, t) && t.ring.Shape()
    ensures t.published == s.published && t.returned == s.returned + [s.consumers[c].got]
    ensures |t.consumers| == |s.consumers| && forall d :: 0 <= d < |s.consumers| && d != c ==>
              t.consumers[d] == s.consumers[d]
  {
    ReachStep(i, s, Clear(c));
    var s1 := Exec(s, Clear(c)).value;
    ReachStep(i, s1, Release(c));
    t := Exec(s1, Release(c)).value;
  }

  lemma SmallSlots(cap: nat)
    requires cap >= 1
    ensures 0 % cap == 0 && 1 % cap == (if cap == 1 then 0 else 1)
  {
  }

  // Two producers hold positions 0 and 1 of an empty queue.
  lemma BothProducersIn<T(!new)>(cap: nat, P: nat, C: nat, x: T, y: T) returns (t: State<T>)
    requires cap >= 1 && P >= 2 && C >= 1
    ensures Reachable(Init(cap, P, C), t) && t.ring.Shape() && t.ring == EmptyRing(cap).(writePos := 2)
    ensures |t.producers| == P && t.producers[0] == PStore(x, 0) && t.producers[1] == PStore(y, 1)
    ensures |t.consumers| == C && t.consumers[0].CIdle? && t.published == [] && t.returned == []
  {
    var i: State<T> := Init(cap, P, C);
    assert Run(i, []) == Some(i);
    var s := EnterEnqueue(i, i, 0, x);
    t := EnterEnqueue(i, s, 1, y);
  }

  // Consumer 0 dequeues whatever slot 0 holds.
  lemma DequeueSlotZero<T(!new)>(i: State<T>, s: State<T>) returns (t: State<T>)
    requires Reachable(i, s) && s.ring.Shape() && s.ring.itemCount == 1 && s.ring.readPos == 0
    requires |s.consumers| >= 1 && s.consumers[0].CIdle?
    ensures Reachable(i, t) && t.published == s.published && t.returned == s.returned + [s.ring.buffer[0]]
  {
    SmallSlots(s.ring.cap);
    var s1 := EnterDequeue(i, s, 0);
    ReachStep(i, s1, Read(0));
    var s2 := Exec(s1, Read(0)).value;
    t := FinishDequeue(i, s2, 0);
  }

  // Two producers, one slot: the second store replaces the first item.
  lemma OverwrittenItem<T(!new)>(P: nat, C: nat, x: T, y: T) returns (t: State<T>)
    requires P >= 2 && C >= 1
    ensures Reachable(Init(1, P, C), t) && t.published == [x] && t.returned == [Some(y)]
  {
    var i: State<T> := Init(1, P, C);
    SmallSlots(1);
    var s := BothProducersIn(1, P, C, x, y);
    ReachStep(i, s, Store(0));
    var s1 := Exec(s, Store(0)).value;
    ReachStep(i, s1, Store(1));
    var s2 := Exec(s1, Store(1)).value;
    ReachStep(i, s2, Publish(0));
    var s3 := Exec(s2, Publish(0)).value;
    assert s3.ring.buffer[0] == Some(y);
    t := DequeueSlotZero(i, s3);
  }

  // Two producers, several slots: slot 1 is published before slot 0 is filled.
  lemma HoleRead<T(!new)>(cap: nat, P: nat, C: nat, x: T, y: T) returns (t: State<T>)
    requires cap >= 2 && P >= 2 && C >= 1
    ensures Reachable(Init(cap, P, C), t) && t.published == [y] && t.returned == [None]
  {
    var i: State<T> := Init(cap, P, C);
    SmallSlots(cap);
    var s := BothProducersIn(cap, P, C, x, y);
    ReachStep(i, s, Store(1));
    var s1 := Exec(s, Store(1)).value;
    ReachStep(i, s1, Publish(1));
    var s2 := Exec(s1, Publish(1)).value;
    assert s2.ring.buffer[0] == None;
    t := DequeueSlotZero(i, s2);
  }

  // Two producers: with one slot the second store replaces the first item, with more a slot
  // is handed out that nobody has filled.
  lemma TwoProducersBreakFifo<T(!new)>(cap: nat, P: nat, C: nat, x: T, y: T)
    requires cap >= 1 && P >= 2 && C >= 1 && x != y
    ensures exists s: State<T> ::
              && Reachable(Init(cap, P, C), s) && !Fifo(s)
              && (if cap == 1 then s.published == [x] && s.returned == [Some(y)]
                     else s.published == [y] && s.returned == [None])
  {
    if cap == 1 {
      var t := OverwrittenItem(P, C, x, y);
      assert t.published[..1] == [x] && !Fifo(t);
    } else {
      var t := HoleRead(cap, P, C, x, y);
      assert t.published[..1] == [y] && !Fifo(t);
    }
  }

  // One item published and two consumers holding positions 0 and 1.
  lemma BothConsumersIn<T(!new)>(cap: nat, P: nat, C: nat, x: T) returns (t: State<T>)
    requires cap >= 1 && P >= 1 && C >= 2
    ensures Reachable(Init(cap, P, C), t) && t.ring.Shape() && t.published == [x] && t.returned == []
    ensures |t.consumers| == C && t.consumers[0] == CRead(0) && t.consumers[1] == CRead(1)
  {
    var i: State<T> := Init(cap, P, C);
    assert Run(i, []) == Some(i);
    var s := EnterEnqueue(i, i, 0, x);
    ReachStep(i, s, Store(0));
    s := Exec(s, Store(0)).value;
    ReachStep(i, s, Publish(0));
    s := Exec(s, Publish(0)).value;
    s := EnterDequeue(i, s, 0);
    t := EnterDequeue(i, s, 1);
  }

  // Two consumers that both saw the one item: two results for it.
  lemma TwoConsumersBreakFifo<T(!new)>(cap: nat, P: nat, C: nat, x: T)
    requires cap >= 1 && P >= 1 && C >= 2
    ensures exists s: State<T> ::
              Reachable(Init(cap, P, C), s) && !Fifo(s) && s.published == [x] && |s.returned| == 2
  {
    var i: State<T> := Init(cap, P, C);
    var s := BothConsumersIn(cap, P, C, x);
    ReachStep(i, s, Read(0));
    s := Exec(s, Read(0)).value;
    ReachStep(i, s, Read(1));
    s := Exec(s, Read(1)).value;
    s := FinishDequeue(i, s, 0);
    var t := FinishDequeue(i, s, 1);
    assert |t.returned| == 2 && |t.published| == 1;
    assert !Fifo(t);
  }

  // The queue is a FIFO in every interleaving exactly for one producer and one consumer.
  lemma FifoExactlyForOneAndOne<T(!new)>(cap: nat, P: nat, C: nat, x: T, y: T)
    requires cap >= 1 && P >= 1 && C >= 1 && x != y
    ensures (forall s: State<T> :: Reachable(Init(cap, P, C), s) ==> Fifo(s)) <==> P == 1 && C == 1
  {
    if P == 1 && C == 1 {
      forall s: State<T> | Reachable(Init(cap, P, C), s)
        ensures Fifo(s)
      {
        var acts :| Run(Init(cap, 1, 1), acts) == Some(s);
        SpscRun(cap, acts, s);
      }
    } else if P >= 2 {
      TwoProducersBreakFifo(cap, P, C, x, y);
    } else {
      TwoConsumersBreakFifo(cap, P, C, x);
    }
  }

  // ------------------------------------------------------- the count bounds are attained

  // Producer 0 enqueues one item with nobody in between.
  lemma EnqueueOne<T(!new)>(i: State<T>, s: State<T>, x: T) returns (t: State<T>)
    requires Reachable(i, s) && s.ring.Shape() && s.ring.itemCount < s.ring.cap && |s.producers| >= 1
    requires s.producers[0].PIdle?
    ensures Reachable(i, t) && t.ring.Shape() && t.ring.cap == s.ring.cap && t.ring.itemCount == s.ring.itemCount + 1
    ensures t.producers == s.producers && t.consumers == s.consumers
  {
    var s1 := EnterEnqueue(i, s, 0, x);
    t := StoreAndPublish(i, s1, 0);
    assert t.producers == s.producers;
  }

  lemma StoreAndPublish<T(!new)>(i: State<T>, s: State<T>, p: nat) returns (t: State<T>)
    requires Reachable(i, s) && s.ring.Shape() && p < |s.producers| && s.producers[p].PStore?
    ensures Reachable(i, t) && t.ring.Shape() && t.ring.cap == s.ring.cap && t.ring.itemCount == s.ring.itemCount + 1
    ensures t.producers == s.producers[p := PIdle] && t.consumers == s.consumers
  {
    ReachStep(i, s, Store(p));
    var s1 := Exec(s, Store(p)).value;
    ReachStep(i, s1, Publish(p));
    t := Exec(s1, Publish(p)).value;
    assert t.producers == s.producers[p := PIdle];
  }

  // Items are enqueued one by one until n are there.
  lemma {:induction false} FillUp<T(!new)>(i: State<T>, s: State<T>, x: T, n: nat) returns (t: State<T>)
    requires Reachable(i, s) && s.ring.Shape() && s.ring.itemCount <= n <= s.ring.cap
    requires |s.producers| >= 1 && s.producers[0].PIdle?
    ensures Reachable(i, t) && t.ring.Shape() && t.ring.cap == s.ring.cap && t.ring.itemCount == n
    ensures t.producers == s.producers && t.consumers == s.consumers
    decreases n - s.ring.itemCount
  {
    if s.ring.itemCount == n {
      t := s;
    } else {
      var s1 := EnqueueOne(i, s, x);
      t := FillUp(i, s1, x, n);
    }
  }

  // The producers from k on are idle, those before have passed both checks.
  predicate InUpTo<T>(ps: seq<Producer<T>>, k: nat) {
    forall p :: 0 <= p < |ps| ==> if p < k then ps[p].PStore? else ps[p].PIdle?
  }

  lemma {:induction false} AllEnter<T(!new)>(i: State<T>, s: State<T>, x: T, k: nat) returns (t: State<T>)
    requires Reachable(i, s) && s.ring.Shape() && s.ring.itemCount < s.ring.cap && k <= |s.producers|
    requires InUpTo(s.producers, k)
    ensures Reachable(i, t) && t.ring.Shape() && t.ring.cap == s.ring.cap && t.ring.itemCount == s.ring.itemCount
    ensures |t.producers| == |s.producers| && InUpTo(t.producers, |t.producers|)
    decreases |s.producers| - k
  {
    if k == |s.producers| {
      t := s;
    } else {
      var s1 := EnterEnqueue(i, s, k, x);
      t := AllEnter(i, s1, x, k + 1);
    }
  }

  lemma {:induction false} AllPublish<T(!new)>(i: State<T>, s: State<T>, k: nat) returns (t: State<T>)
    requires Reachable(i, s) && s.ring.Shape() && k <= |s.producers| && forall p :: 0 <= p < k ==>
               s.producers[p].PStore?
    ensures Reachable(i, t) && t.ring.itemCount == s.ring.itemCount + k
    decreases k
  {
    if k == 0 {
      t := s;
    } else {
      var s1 := StoreAndPublish(i, s, k - 1);
      t := AllPublish(i, s1, k - 1);
    }
  }

  lemma {:induction false} AllDequeueChecked<T(!new)>(i: State<T>, s: State<T>, k: nat) returns (t: State<T>)
    requires Reachable(i, s) && s.ring.Shape() && s.ring.itemCount > 0 && k <= |s.consumers|
    requires forall c :: 0 <= c < |s.consumers| ==> if c < k then s.consumers[c].CRead? else s.consumers[c].CIdle?
    ensures Reachable(i, t) && t.ring.Shape() && t.ring.itemCount == s.ring.itemCount
    ensures |t.consumers| == |s.consumers| && forall c :: 0 <= c < |t.consumers| ==> t.consumers[c].CRead?
    decreases |s.consumers| - k
  {
    if k == |s.consumers| {
      t := s;
    } else {
      var s1 := EnterDequeue(i, s, k);
      t := AllDequeueChecked(i, s1, k + 1);
    }
  }

  lemma ReadAndRelease<T(!new)>(i: State<T>, s: State<T>, c: nat) returns (t: State<T>)
    requires Reachable(i, s) && s.ring.Shape() && c < |s.consumers| && s.consumers[c].CRead?
    ensures Reachable(i, t) && t.ring.Shape() && t.ring.itemCount == s.ring.itemCount - 1
    ensures t.consumers == s.consumers[c := CIdle]
  {
    ReachStep(i, s, Read(c));
    var s1 := Exec(s, Read(c)).value;
    ReachStep(i, s1, Clear(c));
    var s2 := Exec(s1, Clear(c)).value;
    ReachStep(i, s2, Release(c));
    t := Exec(s2, Release(c)).value;
    assert t.consumers == s.consumers[c := CIdle];
  }

  lemma {:induction false} AllRelease<T(!new)>(i: State<T>, s: State<T>, k: nat) returns (t: State<T>)
    requires Reachable(i, s) && s.ring.Shape() && k <= |s.consumers| && forall c :: 0 <= c < k ==> s.consumers[c].CRead?
    ensures Reachable(i, t) && t.ring.itemCount == s.ring.itemCount - k
    decreases k
  {
    if k == 0 {
      t := s;
    } else {
      var s1 := ReadAndRelease(i, s, k - 1);
      t := AllRelease(i, s1, k - 1);
    }
  }

  // Both bounds on the count are reached, for every capacity and any numbers of producers
  // and consumers.
  lemma ItemCountBoundsAttained<T(!new)>(cap: nat, P: nat, C: nat, x: T)
    requires cap >= 1 && P >= 1 && C >= 1
    ensures exists s: State<T> :: Reachable(Init(cap, P, C), s) && s.ring.itemCount == cap + P - 1
    ensures exists s: State<T> :: Reachable(Init(cap, P, C), s) && s.ring.itemCount == 1 - C
  {
    var i: State<T> := Init(cap, P, C);
    assert Run(i, []) == Some(i);
    var s := FillUp(i, i, x, cap - 1);
    s := AllEnter(i, s, x, 0);
    s := AllPublish(i, s, P);
    var t := EnqueueOne(i, i, x);
    t := AllDequeueChecked(i, t, 0);
    t := AllRelease(i, t, C);
  }

  // ------------------------------------------------------ the object and its operations

  // r holds exactly the items q, oldest first, and nobody is inside an operation.
  ghost predicate Holds<T>(r: Ring<T>, q: seq<T>) {
    && r.Shape() && r.itemCount == |q| <= r.cap && r.writePos == r.readPos + |q|
    && (forall j {:trigger q[j]} :: 0 <= j < |q| ==> r.buffer[r.Slot(r.readPos + j)] == Some(q[j]))
    && forall pos {:trigger r.Slot(pos)} :: r.writePos <= pos < r.readPos + r.cap ==> r.buffer[r.Slot(pos)] == None
  }

  lemma HoldsEnqueue<T>(r: Ring<T>, q: seq<T>, item: T)
    requires Holds(r, q) && |q| < r.cap
    ensures Holds(r.AddWritePos().StoreSlot(r.writePos, Some(item)).AddItemCount(1), q + [item])
  {
    var r' := r.AddWritePos().StoreSlot(r.writePos, Some(item)).AddItemCount(1);
    forall j | 0 <= j < |q| + 1
      ensures r'.buffer[r'.Slot(r'.readPos + j)] == Some((q + [item])[j])
    {
      if j < |q| {
        ResiduesDiffer(r.readPos + j, r.writePos, r.cap);
        assert r.buffer[r.Slot(r.readPos + j)] == Some(q[j]);
      }
    }
    forall pos | r'.writePos <= pos < r'.readPos + r'.cap
      ensures r'.buffer[r'.Slot(pos)] == None
    {
      ResiduesDiffer(r.writePos, pos, r.cap);
      assert r.buffer[r.Slot(pos)] == None;
    }
  }

  lemma HoldsDequeue<T>(r: Ring<T>, q: seq<T>)
    requires Holds(r, q) && q != []
    ensures r.buffer[r.Slot(r.readPos)] == Some(q[0])
    ensures Holds(r.AddReadPos().StoreSlot(r.readPos, None).AddItemCount(-1), q[1..])
  {
    assert r.buffer[r.Slot(r.readPos + 0)] == Some(q[0]);
    var r' := r.AddReadPos().StoreSlot(r.readPos, None).AddItemCount(-1);
    forall j | 0 <= j < |q| - 1
      ensures r'.buffer[r'.Slot(r'.readPos + j)] == Some(q[1..][j])
    {
      ResiduesDiffer(r.readPos, r.readPos + (j + 1), r.cap);
      assert r.buffer[r.Slot(r.readPos + (j + 1))] == Some(q[j + 1]);
    }
    NextRound(r.readPos, r.cap);
    forall pos | r'.writePos <= pos < r'.readPos + r'.cap
      ensures r'.buffer[r'.Slot(pos)] == None
    {
      if pos < r.readPos + r.cap {
        assert r.buffer[r.Slot(pos)] == None;
      }
    }
  }

  class LockFreeQueue<T> {
    const buffer: array<Option<T>>
    const capacity: nat
    const mask: nat
    var writePos: nat
    var readPos: nat
    var itemCount: int

    ghost predicate Shape() reads this, buffer {
      capacity > 0 && IsPow2(capacity) && buffer.Length == capacity && mask == capacity - 1
    }

    ghost function View(): Ring<T> reads this, buffer {
      Ring(capacity, buffer[..], writePos, readPos, itemCount)
    }

    // The capacity is the least power of two that is at least the requested one.
    constructor (requested: int)
      ensures Shape() && fresh(buffer) && View() == EmptyRing(capacity)
      ensures requested <= capacity && (capacity == 1 || capacity / 2 < requested)
    {
      var c: nat := 1;
      ghost var k: nat := 0;
      while c < requested
        invariant c == Pow2(k) && (c == 1 || c / 2 < requested)
        decreases requested - c
      {
        c := 2 * c;
        k := k + 1;
      }
      buffer := new Option<T>[c](_ => None);
      capacity := c;
      mask := c - 1;
      writePos, readPos, itemCount := 0, 0, 0;
      new;
      assert buffer[..] == seq(c, _ => None);
    }

    // The slot of a position, by masking.
    function Index(pos: nat): (i: nat)
      requires Shape()
      reads this, buffer
      ensures i < buffer.Length && i == View().Slot(pos)
    {
      ghost var k :| capacity == Pow2(k);
      MaskIsMod(pos, k);
      BitAnd(pos, mask)
    }

    method FetchAddWritePos() returns (pos: nat)
      modifies this`writePos
      ensures pos == old(writePos) && View() == old(View()).AddWritePos()
    {
      writePos := writePos + 1;
      pos := writePos - 1;
    }

    method FetchAddReadPos() returns (pos: nat)
      modifies this`readPos
      ensures pos == old(readPos) && View() == old(View()).AddReadPos()
    {
      readPos := readPos + 1;
      pos := readPos - 1;
    }

    method AddItemCount(d: int)
      modifies this`itemCount
      ensures View() == old(View()).AddItemCount(d)
    {
      itemCount := itemCount + d;
    }

    method StoreAt(pos: nat, v: Option<T>)
      requires Shape()
      modifies buffer
      ensures View() == old(View()).StoreSlot(pos, v)
    {
      buffer[Index(pos)] := v;
    }

    // Enqueue without interruption: refused exactly when full, else appended.  The spin
    // in the middle is passed at once, since nobody moves the count.
    method Enqueue(item: T, ghost q: seq<T>) returns (ok: bool, ghost q': seq<T>)
      requires Shape() && Holds(View(), q)
      modifies this`writePos, this`itemCount, buffer
      ensures Shape() && Holds(View(), q')
      ensures ok <==> |q| < capacity
      ensures q' == if ok then q + [item] else q
    {
      if itemCount >= capacity {
        return false, q;
      }
      HoldsEnqueue(View(), q, item);
      var pos := FetchAddWritePos();
      assert itemCount < capacity;
      StoreAt(pos, Some(item));
      AddItemCount(1);
      ok, q' := true, q + [item];
    }

    method Dequeue(ghost q: seq<T>) returns (item: Option<T>, ok: bool, ghost q': seq<T>)
      requires Shape() && Holds(View(), q)
      modifies this`readPos, this`itemCount, buffer
      ensures Shape() && Holds(View(), q')
      ensures ok <==> q != []
      ensures ok ==> item.Some? && q == [item.value] + q'
      ensures !ok ==> item == None && q' == q
    {
      if itemCount <= 0 {
        return None, false, q;
      }
      HoldsDequeue(View(), q);
      var pos := FetchAddReadPos();
      assert itemCount > 0;
      item := buffer[Index(pos)];
      StoreAt(pos, None);
      AddItemCount(-1);
      ok, q' := true, q[1..];
    }

    function Len(): int reads this { itemCount }
  }

  class BatchingQueue<T> {
    const queue: LockFreeQueue<T>

    constructor (capacity: int)
      ensures fresh(queue) && fresh(queue.buffer) && queue.Shape() && Holds(queue.View(), [])
    {
      queue := new LockFreeQueue(capacity);
    }

    // Takes the oldest items, at most maxBatchSize of them.
    method DequeueBatch(maxBatchSize: nat, ghost q: seq<T>) returns (batch: seq<Option<T>>, ghost q': seq<T>)
      requires queue.Shape() && Holds(queue.View(), q)
      modifies queue`readPos, queue`itemCount, queue.buffer
      ensures queue.Shape() && Holds(queue.View(), q')
      ensures |batch| == if |q| <= maxBatchSize then |q| else maxBatchSize
      ensures q' == q[|batch|..] && forall k :: 0 <= k < |batch| ==> batch[k] == Some(q[k])
    {
      batch, q' := [], q;
      var count := queue.Len();
      if count <= 0 {
        return;
      }
      if count > maxBatchSize {
        count := maxBatchSize;
      }
      for i := 0 to count
        invariant |batch| == i && q' == q[i..]
        invariant queue.Shape() && Holds(queue.View(), q')
        invariant forall k :: 0 <= k < i ==> batch[k] == Some(q[k])
      {
        var item, ok, rest := queue.Dequeue(q');
        assert ok && rest == q[i + 1..];
        q' := rest;
        batch := batch + [item];
      }
    }
  }
}
