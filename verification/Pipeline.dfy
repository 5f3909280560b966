// ProcessShardSafe as a state machine: the extract, clean and mask goroutines, the
// writer, the synchronous pipe with the uploader at its end, the main body, and the two
// events from outside, cancellation and a failing upload.

module Pipeline {
  import opened Sequences

  // Cleaning may reject a record, masking rewrites it, line is its serialized form; every
  // channel has the capacity of one batch.
  datatype Env<!Rec> = Env(clean: Rec -> Option<Rec>, mask: Rec -> Rec, line: Rec -> string, batchSize: nat)

  datatype Chan<Rec> = Chan(items: seq<Rec>, closed: bool)

  datatype Extractor<Rec> = Pulling | Sending(rec: Rec) | Finished

  // The clean and the mask goroutine.  While flushing, batch is still there and out is
  // what remains to be sent; last says that the input has ended.
  datatype Stage<Rec> =
    | Gathering(batch: seq<Rec>)
    | Flushing(batch: seq<Rec>, out: seq<Rec>, last: bool)
    | Closed

  // Writing(rest): blocked in the pipe until the uploader has taken rest.
  datatype Writer = Waiting | Writing(rest: string) | Ended(ok: bool)

  // Blank is the zero ShardResult that a recovered panic leaves: no error, no records, no
  // object path.
  datatype ShardResult = Done(recordCount: nat) | Failed | Blank

  // Closing(k): the upload failed and k channels have been closed by the main body.
  datatype Main = Uploading | Uploaded | Joining | Closing(k: nat) | Returned(result: ShardResult)

  datatype State<Rec> = State(
    src: seq<Rec>,
    extractor: Extractor<Rec>,
    raw: Chan<Rec>,
    cleaner: Stage<Rec>,
    cleaned: Chan<Rec>,
    masker: Stage<Rec>,
    masked: Chan<Rec>,
    writer: Writer,
    recordCount: nat,
    received: string,
    stored: Option<string>,
    main: Main,
    cancelled: bool,
    uploadFailed: bool)

  datatype StageAction = Receive | InputEnd | Emit | FlushEnd | FlushCancelled | GatherCancelled

  datatype Action =
    | Pull | EndOfSource | SendRaw | ExtractCancelled
    | Clean(sa: StageAction)
    | Mask(sa: StageAction)
    | TakeMasked | WriteDone | WriterEnd | WriterCancelled
    | UploadRead(n: nat) | UploadEnd | CheckWriter | Join
    | Cancel | UploadFails | CloseNext

  function Init<Rec>(records: seq<Rec>): State<Rec> {
    State(records, Pulling, Chan([], false), Gathering([]), Chan([], false), Gathering([]), Chan([], false),
          Waiting, 0, "", None, Uploading, false, false)
  }

  // ---------------------------------------------------------------- one batch stage

  datatype StageState<Rec> = StageState(input: Chan<Rec>, stage: Stage<Rec>, output: Chan<Rec>)

  function Finish<Rec>(s: StageState<Rec>): StageState<Rec> {
    s.(stage := Closed, output := s.output.(closed := true))
  }

  // flush returns early, by cancellation or by a recovered send on a closed channel: the
  // batch is kept.
  function Interrupt<Rec>(s: StageState<Rec>): StageState<Rec>
    requires s.stage.Flushing?
  {
    if s.stage.last then Finish(s) else s.(stage := Gathering(s.stage.batch))
  }

  function StageStep<Rec>(s: StageState<Rec>, f: Rec -> Option<Rec>, size: nat, cancelled: bool, a: StageAction)
    : Option<StageState<Rec>>
  {
    match (a, s.stage)
    case (Receive, Gathering(batch)) =>
      if s.input.items == [] then None
      else
        var b := batch + [s.input.items[0]];
        var input := s.input.(items := s.input.items[1..]);
        Some(s.(input := input, stage := if |b| >= size then Flushing(b, FilterMap(f, b), false) else Gathering(b)))
    case (InputEnd, Gathering(batch)) =>
      if s.input.items != [] || !s.input.closed then None
      else Some(if batch == [] then Finish(s) else s.(stage := Flushing(batch, FilterMap(f, batch), true)))
    case (Emit, Flushing(batch, out, last)) =>
      if out == [] then None
      else if s.output.closed then Some(Interrupt(s))
      else if |s.output.items| >= size then None
      else Some(s.(stage := Flushing(batch, out[1..], last), output := s.output.(items := s.output.items + [out[0]])))
    case (FlushEnd, Flushing(batch, out, last)) =>
      if out != [] then None
      else Some(if last then Finish(s) else s.(stage := Gathering([])))
    case (FlushCancelled, Flushing(batch, out, last)) =>
      if cancelled && out != [] then Some(Interrupt(s)) else None
    case (GatherCancelled, Gathering(batch)) =>
      if cancelled then Some(Finish(s)) else None
    case _ => None
  }

  // ------------------------------------------------------------------- one step

  function MaskOption<Rec>(env: Env<Rec>): Rec -> Option<Rec> { r => Some(env.mask(r)) }

  function Step<Rec>(env: Env<Rec>, s: State<Rec>, a: Action): Option<State<Rec>> {
    match a
    case Pull =>
      if s.extractor.Pulling? && s.src != [] then Some(s.(extractor := Sending(s.src[0]), src := s.src[1..])) else None
    case EndOfSource =>
      if s.extractor.Pulling? && s.src == []
      then Some(s.(extractor := Finished, raw := s.raw.(closed := true)))
      else None
    case SendRaw =>
      if !s.extractor.Sending? then None
      else if s.raw.closed then Some(s.(extractor := Pulling))
      else if |s.raw.items| >= env.batchSize then None
      else Some(s.(extractor := Pulling, raw := s.raw.(items := s.raw.items + [s.extractor.rec])))
    case ExtractCancelled =>
      if !s.cancelled || s.extractor.Finished? then None
      else if s.extractor.Sending? then Some(s.(extractor := Pulling))
      else Some(s.(extractor := Finished, raw := s.raw.(closed := true)))
    case Clean(sa) =>
      (match StageStep(StageState(s.raw, s.cleaner, s.cleaned), env.clean, env.batchSize, s.cancelled, sa)
       case None => None
       case Some(t) => Some(s.(raw := t.input, cleaner := t.stage, cleaned := t.output)))
    case Mask(sa) =>
      (match StageStep(StageState(s.cleaned, s.masker, s.masked), MaskOption(env), env.batchSize, s.cancelled, sa)
       case None => None
       case Some(t) => Some(s.(cleaned := t.input, masker := t.stage, masked := t.output)))
    case TakeMasked =>
      if s.writer.Waiting? && s.masked.items != []
      then Some(s.(writer := Writing(env.line(s.masked.items[0])), masked := s.masked.(items := s.masked.items[1..])))
      else None
    case WriteDone =>
      if s.writer == Writing("") then Some(s.(writer := Waiting, recordCount := s.recordCount + 1)) else None
    case WriterEnd =>
      if s.writer.Waiting? && s.masked.items == [] && s.masked.closed then Some(s.(writer := Ended(true))) else None
    case WriterCancelled =>
      if s.writer.Waiting? && s.cancelled then Some(s.(writer := Ended(false))) else None
    case UploadRead(n) =>
      if s.main.Uploading? && s.writer.Writing? && 1 <= n <= |s.writer.rest|
      then Some(s.(received := s.received + s.writer.rest[..n], writer := Writing(s.writer.rest[n..])))
      else None
    case UploadEnd =>
      if s.main.Uploading? && s.writer.Ended? then Some(s.(stored := Some(s.received), main := Uploaded)) else None
    case CheckWriter =>
      if s.main.Uploaded? && s.writer.Ended?
      then Some(s.(main := if s.writer.ok then Joining else Returned(Failed)))
      else None
    case Join =>
      if s.main.Joining? && s.extractor.Finished? && s.cleaner.Closed? && s.masker.Closed?
      then Some(s.(main := Returned(Done(s.recordCount))))
      else None
    case Cancel => Some(s.(cancelled := true))
    case UploadFails =>
      if s.main.Uploading? then Some(s.(main := Closing(0), uploadFailed := true)) else None
    case CloseNext =>
      if !s.main.Closing? then None
      else
        // closing a channel that its worker has closed panics, and the panic is recovered
        var next := if s.main.k >= 2 then Returned(Failed) else Closing(s.main.k + 1);
        Some(if (if s.main.k == 0 then s.raw.closed else if s.main.k == 1 then s.cleaned.closed else s.masked.closed)
             then s.(main := Returned(Blank))
             else if s.main.k == 0 then s.(raw := s.raw.(closed := true), main := next)
             else if s.main.k == 1 then s.(cleaned := s.cleaned.(closed := true), main := next)
             else s.(masked := s.masked.(closed := true), main := next))
  }

  function Run<Rec>(env: Env<Rec>, s: State<Rec>, acts: seq<Action>): Option<State<Rec>> {
    if acts == [] then Some(s)
    else
      match Run(env, s, acts[..|acts| - 1])
      case None => None
      case Some(t) => Step(env, t, acts[|acts| - 1])
  }

  // The run was neither cancelled nor hit by a failing upload.
  predicate Undisturbed<Rec>(s: State<Rec>) { !s.cancelled && !s.uploadFailed }

  // ------------------------------------------------------- what the shard must deliver

  // The cleaned and masked records, in source order.
  function Deliverables<Rec>(env: Env<Rec>, records: seq<Rec>): seq<Rec> {
    Map(env.mask, FilterMap(env.clean, records))
  }

  function Output<Rec>(env: Env<Rec>, recs: seq<Rec>): string { Flatten(Map(env.line, recs)) }

  lemma {:induction false} MaskStageIsMap<Rec>(env: Env<Rec>, s: seq<Rec>)
    ensures FilterMap(MaskOption(env), s) == Map(env.mask, s)
  {
    if s != [] {
      MaskStageIsMap(env, s[1..]);
    }
  }

  // Record by record: each accepted one is masked and goes to the end, and its line with it.
  lemma OneMoreRecord<Rec>(env: Env<Rec>, records: seq<Rec>, r: Rec)
    ensures Deliverables(env, []) == [] && Output(env, []) == ""
    ensures env.clean(r).None? ==> Deliverables(env, records + [r]) == Deliverables(env, records)
    ensures env.clean(r).Some? ==>
              var m := env.mask(env.clean(r).value);
              && Deliverables(env, records + [r]) == Deliverables(env, records) + [m]
              && Output(env, Deliverables(env, records + [r])) == Output(env, Deliverables(env, records)) + env.line(m)
  {
    FilterMapAppend(env.clean, records, [r]);
    assert FilterMap(env.clean, [r]) == AsSeq(env.clean(r)) + [];
    if env.clean(r).Some? {
      MapAppend(env.mask, FilterMap(env.clean, records), [env.clean(r).value]);
      assert Map(env.mask, [env.clean(r).value]) == [env.mask(env.clean(r).value)];
      OutputSnoc(env, Deliverables(env, records), env.mask(env.clean(r).value));
    }
  }

  // ----------------------------------------------- what is under way, stage by stage

  // What the stage still owes its output for records it has already taken.
  function Owed<Rec>(f: Rec -> Option<Rec>, st: Stage<Rec>): seq<Rec> {
    match st
    case Gathering(batch) => FilterMap(f, batch)
    case Flushing(_, out, _) => out
    case Closed => []
  }

  function Unsent<Rec>(e: Extractor<Rec>): seq<Rec> { if e.Sending? then [e.rec] else [] }

  function AtCleaner<Rec>(s: State<Rec>): seq<Rec> { s.raw.items + Unsent(s.extractor) + s.src }

  function AtMasker<Rec>(env: Env<Rec>, s: State<Rec>): seq<Rec> {
    s.cleaned.items + Owed(env.clean, s.cleaner) + FilterMap(env.clean, AtCleaner(s))
  }

  // The masked records that the writer has not taken yet, in the order it will take them.
  function AtWriter<Rec>(env: Env<Rec>, s: State<Rec>): seq<Rec> {
    s.masked.items + Owed(MaskOption(env), s.masker) + FilterMap(MaskOption(env), AtMasker(env, s))
  }

  predicate StageOrder<Rec>(input: Chan<Rec>, st: Stage<Rec>, output: Chan<Rec>) {
    && (output.closed <==> st.Closed?)
    && (st.Closed? || (st.Flushing? && st.last) ==> input.items == [] && input.closed)
    && (st.Flushing? ==> st.batch != [])
  }

  // A worker closes its output only after its input has ended.
  predicate Orderly<Rec>(s: State<Rec>) {
    && (s.raw.closed <==> s.extractor.Finished?)
    && (s.extractor.Finished? ==> s.src == [])
    && StageOrder(s.raw, s.cleaner, s.cleaned)
    && StageOrder(s.cleaned, s.masker, s.masked)
    && (s.writer.Ended? ==> s.writer.ok && s.masked.items == [] && s.masked.closed)
  }

  predicate MainOrder<Rec>(s: State<Rec>) {
    && !s.main.Closing? && s.main != Returned(Failed) && s.main != Returned(Blank)
    && (s.main.Uploading? <==> s.stored == None)
    && (!s.main.Uploading? ==> s.writer.Ended? && s.stored == Some(s.received))
    && (s.main.Returned? ==> s.main.result == Done(s.recordCount))
  }

  function Taken<Rec>(s: State<Rec>): nat { s.recordCount + Bit(s.writer.Writing?) }

  // The bytes that the writer still has to push through the pipe.
  function Rest(w: Writer): string { if w.Writing? then w.rest else "" }

  // Conservation: the bytes received are the lines of the first deliverables, and the
  // records under way are the remaining ones.
  ghost predicate Conserved<Rec>(env: Env<Rec>, records: seq<Rec>, s: State<Rec>) {
    var d := Deliverables(env, records);
    && Taken(s) <= |d|
    && AtWriter(env, s) == d[Taken(s)..]
    && s.received + Rest(s.writer) == Output(env, d[..Taken(s)])
  }

  ghost predicate Inv<Rec>(env: Env<Rec>, records: seq<Rec>, s: State<Rec>) {
    Orderly(s) && MainOrder(s) && Conserved(env, records, s)
  }

  // --------------------------------------------------------------- a stage conserves

  // One uncancelled step of a stage keeps its order, and keeps what its output channel
  // will have carried once all of the input, later is what is still to come, has passed.
  lemma StageConserves<Rec>(s: StageState<Rec>, f: Rec -> Option<Rec>, size: nat, a: StageAction,
                            t: StageState<Rec>, later: seq<Rec>)
    requires StageOrder(s.input, s.stage, s.output) && StageStep(s, f, size, false, a) == Some(t)
    ensures StageOrder(t.input, t.stage, t.output)
    ensures t.output.items + Owed(f, t.stage) + FilterMap(f, t.input.items + later)
         == s.output.items + Owed(f, s.stage) + FilterMap(f, s.input.items + later)
    ensures t.input.closed == s.input.closed
    ensures s.input.items == [] ==> t.input.items == []
  {
    match a
    case Receive =>
      var x := s.input.items[0];
      assert s.input.items + later == [x] + (t.input.items + later);
      FilterMapAppend(f, [x], t.input.items + later);
      FilterMapAppend(f, s.stage.batch, [x]);
    case Emit =>
      assert s.stage.out == [s.stage.out[0]] + s.stage.out[1..];
    case _ =>
  }

  // ------------------------------------------------------------- every step conserves

  lemma CleanKeeps<Rec>(env: Env<Rec>, s: State<Rec>, sa: StageAction, t: State<Rec>)
    requires Orderly(s) && !s.cancelled && Step(env, s, Clean(sa)) == Some(t)
    ensures Orderly(t) && AtMasker(env, t) == AtMasker(env, s)
  {
    var before := StageState(s.raw, s.cleaner, s.cleaned);
    var after := StageState(t.raw, t.cleaner, t.cleaned);
    StageConserves(before, env.clean, env.batchSize, sa, after, Unsent(s.extractor) + s.src);
    CleanerView(env, s);
    CleanerView(env, t);
  }

  lemma CleanerView<Rec>(env: Env<Rec>, s: State<Rec>)
    ensures AtMasker(env, s) == s.cleaned.items + Owed(env.clean, s.cleaner) +
              FilterMap(env.clean, s.raw.items + (Unsent(s.extractor) + s.src))
  {
    assert AtCleaner(s) == s.raw.items + (Unsent(s.extractor) + s.src);
  }

  lemma CleanStep<Rec>(env: Env<Rec>, records: seq<Rec>, s: State<Rec>, sa: StageAction, t: State<Rec>)
    requires Inv(env, records, s) && Undisturbed(s) && Step(env, s, Clean(sa)) == Some(t)
    ensures Inv(env, records, t)
  {
    CleanKeeps(env, s, sa, t);
  }

  lemma MaskKeeps<Rec>(env: Env<Rec>, s: State<Rec>, sa: StageAction, t: State<Rec>)
    requires Orderly(s) && !s.cancelled && Step(env, s, Mask(sa)) == Some(t)
    ensures Orderly(t) && AtWriter(env, t) == AtWriter(env, s)
  {
    var before := StageState(s.cleaned, s.masker, s.masked);
    var after := StageState(t.cleaned, t.masker, t.masked);
    var later := Owed(env.clean, s.cleaner) + FilterMap(env.clean, AtCleaner(s));
    StageConserves(before, MaskOption(env), env.batchSize, sa, after, later);
    assert AtMasker(env, s) == s.cleaned.items + later;
    assert AtMasker(env, t) == t.cleaned.items + later;
  }

  lemma MaskStep<Rec>(env: Env<Rec>, records: seq<Rec>, s: State<Rec>, sa: StageAction, t: State<Rec>)
    requires Inv(env, records, s) && Undisturbed(s) && Step(env, s, Mask(sa)) == Some(t)
    ensures Inv(env, records, t)
  {
    MaskKeeps(env, s, sa, t);
  }

  lemma ExtractStep<Rec>(env: Env<Rec>, records: seq<Rec>, s: State<Rec>, a: Action, t: State<Rec>)
    requires Inv(env, records, s) && Undisturbed(s) && Step(env, s, a) == Some(t)
    requires a.Pull? || a.EndOfSource? || a.SendRaw?
    ensures Inv(env, records, t)
  {
    assert AtCleaner(t) == AtCleaner(s);
  }

  lemma TakeOne<A>(d: seq<A>, k: nat, x: A, rest: seq<A>)
    requires k <= |d| && d[k..] == [x] + rest
    ensures k < |d| && d[k] == x && d[k + 1..] == rest && d[..k + 1] == d[..k] + [x]
  {
    assert d[k] == d[k..][0];
    assert d[k..][1..] == d[k + 1..];
  }

  lemma TakeShape<Rec>(env: Env<Rec>, s: State<Rec>, t: State<Rec>) returns (x: Rec)
    requires Step(env, s, TakeMasked) == Some(t)
    ensures AtWriter(env, s) == [x] + AtWriter(env, t)
    ensures Taken(t) == Taken(s) + 1
    ensures t.received + Rest(t.writer) == s.received + Rest(s.writer) + env.line(x)
  {
    x := s.masked.items[0];
    assert s.masked.items == [x] + t.masked.items;
    assert AtMasker(env, t) == AtMasker(env, s);
  }

  lemma TakeStep<Rec>(env: Env<Rec>, records: seq<Rec>, s: State<Rec>, t: State<Rec>)
    requires Conserved(env, records, s) && Step(env, s, TakeMasked) == Some(t)
    ensures Conserved(env, records, t)
  {
    var d, k := Deliverables(env, records), Taken(s);
    var x := TakeShape(env, s, t);
    TakeOne(d, k, x, AtWriter(env, t));
    OutputSnoc(env, d[..k], x);
  }

  lemma WriterOrder<Rec>(env: Env<Rec>, records: seq<Rec>, s: State<Rec>, a: Action, t: State<Rec>)
    requires Inv(env, records, s) && Undisturbed(s) && Step(env, s, a) == Some(t)
    requires a.TakeMasked? || a.WriteDone? || a.WriterEnd? || a.UploadRead?
    ensures Orderly(t) && MainOrder(t)
  {
  }

  lemma WriterConserves<Rec>(env: Env<Rec>, records: seq<Rec>, s: State<Rec>, a: Action, t: State<Rec>)
    requires Conserved(env, records, s) && Undisturbed(s) && Step(env, s, a) == Some(t)
    requires a.WriteDone? || a.WriterEnd? || a.UploadRead?
    ensures Conserved(env, records, t)
  {
    WriterFixed(env, s, a, t);
    assert AtWriter(env, t) == AtWriter(env, s) by {
      assert AtMasker(env, t) == AtMasker(env, s);
    }
  }

  lemma WriterStep<Rec>(env: Env<Rec>, records: seq<Rec>, s: State<Rec>, a: Action, t: State<Rec>)
    requires Inv(env, records, s) && Undisturbed(s) && Step(env, s, a) == Some(t)
    requires a.TakeMasked? || a.WriteDone? || a.WriterEnd? || a.UploadRead?
    ensures Inv(env, records, t)
  {
    WriterOrder(env, records, s, a, t);
    if a.TakeMasked? {
      TakeStep(env, records, s, t);
    } else {
      WriterConserves(env, records, s, a, t);
    }
  }

  lemma OutputSnoc<Rec>(env: Env<Rec>, recs: seq<Rec>, x: Rec)
    ensures Output(env, recs + [x]) == Output(env, recs) + env.line(x)
  {
    MapAppend(env.line, recs, [x]);
    assert Map(env.line, [x]) == [env.line(x)];
    FlattenSnoc(Map(env.line, recs), env.line(x));
  }

  lemma InvStep<Rec>(env: Env<Rec>, records: seq<Rec>, s: State<Rec>, a: Action, t: State<Rec>)
    requires Inv(env, records, s) && Undisturbed(s) && Step(env, s, a) == Some(t) && Undisturbed(t)
    ensures Inv(env, records, t)
  {
    match a
    case Clean(sa) => CleanStep(env, records, s, sa, t);
    case Mask(sa) => MaskStep(env, records, s, sa, t);
    case Pull => ExtractStep(env, records, s, a, t);
    case EndOfSource => ExtractStep(env, records, s, a, t);
    case SendRaw => ExtractStep(env, records, s, a, t);
    case TakeMasked => WriterStep(env, records, s, a, t);
    case WriteDone => WriterStep(env, records, s, a, t);
    case WriterEnd => WriterStep(env, records, s, a, t);
    case UploadRead(_) => WriterStep(env, records, s, a, t);
    case _ =>
  }

  lemma DisturbanceStays<Rec>(env: Env<Rec>, s: State<Rec>, a: Action)
    requires Step(env, s, a).Some? && Undisturbed(Step(env, s, a).value)
    ensures Undisturbed(s) && !a.Cancel? && !a.UploadFails?
  {
  }

  lemma InvInit<Rec>(env: Env<Rec>, records: seq<Rec>)
    ensures Inv(env, records, Init(records))
  {
    var s := Init(records);
    assert AtCleaner(s) == records;
    assert AtMasker(env, s) == FilterMap(env.clean, records);
    MaskStageIsMap(env, FilterMap(env.clean, records));
    var d := Deliverables(env, records);
    assert d[0..] == d && d[..0] == [];
  }

  // In every undisturbed run, at every point: what the object store has received, plus
  // what is under way pushed through the remaining stages, is the whole delivery.
  lemma {:induction false} RunInv<Rec>(env: Env<Rec>, records: seq<Rec>, acts: seq<Action>, s: State<Rec>)
    requires Run(env, Init(records), acts) == Some(s) && Undisturbed(s)
    ensures Inv(env, records, s)
  {
    if acts == [] {
      InvInit(env, records);
    } else {
      var t := Run(env, Init(records), acts[..|acts| - 1]).value;
      var a := acts[|acts| - 1];
      DisturbanceStays(env, t, a);
      RunInv(env, records, acts[..|acts| - 1], t);
      InvStep(env, records, t, a, s);
    }
  }

  lemma EndedMeansDrained<Rec>(env: Env<Rec>, s: State<Rec>)
    requires Orderly(s) && s.writer.Ended?
    ensures s.extractor.Finished? && s.cleaner.Closed? && s.masker.Closed? && AtWriter(env, s) == []
  {
    assert AtCleaner(s) == [];
    assert AtMasker(env, s) == [];
  }

  lemma DrainedMeansDelivered<Rec>(env: Env<Rec>, records: seq<Rec>, s: State<Rec>)
    requires Inv(env, records, s) && s.writer.Ended?
    ensures s.received == Output(env, Deliverables(env, records)) && s.recordCount == |Deliverables(env, records)|
  {
    EndedMeansDrained(env, s);
    var d, k := Deliverables(env, records), Taken(s);
    assert |d[k..]| == 0;
    assert d[..k] == d;
    assert Rest(s.writer) == "" && s.received + "" == s.received;
  }

  // However the goroutines are scheduled: an undisturbed call that returns has stored
  // exactly the lines of the cleaned and masked records in source order, and reports
  // their number.
  lemma ReturnedMeansDelivered<Rec>(env: Env<Rec>, records: seq<Rec>, acts: seq<Action>, s: State<Rec>)
    requires Run(env, Init(records), acts) == Some(s) && Undisturbed(s) && s.main.Returned?
    ensures s.stored == Some(Output(env, Deliverables(env, records)))
    ensures s.main.result == Done(|Deliverables(env, records)|)
  {
    RunInv(env, records, acts, s);
    DrainedMeansDelivered(env, records, s);
  }

  // ----------------------------------------------------------- progress, termination

  function StageWeight<Rec>(st: Stage<Rec>, gathered: nat, flushed: nat): nat {
    match st
    case Gathering(batch) => 1 + gathered * |batch|
    case Flushing(_, out, _) => 2 + flushed * |out|
    case Closed => 0
  }

  function ExtractorWeight<Rec>(e: Extractor<Rec>): nat {
    match e case Finished => 0 case Pulling => 1 case Sending(_) => 12
  }

  function WriterWeight(w: Writer): nat {
    match w case Ended(_) => 0 case Waiting => 1 case Writing(_) => 2
  }

  function MainWeight(m: Main): nat {
    match m case Uploading => 3 case Uploaded => 2 case Joining => 1 case _ => 0
  }

  // Each record weighs less the further it has come; every byte of the delivery that has
  // not been received weighs one.
  function Measure<Rec>(env: Env<Rec>, records: seq<Rec>, s: State<Rec>): int {
    12 * |s.src| + ExtractorWeight(s.extractor) + 10 * |s.raw.items|
    + StageWeight(s.cleaner, 9, 7) + 6 * |s.cleaned.items|
    + StageWeight(s.masker, 5, 3) + 2 * |s.masked.items|
    + WriterWeight(s.writer) + MainWeight(s.main)
    + |Output(env, Deliverables(env, records))| - |s.received|
  }

  lemma Scale(w: nat, m: nat, n: nat)
    requires m <= n
    ensures w * m <= w * n
  {
  }

  lemma OneMore(w: nat, n: nat)
    ensures w * (n + 1) == w * n + w
  {
  }

  // Taking a record from i + 1 queued ones onto n gathered ones, or flushing them as m.
  lemma ReceiveWeighs(w: nat, i: nat, n: nat, m: nat)
    requires m <= n + 1
    ensures (w + 4) * i + (w + 3) * (n + 1) < (w + 4) * (i + 1) + (w + 3) * n
    ensures w >= 2 ==> (w + 4) * i + 1 + (w + 1) * m < (w + 4) * (i + 1) + (w + 3) * n
  {
    OneMore(w + 4, i);
    OneMore(w + 3, n);
    OneMore(w + 1, n);
    Scale(w + 1, m, n + 1);
    assert (w + 3) * n == (w + 1) * n + 2 * n;
  }

  lemma FlushWeighs(w: nat, n: nat, m: nat)
    requires 1 <= n && m <= n
    ensures 1 + (w + 1) * m < (w + 3) * n
  {
    Scale(w + 1, m, n);
    assert (w + 3) * n == (w + 1) * n + 2 * n;
  }

  lemma EmitWeighs(w: nat, n: nat, k: nat)
    ensures (w + 1) * n + w * (k + 1) < (w + 1) * (n + 1) + w * k
  {
    OneMore(w + 1, n);
    OneMore(w, k);
  }

  lemma StageWeighsLess<Rec>(s: StageState<Rec>, f: Rec -> Option<Rec>, size: nat, a: StageAction,
                             t: StageState<Rec>, w: nat)
    requires StageOrder(s.input, s.stage, s.output) && StageStep(s, f, size, false, a) == Some(t) && w >= 2
    ensures (w + 4) * |t.input.items| + StageWeight(t.stage, w + 3, w + 1) + w * |t.output.items|
          < (w + 4) * |s.input.items| + StageWeight(s.stage, w + 3, w + 1) + w * |s.output.items|
  {
    match a
    case Receive =>
      ReceiveWeighs(w, |t.input.items|, |s.stage.batch|, if t.stage.Flushing? then |t.stage.out| else 0);
    case InputEnd =>
      if t.stage.Flushing? {
        FlushWeighs(w, |s.stage.batch|, |t.stage.out|);
      }
    case Emit =>
      EmitWeighs(w, |t.stage.out|, |s.output.items|);
    case _ =>
  }

  lemma OtherStepDecreases<Rec>(env: Env<Rec>, records: seq<Rec>, s: State<Rec>, a: Action, t: State<Rec>)
    requires Inv(env, records, s) && Undisturbed(t) && Step(env, s, a) == Some(t) && !a.Clean? && !a.Mask?
    ensures Measure(env, records, t) < Measure(env, records, s)
  {
    if a.Pull? || a.EndOfSource? || a.SendRaw? {
      ExtractDecreases(env, records, s, a, t);
    } else if a.TakeMasked? || a.WriteDone? || a.WriterEnd? || a.UploadRead? {
      WriterDecreases(env, records, s, a, t);
    }
  }

  lemma WriterDecreases<Rec>(env: Env<Rec>, records: seq<Rec>, s: State<Rec>, a: Action, t: State<Rec>)
    requires Inv(env, records, s) && Step(env, s, a) == Some(t)
    requires a.TakeMasked? || a.WriteDone? || a.WriterEnd? || a.UploadRead?
    ensures Measure(env, records, t) < Measure(env, records, s)
  {
  }

  lemma ExtractDecreases<Rec>(env: Env<Rec>, records: seq<Rec>, s: State<Rec>, a: Action, t: State<Rec>)
    requires Orderly(s) && Step(env, s, a) == Some(t) && (a.Pull? || a.EndOfSource? || a.SendRaw?)
    ensures Measure(env, records, t) < Measure(env, records, s)
  {
  }

  lemma CleanerWeighsLess<Rec>(s: StageState<Rec>, f: Rec -> Option<Rec>, size: nat, a: StageAction, t: StageState<Rec>)
    requires StageOrder(s.input, s.stage, s.output) && StageStep(s, f, size, false, a) == Some(t)
    ensures 10 * |t.input.items| + StageWeight(t.stage, 9, 7) + 6 * |t.output.items|
          < 10 * |s.input.items| + StageWeight(s.stage, 9, 7) + 6 * |s.output.items|
  {
    StageWeighsLess(s, f, size, a, t, 6);
  }

  lemma MaskerWeighsLess<Rec>(s: StageState<Rec>, f: Rec -> Option<Rec>, size: nat, a: StageAction, t: StageState<Rec>)
    requires StageOrder(s.input, s.stage, s.output) && StageStep(s, f, size, false, a) == Some(t)
    ensures 6 * |t.input.items| + StageWeight(t.stage, 5, 3) + 2 * |t.output.items|
          < 6 * |s.input.items| + StageWeight(s.stage, 5, 3) + 2 * |s.output.items|
  {
    StageWeighsLess(s, f, size, a, t, 2);
  }

  lemma CleanDecreases<Rec>(env: Env<Rec>, records: seq<Rec>, s: State<Rec>, sa: StageAction, t: State<Rec>)
    requires Orderly(s) && Undisturbed(t) && Step(env, s, Clean(sa)) == Some(t)
    ensures Measure(env, records, t) < Measure(env, records, s)
  {
    CleanerWeighsLess(StageState(s.raw, s.cleaner, s.cleaned), env.clean, env.batchSize, sa,
                      StageState(t.raw, t.cleaner, t.cleaned));
  }

  lemma MaskDecreases<Rec>(env: Env<Rec>, records: seq<Rec>, s: State<Rec>, sa: StageAction, t: State<Rec>)
    requires Orderly(s) && Undisturbed(t) && Step(env, s, Mask(sa)) == Some(t)
    ensures Measure(env, records, t) < Measure(env, records, s)
  {
    MaskerWeighsLess(StageState(s.cleaned, s.masker, s.masked), MaskOption(env), env.batchSize, sa,
                     StageState(t.cleaned, t.masker, t.masked));
  }

  // Every step of an undisturbed run brings the end nearer.
  lemma StepDecreases<Rec>(env: Env<Rec>, records: seq<Rec>, s: State<Rec>, a: Action, t: State<Rec>)
    requires Inv(env, records, s) && Undisturbed(t) && Step(env, s, a) == Some(t)
    ensures Measure(env, records, t) < Measure(env, records, s)
  {
    if a.Clean? {
      CleanDecreases(env, records, s, a.sa, t);
    } else if a.Mask? {
      MaskDecreases(env, records, s, a.sa, t);
    } else {
      OtherStepDecreases(env, records, s, a, t);
    }
  }

  lemma MeasureNonNegative<Rec>(env: Env<Rec>, records: seq<Rec>, s: State<Rec>)
    requires Inv(env, records, s)
    ensures Measure(env, records, s) >= 0
  {
    var d, k := Deliverables(env, records), Taken(s);
    assert d == d[..k] + d[k..];
    MapAppend(env.line, d[..k], d[k..]);
    FlattenAppend(Map(env.line, d[..k]), Map(env.line, d[k..]));
  }

  // No undisturbed run is longer than the initial measure.
  lemma {:induction false} RunsAreShort<Rec>(env: Env<Rec>, records: seq<Rec>, acts: seq<Action>, s: State<Rec>)
    requires Run(env, Init(records), acts) == Some(s) && Undisturbed(s)
    ensures |acts| + Measure(env, records, s) <= Measure(env, records, Init(records))
    ensures |acts| <= 12 * |records| + 7 + |Output(env, Deliverables(env, records))|
  {
    RunInv(env, records, acts, s);
    MeasureNonNegative(env, records, s);
    if acts != [] {
      var t := Run(env, Init(records), acts[..|acts| - 1]).value;
      var a := acts[|acts| - 1];
      DisturbanceStays(env, t, a);
      RunInv(env, records, acts[..|acts| - 1], t);
      RunsAreShort(env, records, acts[..|acts| - 1], t);
      StepDecreases(env, records, t, a, s);
    }
  }

  function StageMove<Rec>(input: Chan<Rec>, st: Stage<Rec>): StageAction {
    match st
    case Gathering(_) => if input.items != [] then Receive else InputEnd
    case Flushing(_, out, _) => if out != [] then Emit else FlushEnd
    case Closed => FlushEnd
  }

  // The goroutine furthest down the line that can move.
  function NextMove<Rec>(s: State<Rec>): Action {
    if s.main.Joining? then Join
    else if s.main.Uploaded? then CheckWriter
    else if s.writer.Ended? then UploadEnd
    else if s.writer.Writing? then (if s.writer.rest == "" then WriteDone else UploadRead(|s.writer.rest|))
    else if s.masked.items != [] then TakeMasked
    else if s.masked.closed then WriterEnd
    else if s.masker.Flushing? || s.cleaned.items != [] || s.cleaned.closed then Mask(StageMove(s.cleaned, s.masker))
    else if s.cleaner.Flushing? || s.raw.items != [] || s.raw.closed then Clean(StageMove(s.raw, s.cleaner))
    else if s.extractor.Sending? then SendRaw
    else if s.src != [] then Pull
    else EndOfSource
  }

  lemma StageCanMove<Rec>(s: StageState<Rec>, f: Rec -> Option<Rec>, size: nat)
    requires StageOrder(s.input, s.stage, s.output) && !s.stage.Closed? && |s.output.items| < size
    requires s.stage.Flushing? || s.input.items != [] || s.input.closed
    ensures StageStep(s, f, size, false, StageMove(s.input, s.stage)).Some?
  {
  }

  lemma StagesCanMove<Rec>(env: Env<Rec>, s: State<Rec>)
    requires env.batchSize >= 1 && Orderly(s) && !s.cancelled
    requires s.main.Uploading? && s.writer.Waiting? && s.masked.items == [] && !s.masked.closed
    ensures Step(env, s, NextMove(s)).Some?
  {
    if s.masker.Flushing? || s.cleaned.items != [] || s.cleaned.closed {
      StageCanMove(StageState(s.cleaned, s.masker, s.masked), MaskOption(env), env.batchSize);
    } else if s.cleaner.Flushing? || s.raw.items != [] || s.raw.closed {
      StageCanMove(StageState(s.raw, s.cleaner, s.cleaned), env.clean, env.batchSize);
    }
  }

  lemma OnlyOutsideDisturbs<Rec>(env: Env<Rec>, s: State<Rec>, a: Action)
    requires Undisturbed(s) && Step(env, s, a).Some? && !a.Cancel? && !a.UploadFails?
    ensures Undisturbed(Step(env, s, a).value)
  {
  }

  // No deadlock: as long as the call has not returned, some goroutine can move.
  lemma NeverStuck<Rec>(env: Env<Rec>, records: seq<Rec>, s: State<Rec>)
    requires env.batchSize >= 1 && Inv(env, records, s) && Undisturbed(s) && !s.main.Returned?
    ensures Step(env, s, NextMove(s)).Some? && Undisturbed(Step(env, s, NextMove(s)).value)
  {
    if s.writer.Ended? {
      EndedMeansDrained(env, s);
    } else if s.writer.Waiting? && s.masked.items == [] && !s.masked.closed {
      StagesCanMove(env, s);
    }
    OnlyOutsideDisturbs(env, s, NextMove(s));
  }

  // Every undisturbed run can be carried on to the end of the call.
  lemma {:induction false} RunCompletes<Rec>(env: Env<Rec>, records: seq<Rec>, acts: seq<Action>, s: State<Rec>)
    requires env.batchSize >= 1 && Run(env, Init(records), acts) == Some(s) && Undisturbed(s)
    ensures exists more, t :: acts <= more && Run(env, Init(records), more) == Some(t) && Undisturbed(t)
                              && t.main == Returned(Done(|Deliverables(env, records)|))
    decreases Measure(env, records, s)
  {
    RunInv(env, records, acts, s);
    if s.main.Returned? {
      ReturnedMeansDelivered(env, records, acts, s);
      assert acts <= acts;
    } else {
      var a := NextMove(s);
      NeverStuck(env, records, s);
      var t := Step(env, s, a).value;
      assert (acts + [a])[..|acts|] == acts;
      StepDecreases(env, records, s, a, t);
      RunInv(env, records, acts + [a], t);
      MeasureNonNegative(env, records, s);
      RunCompletes(env, records, acts + [a], t);
    }
  }

  // ------------------------------------------------------------------------ memory

  predicate StageBounded<Rec>(st: Stage<Rec>, size: nat) {
    match st
    case Gathering(batch) => |batch| < size
    case Flushing(batch, out, _) => |out| <= |batch| <= size
    case Closed => true
  }

  predicate Bounded<Rec>(env: Env<Rec>, s: State<Rec>) {
    && |s.raw.items| <= env.batchSize && |s.cleaned.items| <= env.batchSize && |s.masked.items| <= env.batchSize
    && StageBounded(s.cleaner, env.batchSize) && StageBounded(s.masker, env.batchSize)
  }

  function InStage<Rec>(st: Stage<Rec>): nat {
    match st
    case Gathering(batch) => |batch|
    case Flushing(batch, out, _) => |batch| + |out|
    case Closed => 0
  }

  // The records that the goroutines and channels hold at once.
  function InMemory<Rec>(s: State<Rec>): nat {
    Bit(s.extractor.Sending?) + |s.raw.items| + InStage(s.cleaner) + |s.cleaned.items| + InStage(s.masker)
      + |s.masked.items| + Bit(s.writer.Writing?)
  }

  lemma StageStaysBounded<Rec>(s: StageState<Rec>, f: Rec -> Option<Rec>, size: nat, a: StageAction, t: StageState<Rec>)
    requires StageStep(s, f, size, false, a) == Some(t) && StageBounded(s.stage, size) && size >= 1
    requires |s.input.items| <= size && |s.output.items| <= size && (s.stage.Flushing? ==> !s.output.closed)
    ensures StageBounded(t.stage, size) && |t.input.items| <= size && |t.output.items| <= size
  {
  }

  lemma StepStaysBounded<Rec>(env: Env<Rec>, s: State<Rec>, a: Action, t: State<Rec>)
    requires env.batchSize >= 1 && Orderly(s) && Undisturbed(t) && Bounded(env, s) && Step(env, s, a) == Some(t)
    requires !s.main.Closing?
    ensures Bounded(env, t)
  {
    if a.Clean? {
      StageStaysBounded(StageState(s.raw, s.cleaner, s.cleaned), env.clean, env.batchSize, a.sa,
                        StageState(t.raw, t.cleaner, t.cleaned));
    } else if a.Mask? {
      StageStaysBounded(StageState(s.cleaned, s.masker, s.masked), MaskOption(env), env.batchSize, a.sa,
                        StageState(t.cleaned, t.masker, t.masked));
    }
  }

  lemma {:induction false} RunBounded<Rec>(env: Env<Rec>, records: seq<Rec>, acts: seq<Action>, s: State<Rec>)
    requires env.batchSize >= 1 && Run(env, Init(records), acts) == Some(s) && Undisturbed(s)
    ensures Bounded(env, s)
  {
    if acts != [] {
      var front, a := acts[..|acts| - 1], acts[|acts| - 1];
      var u := Run(env, Init(records), front).value;
      DisturbanceStays(env, u, a);
      RunBounded(env, records, front, u);
      RunInv(env, records, front, u);
      StepStaysBounded(env, u, a, s);
    }
  }

  // However many rows the shard has, an undisturbed run holds no more than seven batches and
  // two records at any time.
  lemma BoundedMemory<Rec>(env: Env<Rec>, records: seq<Rec>, acts: seq<Action>, s: State<Rec>)
    requires env.batchSize >= 1 && Run(env, Init(records), acts) == Some(s) && Undisturbed(s)
    ensures |s.raw.items| <= env.batchSize && |s.cleaned.items| <= env.batchSize && |s.masked.items| <= env.batchSize
    ensures InMemory(s) <= 7 * env.batchSize + 2
  {
    RunBounded(env, records, acts, s);
  }

  // ------------------------------------------------------------------ disturbances

  lemma Extend<Rec>(env: Env<Rec>, i: State<Rec>, acts: seq<Action>, s: State<Rec>, a: Action)
    returns (t: State<Rec>)
    requires Run(env, i, acts) == Some(s) && Step(env, s, a).Some?
    ensures Run(env, i, acts + [a]) == Some(t) && t == Step(env, s, a).value
  {
    assert (acts + [a])[..|acts|] == acts;
    t := Step(env, s, a).value;
  }

  lemma FirstClose<Rec>(env: Env<Rec>, records: seq<Rec>, s: State<Rec>) returns (s0: State<Rec>, s1: State<Rec>)
    requires Inv(env, records, s) && Undisturbed(s) && s.main.Uploading?
    ensures Step(env, s, UploadFails) == Some(s0) && Step(env, s0, CloseNext) == Some(s1)
    ensures s1.stored == None && !s1.cancelled
    ensures s.extractor.Finished? ==> s1.main == Returned(Blank)
    ensures !s.extractor.Finished? ==> s1.main == Closing(1) && !s1.cleaned.closed && !s1.masked.closed
  {
    s0 := Step(env, s, UploadFails).value;
    s1 := Step(env, s0, CloseNext).value;
  }

  lemma OtherCloses<Rec>(env: Env<Rec>, s1: State<Rec>) returns (s2: State<Rec>, t: State<Rec>)
    requires s1.main == Closing(1) && !s1.cleaned.closed && !s1.masked.closed
    ensures Step(env, s1, CloseNext) == Some(s2) && Step(env, s2, CloseNext) == Some(t)
    ensures t.main == Returned(Failed) && t.stored == s1.stored
  {
    s2 := Step(env, s1, CloseNext).value;
    t := Step(env, s2, CloseNext).value;
  }

  lemma RunSnoc<Rec>(env: Env<Rec>, i: State<Rec>, acts: seq<Action>, s: State<Rec>, a: Action, t: State<Rec>)
    requires Run(env, i, acts) == Some(s) && Step(env, s, a) == Some(t)
    ensures Run(env, i, acts + [a]) == Some(t)
  {
    assert (acts + [a])[..|acts|] == acts;
  }

  lemma {:induction false} RunConcat<Rec>(env: Env<Rec>, s: State<Rec>, a: seq<Action>, t: State<Rec>,
          b: seq<Action>, u: State<Rec>)
    requires Run(env, s, a) == Some(t) && Run(env, t, b) == Some(u)
    ensures Run(env, s, a + b) == Some(u)
  {
    if b == [] {
      assert a + b == a;
    } else {
      RunConcat(env, s, a, t, b[..|b| - 1], Run(env, t, b[..|b| - 1]).value);
      assert (a + b)[..|a + b| - 1] == a + b[..|b| - 1];
    }
  }

  lemma RunOne<Rec>(env: Env<Rec>, s: State<Rec>, a: Action, t: State<Rec>)
    requires Step(env, s, a) == Some(t)
    ensures Run(env, s, [a]) == Some(t)
  {
    assert [a][..0] == [] && Run(env, s, []) == Some(s);
  }

  // With the raw channel closed, the first close of the main body panics.
  predicate Doomed<Rec>(s: State<Rec>) {
    s.raw.closed && s.uploadFailed && (s.main == Closing(0) || s.main == Returned(Blank))
  }

  lemma {:induction false} DoomedStays<Rec>(env: Env<Rec>, s: State<Rec>, more: seq<Action>, t: State<Rec>)
    requires Doomed(s) && Run(env, s, more) == Some(t)
    ensures Doomed(t)
  {
    if more != [] {
      var u := Run(env, s, more[..|more| - 1]).value;
      DoomedStays(env, s, more[..|more| - 1], u);
      DoomedStep(env, u, more[|more| - 1], t);
    }
  }

  lemma DoomedStep<Rec>(env: Env<Rec>, s: State<Rec>, a: Action, t: State<Rec>)
    requires Doomed(s) && Step(env, s, a) == Some(t)
    ensures Doomed(t)
  {
  }

  lemma FailureReported<Rec>(env: Env<Rec>, records: seq<Rec>, s: State<Rec>) returns (t: State<Rec>)
    requires Inv(env, records, s) && Undisturbed(s) && s.main.Uploading? && !s.extractor.Finished?
    ensures Run(env, Step(env, s, UploadFails).value, [CloseNext, CloseNext, CloseNext]) == Some(t)
    ensures t.main == Returned(Failed)
  {
    var s0, s1 := FirstClose(env, records, s);
    var s2;
    s2, t := OtherCloses(env, s1);
    assert Run(env, s0, []) == Some(s0);
    RunSnoc(env, s0, [], s0, CloseNext, s1);
    RunSnoc(env, s0, [CloseNext], s1, CloseNext, s2);
    RunSnoc(env, s0, [CloseNext, CloseNext], s2, CloseNext, t);
    assert [CloseNext, CloseNext] + [CloseNext] == [CloseNext, CloseNext, CloseNext];
  }

  // A failing upload in an otherwise undisturbed run, whatever happens afterwards: every
  // call that returns gives the zero ShardResult, which carries no error, exactly when the
  // extract goroutine had already finished.  Otherwise the failure can be reported.
  lemma UploadFailureSwallowed<Rec>(env: Env<Rec>, records: seq<Rec>, acts: seq<Action>, s: State<Rec>)
    requires Run(env, Init(records), acts) == Some(s) && Undisturbed(s) && s.main.Uploading?
    ensures (forall more, t :: Run(env, Step(env, s, UploadFails).value, more) == Some(t) && t.main.Returned? ==>
                                 t.main == Returned(Blank))
            <==> s.extractor.Finished?
  {
    RunInv(env, records, acts, s);
    var s0 := Step(env, s, UploadFails).value;
    if s.extractor.Finished? {
      forall more, t | Run(env, s0, more) == Some(t) && t.main.Returned?
        ensures t.main == Returned(Blank)
      {
        DoomedStays(env, s0, more, t);
      }
    } else {
      var t := FailureReported(env, records, s);
    }
  }

  // Without cancellation another worker can close its channel between two closes of the main
  // body.
  lemma SwallowedWhileExtracting<Rec>(env: Env<Rec>, records: seq<Rec>) returns (t: State<Rec>)
    ensures Run(env, Init(records), [UploadFails, CloseNext] + [Clean(InputEnd), CloseNext]) == Some(t)
    ensures t.main == Returned(Blank) && !t.extractor.Finished?
  {
    var i := Init(records);
    var s1 := Step(env, i, UploadFails).value;
    var s2 := Step(env, s1, CloseNext).value;
    var s3 := Step(env, s2, Clean(InputEnd)).value;
    t := Step(env, s3, CloseNext).value;
    RunTwo(env, i, UploadFails, s1, CloseNext, s2);
    RunTwo(env, s2, Clean(InputEnd), s3, CloseNext, t);
    RunConcat(env, i, [UploadFails, CloseNext], s2, [Clean(InputEnd), CloseNext], t);
  }

  // From every undisturbed state the failure may be swallowed: cancellation ends the extract
  // goroutine before the main body gets to close its channel.
  lemma FailureMayBeSwallowed<Rec>(env: Env<Rec>, records: seq<Rec>, acts: seq<Action>, s: State<Rec>)
    requires Run(env, Init(records), acts) == Some(s) && Undisturbed(s) && s.main.Uploading?
    ensures exists more, t :: Run(env, Step(env, s, UploadFails).value, more) == Some(t) && t.main == Returned(Blank)
  {
    RunInv(env, records, acts, s);
    var more, t := SwallowByCancelling(env, Step(env, s, UploadFails).value);
  }

  lemma SwallowByCancelling<Rec>(env: Env<Rec>, s: State<Rec>) returns (more: seq<Action>, t: State<Rec>)
    requires s.main == Closing(0) && (s.extractor.Finished? ==> s.raw.closed)
    ensures Run(env, s, more) == Some(t) && t.main == Returned(Blank)
  {
    var c := s.(cancelled := true);
    RunOne(env, s, Cancel, c);
    var stops, u := ExtractorStops(env, c);
    t := u.(main := Returned(Blank));
    RunConcat(env, s, [Cancel], c, stops, u);
    RunSnoc(env, s, [Cancel] + stops, u, CloseNext, t);
    more := [Cancel] + stops + [CloseNext];
  }

  lemma ExtractorStops<Rec>(env: Env<Rec>, s: State<Rec>) returns (acts: seq<Action>, t: State<Rec>)
    requires s.cancelled && s.main == Closing(0) && (s.extractor.Finished? ==> s.raw.closed)
    ensures Run(env, s, acts) == Some(t) && t.raw.closed && t.main == Closing(0)
  {
    match s.extractor
    case Finished =>
      acts, t := [], s;
    case Pulling =>
      acts, t := [ExtractCancelled], Step(env, s, ExtractCancelled).value;
      RunOne(env, s, ExtractCancelled, t);
    case Sending(_) =>
      var u := Step(env, s, ExtractCancelled).value;
      t := Step(env, u, ExtractCancelled).value;
      acts := [ExtractCancelled, ExtractCancelled];
      RunTwo(env, s, ExtractCancelled, u, ExtractCancelled, t);
  }

  lemma RunTwo<Rec>(env: Env<Rec>, s: State<Rec>, a: Action, t: State<Rec>, b: Action, u: State<Rec>)
    requires Step(env, s, a) == Some(t) && Step(env, t, b) == Some(u)
    ensures Run(env, s, [a, b]) == Some(u)
  {
    RunOne(env, s, a, t);
    RunSnoc(env, s, [a], t, b, u);
    assert [a] + [b] == [a, b];
  }

  lemma StillUploading<Rec>(env: Env<Rec>, s: State<Rec>, a: Action, t: State<Rec>)
    requires Step(env, s, a) == Some(t) && s.main.Uploading? && !s.writer.Ended? && !a.UploadFails?
    ensures t.main.Uploading?
  {
  }

  lemma TowardsTheEnd<Rec>(env: Env<Rec>, records: seq<Rec>, s: State<Rec>) returns (acts: seq<Action>, t: State<Rec>)
    requires env.batchSize >= 1 && Inv(env, records, s) && Undisturbed(s) && s.main.Uploading? && !s.writer.Ended?
    ensures Run(env, s, acts) == Some(t) && Inv(env, records, t) && Undisturbed(t) && t.main.Uploading?
    ensures Measure(env, records, t) < Measure(env, records, s)
  {
    var a := NextMove(s);
    NeverStuck(env, records, s);
    acts, t := [a], Step(env, s, a).value;
    RunOne(env, s, a, t);
    DisturbanceStays(env, s, a);
    StillUploading(env, s, a, t);
    InvStep(env, records, s, a, t);
    StepDecreases(env, records, s, a, t);
  }

  // Every undisturbed run with the upload still open can be carried on to a point where a
  // failing upload must be swallowed; so every input has such a run.
  lemma {:induction false} SwallowPointReached<Rec>(env: Env<Rec>, records: seq<Rec>, s: State<Rec>)
    returns (more: seq<Action>, t: State<Rec>)
    requires env.batchSize >= 1 && Inv(env, records, s) && Undisturbed(s) && s.main.Uploading?
    ensures Run(env, s, more) == Some(t) && Inv(env, records, t) && Undisturbed(t)
    ensures t.main.Uploading? && t.extractor.Finished?
    decreases Measure(env, records, s)
  {
    if s.writer.Ended? {
      EndedMeansDrained(env, s);
      more, t := [], s;
    } else {
      MeasureNonNegative(env, records, s);
      var first, u := TowardsTheEnd(env, records, s);
      var rest;
      rest, t := SwallowPointReached(env, records, u);
      RunConcat(env, s, first, u, rest, t);
      more := first + rest;
    }
  }

  // A run of the whole call in which the upload fails and the caller sees no error.
  lemma SwallowedRun<Rec>(env: Env<Rec>, records: seq<Rec>) returns (acts: seq<Action>, t: State<Rec>)
    requires env.batchSize >= 1
    ensures Run(env, Init(records), acts) == Some(t) && !t.cancelled && t.main == Returned(Blank) && t.stored == None
  {
    InvInit(env, records);
    var more, s := SwallowPointReached(env, records, Init(records));
    var s0, s1 := FirstClose(env, records, s);
    RunTwo(env, s, UploadFails, s0, CloseNext, s1);
    RunConcat(env, Init(records), more, s, [UploadFails, CloseNext], s1);
    acts, t := more + [UploadFails, CloseNext], s1;
  }

  // A failed upload leaves no object, a successful call has stored one, and the zero result
  // comes from a failed upload only.
  predicate FailureLeavesNothing<Rec>(s: State<Rec>) {
    && (s.uploadFailed ==>
           s.stored == None && (s.main.Closing? || s.main == Returned(Failed) || s.main == Returned(Blank)))
    && (s.main.Uploading? ==> s.stored == None)
    && (s.main.Closing? || s.main == Returned(Blank) ==> s.uploadFailed)
    && (s.main.Uploaded? || s.main.Joining? || (s.main.Returned? && s.main.result.Done?) ==> s.stored.Some?)
  }

  lemma FailureStep<Rec>(env: Env<Rec>, s: State<Rec>, a: Action, t: State<Rec>)
    requires FailureLeavesNothing(s) && Step(env, s, a) == Some(t)
    ensures FailureLeavesNothing(t)
  {
  }

  // Whatever else happens, after a failing upload nothing is ever stored.
  lemma {:induction false} FailedUploadStoresNothing<Rec>(env: Env<Rec>, records: seq<Rec>, acts: seq<Action>,
          s: State<Rec>)
    requires Run(env, Init(records), acts) == Some(s)
    ensures FailureLeavesNothing(s)
  {
    if acts != [] {
      var t := Run(env, Init(records), acts[..|acts| - 1]).value;
      FailedUploadStoresNothing(env, records, acts[..|acts| - 1], t);
      FailureStep(env, t, acts[|acts| - 1], s);
    }
  }

  // ---- cancellation

  // Nothing deliverable is left before the masked channel.
  ghost predicate Dry<Rec>(env: Env<Rec>, s: State<Rec>) {
    Owed(MaskOption(env), s.masker) == [] && AtMasker(env, s) == []
  }

  lemma DryMeans<Rec>(env: Env<Rec>, s: State<Rec>)
    ensures Dry(env, s) <==> AtWriter(env, s) == s.masked.items
  {
    MaskStageIsMap(env, AtMasker(env, s));
    assert |AtWriter(env, s)| == |s.masked.items| + |Owed(MaskOption(env), s.masker)| + |AtMasker(env, s)|;
  }

  // What holds in every run that goes on from a dry state, cancelled or not.
  ghost predicate DryInv<Rec>(env: Env<Rec>, records: seq<Rec>, s: State<Rec>) {
    Dry(env, s) && Conserved(env, records, s) && EndsHonestly(s)
  }

  // Storing waits for the writer, and only a writer that found its channel drained counts.
  ghost predicate EndsHonestly<Rec>(s: State<Rec>) {
    && !s.main.Closing? && (s.main.Uploading? <==> s.stored == None)
    && (!s.main.Uploading? ==> s.writer.Ended? && s.stored == Some(s.received))
    && (s.writer == Ended(true) ==> s.masked.items == [])
    && (s.main.Joining? ==> s.writer == Ended(true))
    && (s.main.Returned? ==>
           s.main.result == Failed || (s.main.result == Done(s.recordCount) && s.writer == Ended(true)))
  }

  lemma NoneKept<Rec>(f: Rec -> Option<Rec>, a: seq<Rec>, b: seq<Rec>)
    ensures FilterMap(f, a + b) == [] <==> FilterMap(f, a) == [] && FilterMap(f, b) == []
  {
    FilterMapAppend(f, a, b);
  }

  // A stage that owes nothing and has nothing acceptable to come sends nothing.
  lemma DryStage<Rec>(s: StageState<Rec>, f: Rec -> Option<Rec>, size: nat, cancelled: bool, a: StageAction,
                      t: StageState<Rec>)
    requires StageStep(s, f, size, cancelled, a) == Some(t)
    requires Owed(f, s.stage) == [] && FilterMap(f, s.input.items) == []
    ensures Owed(f, t.stage) == [] && FilterMap(f, t.input.items) == [] && t.output.items == s.output.items
    ensures s.input.items == [] ==> t.input.items == []
  {
    if a.Receive? {
      var x := s.input.items[0];
      assert s.input.items == [x] + t.input.items;
      NoneKept(f, [x], t.input.items);
      NoneKept(f, s.stage.batch, [x]);
    }
  }

  lemma DryCleaner<Rec>(env: Env<Rec>, s: State<Rec>)
    ensures AtMasker(env, s) == [] <==>
            && s.cleaned.items == [] && Owed(env.clean, s.cleaner) == [] && FilterMap(env.clean, s.raw.items) == []
            && FilterMap(env.clean, Unsent(s.extractor)) == [] && FilterMap(env.clean, s.src) == []
  {
    NoneKept(env.clean, s.raw.items + Unsent(s.extractor), s.src);
    NoneKept(env.clean, s.raw.items, Unsent(s.extractor));
    assert |AtMasker(env, s)| == |s.cleaned.items| + |Owed(env.clean, s.cleaner)| +
             |FilterMap(env.clean, AtCleaner(s))|;
  }

  lemma DryClean<Rec>(env: Env<Rec>, s: State<Rec>, sa: StageAction, t: State<Rec>)
    requires Dry(env, s) && Step(env, s, Clean(sa)) == Some(t)
    ensures Dry(env, t) && t.masked.items == s.masked.items
  {
    DryCleaner(env, s);
    DryCleaner(env, t);
    DryStage(StageState(s.raw, s.cleaner, s.cleaned), env.clean, env.batchSize, s.cancelled, sa,
             StageState(t.raw, t.cleaner, t.cleaned));
  }

  lemma DryMask<Rec>(env: Env<Rec>, s: State<Rec>, sa: StageAction, t: State<Rec>)
    requires Dry(env, s) && Step(env, s, Mask(sa)) == Some(t)
    ensures Dry(env, t) && t.masked.items == s.masked.items
  {
    DryCleaner(env, s);
    DryStage(StageState(s.cleaned, s.masker, s.masked), MaskOption(env), env.batchSize, s.cancelled, sa,
             StageState(t.cleaned, t.masker, t.masked));
    assert AtMasker(env, t) == AtMasker(env, s);
  }

  lemma DryPull<Rec>(env: Env<Rec>, s: State<Rec>, t: State<Rec>)
    requires Dry(env, s) && Step(env, s, Pull) == Some(t)
    ensures Dry(env, t) && t.masked.items == s.masked.items
  {
    assert s.src == [s.src[0]] + t.src;
    assert AtCleaner(t) == AtCleaner(s);
    assert AtMasker(env, t) == AtMasker(env, s);
  }

  lemma DrySend<Rec>(env: Env<Rec>, s: State<Rec>, t: State<Rec>)
    requires Dry(env, s) && Step(env, s, SendRaw) == Some(t)
    ensures Dry(env, t) && t.masked.items == s.masked.items
  {
    DryCleaner(env, s);
    DryCleaner(env, t);
    NoneKept(env.clean, s.raw.items, Unsent(s.extractor));
  }

  lemma DryEnd<Rec>(env: Env<Rec>, s: State<Rec>, a: Action, t: State<Rec>)
    requires Dry(env, s) && Step(env, s, a) == Some(t) && (a.EndOfSource? || a.ExtractCancelled?)
    ensures Dry(env, t) && t.masked.items == s.masked.items
  {
    DryCleaner(env, s);
    DryCleaner(env, t);
  }

  lemma DryElsewhere<Rec>(env: Env<Rec>, s: State<Rec>, a: Action, t: State<Rec>)
    requires Dry(env, s) && Step(env, s, a) == Some(t) && !s.main.Closing?
    requires !a.Clean? && !a.Mask? && !a.Pull? && !a.SendRaw? && !a.EndOfSource? && !a.ExtractCancelled?
    ensures Dry(env, t)
    ensures !a.TakeMasked? ==> t.masked.items == s.masked.items
  {
    assert AtMasker(env, t) == AtMasker(env, s);
  }

  lemma DryStays<Rec>(env: Env<Rec>, s: State<Rec>, a: Action, t: State<Rec>)
    requires Dry(env, s) && Step(env, s, a) == Some(t) && !s.main.Closing?
    ensures Dry(env, t)
    ensures !a.TakeMasked? ==> t.masked.items == s.masked.items
  {
    if a.Clean? {
      DryClean(env, s, a.sa, t);
    } else if a.Mask? {
      DryMask(env, s, a.sa, t);
    } else if a.Pull? {
      DryPull(env, s, t);
    } else if a.SendRaw? {
      DrySend(env, s, t);
    } else if a.EndOfSource? || a.ExtractCancelled? {
      DryEnd(env, s, a, t);
    } else {
      DryElsewhere(env, s, a, t);
    }
  }

  // Only taking a record changes what the writer has taken and pushed.
  lemma WriterFixed<Rec>(env: Env<Rec>, s: State<Rec>, a: Action, t: State<Rec>)
    requires Step(env, s, a) == Some(t) && !a.TakeMasked?
    ensures Taken(t) == Taken(s) && t.received + Rest(t.writer) == s.received + Rest(s.writer)
  {
    if a.UploadRead? {
      assert s.writer.rest == s.writer.rest[..a.n] + s.writer.rest[a.n..];
    }
  }

  lemma DryConserves<Rec>(env: Env<Rec>, records: seq<Rec>, s: State<Rec>, a: Action, t: State<Rec>)
    requires Dry(env, s) && Conserved(env, records, s) && Step(env, s, a) == Some(t) && !s.main.Closing?
    ensures Dry(env, t) && Conserved(env, records, t)
  {
    DryStays(env, s, a, t);
    if a.TakeMasked? {
      TakeStep(env, records, s, t);
    } else {
      DryMeans(env, s);
      DryMeans(env, t);
      WriterFixed(env, s, a, t);
    }
  }

  lemma DryStep<Rec>(env: Env<Rec>, records: seq<Rec>, s: State<Rec>, a: Action, t: State<Rec>)
    requires DryInv(env, records, s) && Step(env, s, a) == Some(t) && !a.UploadFails?
    ensures DryInv(env, records, t)
  {
    DryConserves(env, records, s, a, t);
    DryStays(env, s, a, t);
    HonestStep(env, s, a, t);
  }

  lemma HonestStep<Rec>(env: Env<Rec>, s: State<Rec>, a: Action, t: State<Rec>)
    requires EndsHonestly(s) && Step(env, s, a) == Some(t) && !a.UploadFails?
    requires !a.TakeMasked? ==> t.masked.items == s.masked.items
    ensures EndsHonestly(t)
  {
  }

  lemma FailureIsRemembered<Rec>(env: Env<Rec>, s: State<Rec>, a: Action, t: State<Rec>)
    requires Step(env, s, a) == Some(t) && !t.uploadFailed
    ensures !s.uploadFailed && !a.UploadFails?
  {
  }

  lemma {:induction false} DryRun<Rec>(env: Env<Rec>, records: seq<Rec>, s: State<Rec>, more: seq<Action>,
          t: State<Rec>)
    requires DryInv(env, records, s) && Run(env, s, more) == Some(t) && !t.uploadFailed
    ensures DryInv(env, records, t)
  {
    if more != [] {
      var u := Run(env, s, more[..|more| - 1]).value;
      FailureIsRemembered(env, u, more[|more| - 1], t);
      DryRun(env, records, s, more[..|more| - 1], u);
      DryStep(env, records, u, more[|more| - 1], t);
    }
  }

  lemma DryDoneDelivers<Rec>(env: Env<Rec>, records: seq<Rec>, t: State<Rec>)
    requires DryInv(env, records, t) && Succeeds(t)
    ensures DeliversAll(env, records, t)
  {
    var d := Deliverables(env, records);
    DryMeans(env, t);
    assert AtWriter(env, t) == [];
    assert d[..|d|] == d;
    assert t.received + "" == t.received;
  }

  // The object is complete and its records are counted right.
  ghost predicate DeliversAll<Rec>(env: Env<Rec>, records: seq<Rec>, t: State<Rec>) {
    t.stored == Some(Output(env, Deliverables(env, records))) && t.main == Returned(Done(|Deliverables(env, records)|))
  }

  // What a cancelled goroutine can do to come to its end.
  function StopMove<Rec>(s: State<Rec>): Action {
    if !s.extractor.Finished? then ExtractCancelled
    else if s.cleaner.Flushing? then Clean(if s.cleaner.out == [] then FlushEnd else FlushCancelled)
    else if s.cleaner.Gathering? then Clean(GatherCancelled)
    else if s.masker.Flushing? then Mask(if s.masker.out == [] then FlushEnd else FlushCancelled)
    else Mask(GatherCancelled)
  }

  function StageRank<Rec>(st: Stage<Rec>): nat {
    match st case Gathering(_) => 1 case Flushing(_, _, _) => 2 case Closed => 0
  }

  function StopRank<Rec>(s: State<Rec>): nat {
    (match s.extractor case Pulling => 1 case Sending(_) => 2 case Finished => 0) + StageRank(s.cleaner) +
      StageRank(s.masker)
  }

  // The stages have ended without sending anything more.
  ghost predicate Stopped<Rec>(s: State<Rec>, t: State<Rec>) {
    && t.extractor.Finished? && t.cleaner.Closed? && t.masker.Closed? && t.masked.closed
    && t.masked.items == s.masked.items && SameWriter(s, t)
  }

  predicate SameWriter<Rec>(s: State<Rec>, t: State<Rec>) {
    && t.writer == s.writer && t.recordCount == s.recordCount && t.received == s.received
    && t.stored == s.stored && t.main == s.main && t.cancelled == s.cancelled && t.uploadFailed == s.uploadFailed
  }

  lemma StopStep<Rec>(env: Env<Rec>, s: State<Rec>) returns (acts: seq<Action>, t: State<Rec>)
    requires s.cancelled && (s.masked.closed <==> s.masker.Closed?)
    requires !(s.extractor.Finished? && s.cleaner.Closed? && s.masker.Closed?)
    ensures Run(env, s, acts) == Some(t) && StopRank(t) < StopRank(s)
    ensures (t.masked.closed <==> t.masker.Closed?) && t.masked.items == s.masked.items && SameWriter(s, t)
  {
    acts := [StopMove(s)];
    t := Step(env, s, StopMove(s)).value;
    RunOne(env, s, StopMove(s), t);
  }

  lemma {:induction false} StagesStop<Rec>(env: Env<Rec>, s: State<Rec>) returns (more: seq<Action>, t: State<Rec>)
    requires s.cancelled && (s.masked.closed <==> s.masker.Closed?)
    ensures Run(env, s, more) == Some(t) && Stopped(s, t)
    decreases StopRank(s)
  {
    if s.extractor.Finished? && s.cleaner.Closed? && s.masker.Closed? {
      more, t := [], s;
    } else {
      var first, u := StopStep(env, s);
      var rest;
      rest, t := StagesStop(env, u);
      RunConcat(env, s, first, u, rest, t);
      more := first + rest;
    }
  }

  function DrainRank<Rec>(s: State<Rec>): nat {
    4 * |s.masked.items| +
      (match s.writer case Waiting => 1 case Writing(rest) => (if rest == "" then 2 else 3) case Ended(_) => 0)
    + MainWeight(s.main)
  }

  // What the record count comes to if nothing more is sent to the writer.
  function ToCount<Rec>(s: State<Rec>): nat { Taken(s) + |s.masked.items| }

  // The stages have ended and the writer is still at work, or has ended well.
  predicate Draining<Rec>(s: State<Rec>) {
    && s.extractor.Finished? && s.cleaner.Closed? && s.masker.Closed? && s.masked.closed
    && s.writer != Ended(false) && (s.writer.Ended? ==> s.masked.items == [])
    && (s.main.Uploading? || ((s.main.Uploaded? || s.main.Joining?) && s.writer.Ended?))
  }

  lemma DrainStep<Rec>(env: Env<Rec>, s: State<Rec>) returns (acts: seq<Action>, t: State<Rec>)
    requires Draining(s)
    ensures Run(env, s, acts) == Some(t) && t.uploadFailed == s.uploadFailed
    ensures Draining(t) ==> DrainRank(t) < DrainRank(s) && ToCount(t) == ToCount(s)
    ensures !Draining(t) ==> t.main == Returned(Done(ToCount(s)))
  {
    acts := [NextMove(s)];
    t := Step(env, s, NextMove(s)).value;
    RunOne(env, s, NextMove(s), t);
  }

  lemma {:induction false} WriterDrains<Rec>(env: Env<Rec>, s: State<Rec>) returns (more: seq<Action>, t: State<Rec>)
    requires Draining(s)
    ensures Run(env, s, more) == Some(t) && t.uploadFailed == s.uploadFailed
    ensures t.main == Returned(Done(ToCount(s)))
    decreases DrainRank(s)
  {
    var first, u := DrainStep(env, s);
    if Draining(u) {
      var rest;
      rest, t := WriterDrains(env, u);
      RunConcat(env, s, first, u, rest, t);
      more := first + rest;
    } else {
      more, t := first, u;
    }
  }

  predicate Succeeds<Rec>(t: State<Rec>) { t.main.Returned? && t.main.result.Done? }

  // From a state with deliverable records before the masked channel, cancellation can end
  // in success with too few of them.
  lemma CancelledShort<Rec>(env: Env<Rec>, records: seq<Rec>, s: State<Rec>) returns (more: seq<Action>, t: State<Rec>)
    requires Inv(env, records, s) && Undisturbed(s) && !Dry(env, s)
    ensures Run(env, s.(cancelled := true), more) == Some(t) && !t.uploadFailed
    ensures Succeeds(t) && t.main.result.recordCount < |Deliverables(env, records)|
  {
    DryMeans(env, s);
    if s.writer.Ended? {
      EndedMeansDrained(env, s);
    }
    var c := s.(cancelled := true);
    var first, u := StagesStop(env, c);
    var second;
    second, t := WriterDrains(env, u);
    RunConcat(env, c, first, u, second, t);
    more := first + second;
    assert ToCount(u) == ToCount(s);
    assert |AtWriter(env, s)| > |s.masked.items|;
  }

  lemma DryStart<Rec>(env: Env<Rec>, records: seq<Rec>, s: State<Rec>)
    requires Inv(env, records, s) && Undisturbed(s) && Dry(env, s)
    ensures Step(env, s, Cancel) == Some(s.(cancelled := true))
    ensures DryInv(env, records, s.(cancelled := true))
  {
    var c := s.(cancelled := true);
    assert AtMasker(env, c) == AtMasker(env, s);
    assert AtWriter(env, c) == AtWriter(env, s);
  }

  // Whatever steps follow, unless the upload fails: a call that reports success has
  // delivered everything.
  ghost predicate Harmless<Rec>(env: Env<Rec>, records: seq<Rec>, s: State<Rec>) {
    forall more :: HonestEnd(env, records, Run(env, s, more))
  }

  ghost predicate HonestEnd<Rec>(env: Env<Rec>, records: seq<Rec>, r: Option<State<Rec>>) {
    r.Some? && !r.value.uploadFailed && Succeeds(r.value) ==> DeliversAll(env, records, r.value)
  }

  lemma HarmlessWhenDry<Rec>(env: Env<Rec>, records: seq<Rec>, c: State<Rec>)
    requires DryInv(env, records, c)
    ensures Harmless(env, records, c)
  {
    forall more
      ensures HonestEnd(env, records, Run(env, c, more))
    {
      var r := Run(env, c, more);
      if r.Some? && !r.value.uploadFailed && Succeeds(r.value) {
        DryRun(env, records, c, more, r.value);
        DryDoneDelivers(env, records, r.value);
      }
    }
  }

  // Cancelling an undisturbed run is harmless, in the sense that every call that then
  // reports success has delivered everything, exactly when nothing deliverable is left
  // before the masked channel.
  lemma CancelHarmlessExactlyWhenDry<Rec>(env: Env<Rec>, records: seq<Rec>, acts: seq<Action>, s: State<Rec>)
    requires Run(env, Init(records), acts) == Some(s) && Undisturbed(s)
    ensures Harmless(env, records, s.(cancelled := true)) <==> AtWriter(env, s) == s.masked.items
  {
    RunInv(env, records, acts, s);
    DryMeans(env, s);
    if Dry(env, s) {
      DryStart(env, records, s);
      HarmlessWhenDry(env, records, s.(cancelled := true));
    } else {
      var more, t := CancelledShort(env, records, s);
      assert !HonestEnd(env, records, Run(env, s.(cancelled := true), more));
    }
  }

  // Some cancellation hit an undisturbed run with a deliverable record before the masked
  // channel.
  ghost predicate CutShort<Rec>(env: Env<Rec>, records: seq<Rec>, acts: seq<Action>) {
    exists k :: 0 <= k < |acts| && acts[k].Cancel? && Wet(env, Run(env, Init(records), acts[..k]))
  }

  ghost predicate Wet<Rec>(env: Env<Rec>, r: Option<State<Rec>>) {
    r.Some? && Undisturbed(r.value) && AtWriter(env, r.value) != r.value.masked.items
  }

  ghost predicate OnCourse<Rec>(env: Env<Rec>, records: seq<Rec>, s: State<Rec>) {
    s.uploadFailed || (Undisturbed(s) && Inv(env, records, s)) || DryInv(env, records, s)
  }

  lemma StayOnCourse<Rec>(env: Env<Rec>, records: seq<Rec>, s: State<Rec>, a: Action, t: State<Rec>)
    requires OnCourse(env, records, s) && Step(env, s, a) == Some(t)
    ensures OnCourse(env, records, t) || (a.Cancel? && Wet(env, Some(s)))
  {
    if !t.uploadFailed {
      FailureIsRemembered(env, s, a, t);
      if DryInv(env, records, s) {
        DryStep(env, records, s, a, t);
      } else if a.Cancel? {
        DryMeans(env, s);
        if Dry(env, s) {
          DryStart(env, records, s);
        }
      } else {
        InvStep(env, records, s, a, t);
      }
    }
  }

  lemma {:induction false} OnCourseUnlessCutShort<Rec>(env: Env<Rec>, records: seq<Rec>, acts: seq<Action>,
          s: State<Rec>)
    requires Run(env, Init(records), acts) == Some(s)
    ensures OnCourse(env, records, s) || CutShort(env, records, acts)
  {
    if acts == [] {
      InvInit(env, records);
    } else {
      var front, a := acts[..|acts| - 1], acts[|acts| - 1];
      var u := Run(env, Init(records), front).value;
      OnCourseUnlessCutShort(env, records, front, u);
      if CutShort(env, records, front) {
        var k :| 0 <= k < |front| && front[k].Cancel? && Wet(env, Run(env, Init(records), front[..k]));
        assert acts[..k] == front[..k] && acts[k] == front[k];
      } else {
        StayOnCourse(env, records, u, a, s);
      }
    }
  }

  // Over all runs: a call that reports success has delivered everything, unless it was
  // cancelled with something deliverable still before the masked channel.
  lemma SuccessDeliversUnlessCutShort<Rec>(env: Env<Rec>, records: seq<Rec>, acts: seq<Action>, s: State<Rec>)
    requires Run(env, Init(records), acts) == Some(s) && Succeeds(s)
    ensures DeliversAll(env, records, s) || CutShort(env, records, acts)
  {
    OnCourseUnlessCutShort(env, records, acts, s);
    FailedUploadStoresNothing(env, records, acts, s);
    if DryInv(env, records, s) {
      DryDoneDelivers(env, records, s);
    } else if !CutShort(env, records, acts) {
      ReturnedMeansDelivered(env, records, acts, s);
    }
  }

  // ---- a cancelled run that repeats a record

  // Two records c1, c2 come out of the raw channel of a pipeline with batches of two.
  ghost predicate Gathered<Rec>(s: State<Rec>, r1: Rec, r2: Rec) {
    && s == Init([r1, r2]).(src := [], extractor := Finished, raw := Chan([], true), cleaner := s.cleaner)
    && s.cleaner.Flushing? && s.cleaner.batch == [r1, r2] && !s.cleaner.last
  }

  lemma GatherBoth<Rec>(env: Env<Rec>, r1: Rec, r2: Rec) returns (acts: seq<Action>, t: State<Rec>)
    requires env.batchSize == 2
    ensures Run(env, Init([r1, r2]), acts) == Some(t) && Gathered(t, r1, r2)
    ensures t.cleaner.out == FilterMap(env.clean, [r1, r2])
  {
    var s := Init([r1, r2]);
    t := s;
    assert Run(env, s, []) == Some(s);
    acts := [];
    t := Extend(env, s, acts, t, Pull);
    acts := acts + [Pull];
    t := Extend(env, s, acts, t, SendRaw);
    acts := acts + [SendRaw];
    t := Extend(env, s, acts, t, Pull);
    acts := acts + [Pull];
    t := Extend(env, s, acts, t, SendRaw);
    acts := acts + [SendRaw];
    t := Extend(env, s, acts, t, EndOfSource);
    acts := acts + [EndOfSource];
    assert t == s.(src := [], extractor := Finished, raw := Chan([r1, r2], true));
    t := Extend(env, s, acts, t, Clean(Receive));
    acts := acts + [Clean(Receive)];
    assert t.cleaner == Gathering([r1]) && t.raw == Chan([r2], true);
    t := Extend(env, s, acts, t, Clean(Receive));
    acts := acts + [Clean(Receive)];
  }

  lemma AcceptedPair<Rec>(f: Rec -> Option<Rec>, r1: Rec, r2: Rec)
    requires f(r1).Some? && f(r2).Some?
    ensures FilterMap(f, [r1, r2]) == [f(r1).value, f(r2).value]
  {
    assert [r1, r2][1..] == [r2] && [r2][1..] == [];
  }

  // The flush is interrupted after the first record, and the whole batch is flushed again
  // when the input ends.
  lemma FlushTwice<Rec>(env: Env<Rec>, s: State<Rec>, r1: Rec, r2: Rec, c1: Rec, c2: Rec)
    returns (acts: seq<Action>, t: State<Rec>)
    requires env.batchSize == 2 && env.clean(r1) == Some(c1) && env.clean(r2) == Some(c2)
    requires Gathered(s, r1, r2) && s.cleaner.out == [c1, c2]
    ensures Run(env, s, acts) == Some(t)
    ensures t == s.(cleaner := Flushing([r1, r2], [c2], true), cleaned := Chan([c1, c1], false), cancelled := true)
  {
    AcceptedPair(env.clean, r1, r2);
    t := s;
    assert Run(env, s, []) == Some(s);
    acts := [];
    t := Extend(env, s, acts, t, Clean(Emit));
    acts := acts + [Clean(Emit)];
    t := Extend(env, s, acts, t, Cancel);
    acts := acts + [Cancel];
    t := Extend(env, s, acts, t, Clean(FlushCancelled));
    acts := acts + [Clean(FlushCancelled)];
    t := Extend(env, s, acts, t, Clean(InputEnd));
    acts := acts + [Clean(InputEnd)];
    t := Extend(env, s, acts, t, Clean(Emit));
    acts := acts + [Clean(Emit)];
  }

  lemma RunFour<Rec>(env: Env<Rec>, s: State<Rec>, a: Action, s1: State<Rec>, b: Action, s2: State<Rec>,
                     c: Action, s3: State<Rec>, d: Action, s4: State<Rec>)
    requires Step(env, s, a) == Some(s1) && Step(env, s1, b) == Some(s2)
    requires Step(env, s2, c) == Some(s3) && Step(env, s3, d) == Some(s4)
    ensures Run(env, s, [a, b] + [c, d]) == Some(s4)
  {
    RunTwo(env, s, a, s1, b, s2);
    RunTwo(env, s2, c, s3, d, s4);
    RunConcat(env, s, [a, b], s2, [c, d], s4);
  }

  lemma FlushRest<Rec>(env: Env<Rec>, s: State<Rec>, batch: seq<Rec>, c1: Rec, c2: Rec)
    returns (acts: seq<Action>, t: State<Rec>)
    requires env.batchSize == 2 && s.cleaner == Flushing(batch, [c2], true) && s.cleaned == Chan([c1, c1], false)
    requires s.masker == Gathering([])
    ensures Run(env, s, acts) == Some(t)
    ensures t == s.(cleaner := Closed, cleaned := Chan([c2], true),
                    masker := Flushing([c1, c1], [env.mask(c1), env.mask(c1)], false))
  {
    AcceptedPair(MaskOption(env), c1, c1);
    assert [c1, c1][1..] == [c1] && [c1][1..] == [] && [c2][1..] == [];
    assert [] + [c1] == [c1] && [c1] + [c1] == [c1, c1] && [] + [c2] == [c2];
    var s1 := s.(cleaned := Chan([c1], false), masker := Gathering([c1]));
    var s2 := s.(cleaned := Chan([], false), masker := Flushing([c1, c1], [env.mask(c1), env.mask(c1)], false));
    var s3 := s2.(cleaner := Flushing(batch, [], true), cleaned := Chan([c2], false));
    t := s3.(cleaner := Closed, cleaned := Chan([c2], true));
    RunFour(env, s, Mask(Receive), s1, Mask(Receive), s2, Clean(Emit), s3, Clean(FlushEnd), t);
    acts := [Mask(Receive), Mask(Receive)] + [Clean(Emit), Clean(FlushEnd)];
  }

  lemma MaskPair<Rec>(env: Env<Rec>, s: State<Rec>, m1: Rec, batch: seq<Rec>) returns (acts: seq<Action>, t: State<Rec>)
    requires env.batchSize == 2 && s.masked == Chan([], false) && s.masker == Flushing(batch, [m1, m1], false)
    ensures Run(env, s, acts) == Some(t)
    ensures t == s.(masker := Gathering([]), masked := Chan([m1, m1], false))
  {
    assert [m1, m1][1..] == [m1] && [m1][1..] == [] && [] + [m1] == [m1] && [m1] + [m1] == [m1, m1];
    var s1 := s.(masker := Flushing(batch, [m1], false), masked := Chan([m1], false));
    var s2 := s.(masker := Flushing(batch, [], false), masked := Chan([m1, m1], false));
    t := s2.(masker := Gathering([]));
    RunTwo(env, s, Mask(Emit), s1, Mask(Emit), s2);
    RunSnoc(env, s, [Mask(Emit), Mask(Emit)], s2, Mask(FlushEnd), t);
    acts := [Mask(Emit), Mask(Emit)] + [Mask(FlushEnd)];
  }

  lemma MaskLast<Rec>(env: Env<Rec>, s: State<Rec>, m1: Rec, c2: Rec) returns (acts: seq<Action>, t: State<Rec>)
    requires env.batchSize == 2 && s.cleaned == Chan([c2], true) && s.masked == Chan([m1], false)
    requires s.masker == Gathering([])
    ensures Run(env, s, acts) == Some(t)
    ensures t == s.(cleaned := Chan([], true), masker := Closed, masked := Chan([m1, env.mask(c2)], true))
  {
    var m2 := env.mask(c2);
    assert [c2][1..] == [] && [m2][1..] == [] && [] + [c2] == [c2] && [m1] + [m2] == [m1, m2];
    assert FilterMap(MaskOption(env), [c2]) == [m2];
    var s1 := s.(cleaned := Chan([], true), masker := Gathering([c2]));
    var s2 := s1.(masker := Flushing([c2], [m2], true));
    var s3 := s1.(masker := Flushing([c2], [], true), masked := Chan([m1, m2], false));
    t := s1.(masker := Closed, masked := Chan([m1, m2], true));
    RunFour(env, s, Mask(Receive), s1, Mask(InputEnd), s2, Mask(Emit), s3, Mask(FlushEnd), t);
    acts := [Mask(Receive), Mask(InputEnd)] + [Mask(Emit), Mask(FlushEnd)];
  }

  // The writer takes one record, and the uploader its line.
  lemma WriteOne<Rec>(env: Env<Rec>, s: State<Rec>, m: Rec, rest: seq<Rec>) returns (acts: seq<Action>, t: State<Rec>)
    requires s.writer.Waiting? && s.main.Uploading? && s.masked.items == [m] + rest && env.line(m) != ""
    ensures Run(env, s, acts) == Some(t)
    ensures t == s.(masked := Chan(rest, s.masked.closed), received := s.received + env.line(m),
                    recordCount := s.recordCount + 1)
  {
    var line := env.line(m);
    assert s.masked.items[1..] == rest && line[..|line|] == line && line[|line|..] == "";
    var s1 := s.(writer := Writing(line), masked := Chan(rest, s.masked.closed));
    var s2 := s1.(writer := Writing(""), received := s.received + line);
    t := s2.(writer := Waiting, recordCount := s.recordCount + 1);
    RunTwo(env, s, TakeMasked, s1, UploadRead(|line|), s2);
    RunSnoc(env, s, [TakeMasked, UploadRead(|line|)], s2, WriteDone, t);
    acts := [TakeMasked, UploadRead(|line|)] + [WriteDone];
  }

  lemma ReturnDone<Rec>(env: Env<Rec>, s: State<Rec>) returns (acts: seq<Action>, t: State<Rec>)
    requires s.writer.Waiting? && s.main.Uploading? && s.masked == Chan([], true)
    requires s.extractor.Finished? && s.cleaner.Closed? && s.masker.Closed?
    ensures Run(env, s, acts) == Some(t) && t.uploadFailed == s.uploadFailed
    ensures t.stored == Some(s.received) && t.main == Returned(Done(s.recordCount))
  {
    var s1 := s.(writer := Ended(true));
    var s2 := s1.(stored := Some(s.received), main := Uploaded);
    var s3 := s2.(main := Joining);
    t := s3.(main := Returned(Done(s.recordCount)));
    RunFour(env, s, WriterEnd, s1, UploadEnd, s2, CheckWriter, s3, Join, t);
    acts := [WriterEnd, UploadEnd] + [CheckWriter, Join];
  }

  // With batches of two, two accepted records and a cancellation in the middle of the first
  // flush, a call can report three records, and its object has the first line twice.
  lemma CancelledRunRepeats<Rec>(env: Env<Rec>, r1: Rec, r2: Rec) returns (acts: seq<Action>, t: State<Rec>)
    requires env.batchSize == 2 && env.clean(r1).Some? && env.clean(r2).Some?
    requires env.line(env.mask(env.clean(r1).value)) != "" && env.line(env.mask(env.clean(r2).value)) != ""
    ensures Run(env, Init([r1, r2]), acts) == Some(t) && !t.uploadFailed && t.main == Returned(Done(3))
    ensures var l1, l2 := env.line(env.mask(env.clean(r1).value)), env.line(env.mask(env.clean(r2).value));
            t.stored == Some("" + l1 + l1 + l2)
  {
    var c1, c2 := env.clean(r1).value, env.clean(r2).value;
    var i := Init([r1, r2]);
    AcceptedPair(env.clean, r1, r2);
    var a, u := GatherBoth(env, r1, r2);
    var b, v := FlushTwice(env, u, r1, r2, c1, c2);
    RunConcat(env, i, a, u, b, v);
    var c, w := FlushRest(env, v, [r1, r2], c1, c2);
    RunConcat(env, i, a + b, v, c, w);
    var d;
    d, t := DeliverRepeated(env, w, c1, c2);
    RunConcat(env, i, a + b + c, w, d, t);
    acts := a + b + c + d;
  }

  lemma DeliverRepeated<Rec>(env: Env<Rec>, s: State<Rec>, c1: Rec, c2: Rec) returns (acts: seq<Action>, t: State<Rec>)
    requires env.batchSize == 2 && s.extractor.Finished? && s.cleaner.Closed? && s.cleaned == Chan([c2], true)
    requires s.masker == Flushing([c1, c1], [env.mask(c1), env.mask(c1)], false) && s.masked == Chan([], false)
    requires s.writer.Waiting? && s.main.Uploading?
    requires env.line(env.mask(c1)) != "" && env.line(env.mask(c2)) != ""
    ensures Run(env, s, acts) == Some(t) && t.uploadFailed == s.uploadFailed
    ensures t.main == Returned(Done(s.recordCount + 3))
    ensures t.stored == Some(s.received + env.line(env.mask(c1)) + env.line(env.mask(c1)) + env.line(env.mask(c2)))
  {
    var m1, m2 := env.mask(c1), env.mask(c2);
    var a, s1 := DeliverFirst(env, s, c1, c2);
    var b;
    b, t := WriteTwo(env, s1, m1, m2);
    RunConcat(env, s, a, s1, b, t);
    acts := a + b;
  }

  lemma DeliverFirst<Rec>(env: Env<Rec>, s: State<Rec>, c1: Rec, c2: Rec) returns (acts: seq<Action>, t: State<Rec>)
    requires env.batchSize == 2 && s.cleaned == Chan([c2], true)
    requires s.masker == Flushing([c1, c1], [env.mask(c1), env.mask(c1)], false) && s.masked == Chan([], false)
    requires s.writer.Waiting? && s.main.Uploading? && env.line(env.mask(c1)) != ""
    ensures Run(env, s, acts) == Some(t)
    ensures t == s.(cleaned := Chan([], true), masker := Closed, masked := Chan([env.mask(c1), env.mask(c2)], true),
                    received := s.received + env.line(env.mask(c1)), recordCount := s.recordCount + 1)
  {
    var m1 := env.mask(c1);
    assert [m1, m1] == [m1] + [m1];
    var a, s1 := MaskPair(env, s, m1, [c1, c1]);
    var b, s2 := WriteOne(env, s1, m1, [m1]);
    var c;
    c, t := MaskLast(env, s2, m1, c2);
    RunConcat(env, s, a, s1, b, s2);
    RunConcat(env, s, a + b, s2, c, t);
    acts := a + b + c;
  }

  lemma WriteTwo<Rec>(env: Env<Rec>, s: State<Rec>, m1: Rec, m2: Rec) returns (acts: seq<Action>, t: State<Rec>)
    requires s.writer.Waiting? && s.main.Uploading? && s.masked == Chan([m1, m2], true)
    requires s.extractor.Finished? && s.cleaner.Closed? && s.masker.Closed?
    requires env.line(m1) != "" && env.line(m2) != ""
    ensures Run(env, s, acts) == Some(t) && t.uploadFailed == s.uploadFailed
    ensures t.stored == Some(s.received + env.line(m1) + env.line(m2))
    ensures t.main == Returned(Done(s.recordCount + 2))
  {
    assert [m1, m2] == [m1] + [m2] && [m2] == [m2] + [];
    var a, s1 := WriteOne(env, s, m1, [m2]);
    var b, s2 := WriteOne(env, s1, m2, []);
    var c;
    c, t := ReturnDone(env, s2);
    RunConcat(env, s, a, s1, b, s2);
    RunConcat(env, s, a + b, s2, c, t);
    acts := a + b + c;
  }

  // Cancellation before the first record: every goroutine sees its input end, and the
  // call reports success for an empty object.
  lemma CancelledRunReportsSuccess<Rec>(env: Env<Rec>, records: seq<Rec>) returns (acts: seq<Action>, t: State<Rec>)
    ensures Run(env, Init(records), acts) == Some(t) && t.cancelled && !t.uploadFailed
    ensures t.main == Returned(Done(0)) && t.stored == Some("")
  {
    var i := Init(records);
    acts, t := StagesEndOnCancel(env, records);
    t := Extend(env, i, acts, t, WriterEnd);
    acts := acts + [WriterEnd];
    t := Extend(env, i, acts, t, UploadEnd);
    acts := acts + [UploadEnd];
    t := Extend(env, i, acts, t, CheckWriter);
    acts := acts + [CheckWriter];
    t := Extend(env, i, acts, t, Join);
    acts := acts + [Join];
  }

  lemma StagesEndOnCancel<Rec>(env: Env<Rec>, records: seq<Rec>) returns (acts: seq<Action>, t: State<Rec>)
    ensures Run(env, Init(records), acts) == Some(t)
    ensures t == Init(records).(extractor := Finished, raw := Chan([], true), cleaner := Closed,
                                cleaned := Chan([], true),
                                masker := Closed, masked := Chan([], true), cancelled := true)
  {
    var i := Init(records);
    acts := [];
    t := Extend(env, i, acts, i, Cancel);
    acts := acts + [Cancel];
    t := Extend(env, i, acts, t, ExtractCancelled);
    acts := acts + [ExtractCancelled];
    t := Extend(env, i, acts, t, Clean(InputEnd));
    acts := acts + [Clean(InputEnd)];
    t := Extend(env, i, acts, t, Mask(InputEnd));
    acts := acts + [Mask(InputEnd)];
  }
}
