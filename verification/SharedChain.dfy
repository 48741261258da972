// One chain object cloned into several threads (src/client.rs:139-152). An add
// takes the database lock four separate times, so the adds of different threads
// interleave between those points; mining reads the tip a fifth time first.
module SharedChain {
  import opened Interface
  import opened BlockTree

  datatype Job = Job(header: Header, mining: bool)

  // How far a thread is inside `try_add_block_header`. `raised` records whether
  // the thread's own write raised the tip; the program does not keep it.
  datatype Thread =
    | Idle
    | Started(job: Job)
    | Validated(job: Job)
    | TipRead(job: Job, oldTip: nat)
    | Wrote(job: Job, oldTip: nat, raised: bool)

  datatype Finished =
    | Refused(job: Job, error: Error)
    | Reported(job: Job, oldTip: nat, newTip: nat, raised: bool, result: AddedBlockResult)

  datatype State = State(tables: Tables, threads: seq<Thread>, log: seq<Finished>)

  // Disabled steps leave the state alone, so every sequence of steps is a run.
  datatype Step =
    | Begin(thread: nat, header: Header)
    | BeginMining(thread: nat, nonce: nat, hash: string)
    | Advance(thread: nat)

  function TipNumber(t: Tables): nat
    requires t.headers != map[]
  {
    t.headers[Last(t.headers)].number
  }

  function Next(s: State, step: Step): (s': State)
    requires s.tables.headers != map[]
    ensures s'.tables.headers != map[] && |s'.threads| == |s.threads|
  {
    if step.thread >= |s.threads| then s
    else
      match step
      case Begin(i, h) =>
        if s.threads[i].Idle? then s.(threads := s.threads[i := Started(Job(h, false))]) else s
      case BeginMining(i, nonce, hash) =>
        if s.threads[i].Idle? then
          var tip := s.tables.headers[Last(s.tables.headers)];
          s.(threads := s.threads[i := Started(Job(MinedOn(tip, nonce, hash), true))])
        else s
      case Advance(i) =>
        match s.threads[i]
        case Idle => s
        case Started(job) =>
          (match Validate(s.tables.headers, job.header)
           case Err(e) => s.(threads := s.threads[i := Idle], log := s.log + [Refused(job, e)])
           case Ok(_) => s.(threads := s.threads[i := Validated(job)]))
        case Validated(job) =>
          s.(threads := s.threads[i := TipRead(job, TipNumber(s.tables))])
        case TipRead(job, oldTip) =>
          var t' := Insert(s.tables, job.header);
          s.(tables := t', threads := s.threads[i := Wrote(job, oldTip, TipNumber(s.tables) < TipNumber(t'))])
        case Wrote(job, oldTip, raised) =>
          var newTip := TipNumber(s.tables);
          s.(threads := s.threads[i := Idle],
             log := s.log + [Reported(job, oldTip, newTip, raised, Report(oldTip, newTip))])
  }

  function Run(s: State, steps: seq<Step>): (s': State)
    requires s.tables.headers != map[]
    ensures s'.tables.headers != map[] && |s'.threads| == |s.threads|
    decreases |steps|
  {
    if steps == [] then s else Run(Next(s, steps[0]), steps[1..])
  }

  function Init(threads: nat): State {
    State(InitialTables(), seq(threads, _ => Idle), [])
  }

  // ----- Any threads, any headers, any interleaving -----

  /** The parent slot of a header past validation is still there. */
  ghost predicate Placeable(hs: HeaderTable, h: Header)
    requires hs != map[]
  {
    h == Genesis() || 1 <= h.number <= Last(hs) + 1
  }

  ghost predicate ThreadOk(hs: HeaderTable, thread: Thread)
    requires hs != map[]
  {
    match thread
    case Idle => true
    case Started(_) => true
    case Validated(job) => Placeable(hs, job.header)
    case TipRead(job, oldTip) => Placeable(hs, job.header) && oldTip <= Last(hs)
    case Wrote(_, oldTip, raised) => oldTip <= Last(hs) && (raised ==> oldTip < Last(hs))
  }

  ghost predicate EntryOk(e: Finished) {
    e.Reported? ==>
      && (e.raised ==> e.result == ExtendTip)
      && (e.result == ExtendTip <==> e.oldTip < e.newTip)
  }

  function RaisesLogged(log: seq<Finished>): nat {
    if log == [] then 0
    else RaisesLogged(log[..|log| - 1]) + var e := log[|log| - 1]; if e.Reported? && e.raised then 1 else 0
  }

  function RaisesUnreported(threads: seq<Thread>): nat {
    if threads == [] then 0
    else RaisesUnreported(threads[1..]) + RaiseOf(threads[0])
  }

  function RaiseOf(thread: Thread): nat {
    if thread.Wrote? && thread.raised then 1 else 0
  }

  lemma {:induction false} RaisesAfterUpdate(threads: seq<Thread>, i: nat, thread: Thread)
    requires i < |threads|
    ensures RaisesUnreported(threads[i := thread]) + RaiseOf(threads[i]) == RaisesUnreported(threads) + RaiseOf(thread)
  {
    if i == 0 {
      assert threads[0 := thread][1..] == threads[1..];
    } else {
      assert threads[i := thread][1..] == threads[1..][i - 1 := thread];
      RaisesAfterUpdate(threads[1..], i - 1, thread);
    }
  }

  ghost predicate Inv(s: State) {
    && WellFormed(s.tables.headers)
    && (forall i | 0 <= i < |s.threads| :: ThreadOk(s.tables.headers, s.threads[i]))
    && (forall i | 0 <= i < |s.log| :: EntryOk(s.log[i]))
    && Last(s.tables.headers) == RaisesLogged(s.log) + RaisesUnreported(s.threads)
  }

  /** A write of a placeable header raises the tip by one or not at all. */
  lemma WriteKeepsWellFormed(t: Tables, h: Header)
    requires WellFormed(t.headers) && Placeable(t.headers, h)
    ensures
      var t' := Insert(t, h);
      && WellFormed(t'.headers)
      && Last(t'.headers) == (if h.number == Last(t.headers) + 1 then Last(t.headers) + 1 else Last(t.headers))
      && TipNumber(t') == Last(t'.headers)
  {
    LastAfterInsert(t.headers, h.number, h);
  }

  lemma NextKeepsTables(s: State, step: Step)
    requires Inv(s)
    ensures WellFormed(Next(s, step).tables.headers)
    ensures Last(s.tables.headers) <= Last(Next(s, step).tables.headers)
  {
    if step.thread < |s.threads| && step.Advance? && s.threads[step.thread].TipRead? {
      WriteKeepsWellFormed(s.tables, s.threads[step.thread].job.header);
    }
  }

  lemma NextKeepsThread(s: State, step: Step, i: nat)
    requires Inv(s) && i < |s.threads|
    ensures ThreadOk(Next(s, step).tables.headers, Next(s, step).threads[i])
  {
    NextKeepsTables(s, step);
    assert ThreadOk(s.tables.headers, s.threads[i]);
    if step.thread == i && step.Advance? && s.threads[i].TipRead? {
      WriteKeepsWellFormed(s.tables, s.threads[i].job.header);
    }
  }

  lemma NextKeepsCount(s: State, step: Step)
    requires Inv(s)
    ensures
      var s' := Next(s, step);
      && (forall i | 0 <= i < |s'.log| :: EntryOk(s'.log[i]))
      && Last(s'.tables.headers) == RaisesLogged(s'.log) + RaisesUnreported(s'.threads)
  {
    if step.thread < |s.threads| {
      var i := step.thread;
      var s' := Next(s, step);
      assert ThreadOk(s.tables.headers, s.threads[i]);
      RaisesAfterUpdate(s.threads, i, s'.threads[i]);
      assert s'.threads == s.threads[i := s'.threads[i]];
      if step.Advance? && s.threads[i].TipRead? {
        WriteKeepsWellFormed(s.tables, s.threads[i].job.header);
      }
      assert s'.log != s.log ==> s'.log[..|s'.log| - 1] == s.log;
    }
  }

  lemma NextKeepsInv(s: State, step: Step)
    requires Inv(s)
    ensures Inv(Next(s, step))
    ensures Last(s.tables.headers) <= Last(Next(s, step).tables.headers)
  {
    NextKeepsTables(s, step);
    NextKeepsCount(s, step);
    forall i | 0 <= i < |Next(s, step).threads|
      ensures ThreadOk(Next(s, step).tables.headers, Next(s, step).threads[i])
    {
      NextKeepsThread(s, step, i);
    }
  }

  lemma {:induction false} RunKeepsInv(s: State, steps: seq<Step>)
    requires Inv(s)
    ensures Inv(Run(s, steps))
    ensures Last(s.tables.headers) <= Last(Run(s, steps).tables.headers)
    decreases |steps|
  {
    if steps == [] {
    } else {
      NextKeepsInv(s, steps[0]);
      RunKeepsInv(Next(s, steps[0]), steps[1..]);
    }
  }

  lemma {:induction false} InitHolds(n: nat)
    ensures Inv(Init(n))
    ensures RaisesUnreported(Init(n).threads) == 0
  {
    if n == 0 {
    } else {
      InitHolds(n - 1);
      assert Init(n).threads[1..] == Init(n - 1).threads;
    }
  }

  /** In every state any number of interleaved adds can reach: the stored
      numbers are exactly 0..tip, each header is under its own number, a write
      that raised the tip was reported `ExtendTip`, `ExtendTip` means the tip
      rose between the thread's two reads, and the tip is the number of writes
      that raised it. */
  lemma InterleavedAdds(n: nat, steps: seq<Step>)
    ensures
      var s := Run(Init(n), steps);
      var hs := s.tables.headers;
      && (forall k: nat :: k in hs <==> k <= Last(hs))
      && (forall k | k in hs :: hs[k].number == k)
      && hs[0] == Genesis()
      && (forall i | 0 <= i < |s.log| && s.log[i].Reported? && s.log[i].raised ::
            s.log[i].result == ExtendTip)
      && (forall i | 0 <= i < |s.log| && s.log[i].Reported? && s.log[i].result == ExtendTip ::
            s.log[i].oldTip < s.log[i].newTip)
      && Last(hs) == RaisesLogged(s.log) + RaisesUnreported(s.threads)
  {
    InitHolds(n);
    RunKeepsInv(Init(n), steps);
    var s := Run(Init(n), steps);
    assert forall i | 0 <= i < |s.log| :: EntryOk(s.log[i]);
  }

  lemma {:induction false} RunConcat(s: State, a: seq<Step>, b: seq<Step>)
    requires s.tables.headers != map[]
    ensures Run(s, a + b) == Run(Run(s, a), b)
    decreases |a|
  {
    if a == [] {
      assert a + b == b;
    } else {
      assert (a + b)[1..] == a[1..] + b;
      RunConcat(Next(s, a[0]), a[1..], b);
    }
  }

  /** Over a run the tip never falls. */
  lemma TipNeverFalls(n: nat, before: seq<Step>, after: seq<Step>)
    ensures Last(Run(Init(n), before).tables.headers) <= Last(Run(Init(n), before + after).tables.headers)
  {
    InitHolds(n);
    RunKeepsInv(Init(n), before);
    RunKeepsInv(Run(Init(n), before), after);
    RunConcat(Init(n), before, after);
  }

  // ----- One miner, everybody else adding blocks that were already mined -----

  ghost predicate Stored(hs: HeaderTable, h: Header) {
    h.number in hs && hs[h.number] == h
  }

  ghost predicate OneMinerStep(miner: nat, s: State, step: Step) {
    match step
    case Begin(i, h) => i != miner && Stored(s.tables.headers, h)
    case BeginMining(i, _, _) => i == miner
    case Advance(_) => true
  }

  ghost predicate OneMinerRun(miner: nat, s: State, steps: seq<Step>)
    requires s.tables.headers != map[]
    decreases |steps|
  {
    steps != [] ==>
      OneMinerStep(miner, s, steps[0]) && OneMinerRun(miner, Next(s, steps[0]), steps[1..])
  }

  /** What `mine_block` returns when its add ends this way. */
  function MiningResult(e: Finished): MineBlockResult {
    match e
    case Refused(_, error) => Panicked(error)
    case Reported(_, _, _, _, AlreadyInChain) => BlockFallingBehind
    case Reported(job, _, _, _, ExtendTip) => Mined(job.header)
  }

  function Mines(log: seq<Finished>): nat {
    if log == [] then 0 else Mines(log[..|log| - 1]) + if log[|log| - 1].job.mining then 1 else 0
  }

  ghost predicate BuildsOnTip(hs: HeaderTable, h: Header)
    requires hs != map[]
  {
    h.number == Last(hs) + 1 && h.parentHash == hs[Last(hs)].hash
  }

  ghost predicate MinerOk(hs: HeaderTable, thread: Thread)
    requires WellFormed(hs)
  {
    match thread
    case Idle => true
    case Started(job) => job.mining && BuildsOnTip(hs, job.header)
    case Validated(job) => job.mining && BuildsOnTip(hs, job.header)
    case TipRead(job, oldTip) => job.mining && BuildsOnTip(hs, job.header) && oldTip == Last(hs)
    case Wrote(job, oldTip, raised) =>
      job.mining && raised && hs[Last(hs)] == job.header && Last(hs) == oldTip + 1
  }

  ghost predicate AdderOk(hs: HeaderTable, thread: Thread) {
    thread.Idle? || (!thread.job.mining && Stored(hs, thread.job.header) && (thread.Wrote? ==> !thread.raised))
  }

  ghost predicate MinedOk(e: Finished) {
    if e.job.mining then
      && MiningResult(e) == Mined(e.job.header)
      && e.raised
      && e.newTip == e.oldTip + 1 == e.job.header.number
    else e.Reported? && !e.raised
  }

  ghost predicate MiningInv(miner: nat, s: State) {
    && WellFormed(s.tables.headers)
    && Linked(s.tables.headers)
    && miner < |s.threads|
    && MinerOk(s.tables.headers, s.threads[miner])
    && (forall i | 0 <= i < |s.threads| && i != miner :: AdderOk(s.tables.headers, s.threads[i]))
    && (forall i | 0 <= i < |s.log| :: MinedOk(s.log[i]))
    && Last(s.tables.headers) == Mines(s.log) + (if s.threads[miner].Wrote? then 1 else 0)
  }

  /** A write by anybody but the miner leaves the table as it is. */
  lemma RewriteIsIdentity(hs: HeaderTable, h: Header)
    requires Stored(hs, h)
    ensures hs[h.number := h] == hs
  {
  }

  lemma AppendToLinked(t: Tables, h: Header)
    requires WellFormed(t.headers) && Linked(t.headers) && BuildsOnTip(t.headers, h)
    ensures
      var hs' := Insert(t, h).headers;
      && WellFormed(hs') && Linked(hs')
      && Last(hs') == Last(t.headers) + 1 && hs'[Last(hs')] == h
      && (forall k | k in t.headers :: k in hs' && hs'[k] == t.headers[k])
  {
    WriteKeepsWellFormed(t, h);
    ExtendKeepsLinked(t, h);
  }

  lemma MinerWriteKeepsInv(miner: nat, s: State)
    requires MiningInv(miner, s) && s.threads[miner].TipRead?
    ensures MiningInv(miner, Next(s, Advance(miner)))
  {
    AppendToLinked(s.tables, s.threads[miner].job.header);
  }

  /** A step that only moves the miner's own program counter. */
  lemma MinerMoveKeepsInv(miner: nat, s: State, thread: Thread)
    requires MiningInv(miner, s) && MinerOk(s.tables.headers, thread)
    requires !s.threads[miner].Wrote? && !thread.Wrote?
    ensures MiningInv(miner, s.(threads := s.threads[miner := thread]))
  {
  }

  lemma MinerReportKeepsInv(miner: nat, s: State)
    requires MiningInv(miner, s) && s.threads[miner].Wrote?
    ensures MiningInv(miner, Next(s, Advance(miner)))
  {
    var s' := Next(s, Advance(miner));
    assert s'.log[..|s'.log| - 1] == s.log;
  }

  lemma MinerStepKeepsInv(miner: nat, s: State, step: Step)
    requires MiningInv(miner, s) && OneMinerStep(miner, s, step) && step.thread == miner
    ensures MiningInv(miner, Next(s, step))
  {
    var thread := s.threads[miner];
    if step.BeginMining? {
      if thread.Idle? {
        var tip := s.tables.headers[Last(s.tables.headers)];
        MinerMoveKeepsInv(miner, s, Started(Job(MinedOn(tip, step.nonce, step.hash), true)));
      }
    } else {
      match thread
      case Idle =>
      case Started(job) => MinerMoveKeepsInv(miner, s, Validated(job));
      case Validated(job) => MinerMoveKeepsInv(miner, s, TipRead(job, TipNumber(s.tables)));
      case TipRead(_, _) => MinerWriteKeepsInv(miner, s);
      case Wrote(_, _, _) => MinerReportKeepsInv(miner, s);
    }
  }

  lemma AdderStepKeepsInv(miner: nat, s: State, step: Step)
    requires MiningInv(miner, s) && OneMinerStep(miner, s, step) && step.thread != miner
    ensures MiningInv(miner, Next(s, step))
  {
    var s' := Next(s, step);
    assert s'.log != s.log ==> s'.log[..|s'.log| - 1] == s.log;
    if step.thread < |s.threads| && step.Advance? {
      assert AdderOk(s.tables.headers, s.threads[step.thread]);
      if s.threads[step.thread].TipRead? {
        RewriteIsIdentity(s.tables.headers, s.threads[step.thread].job.header);
      } else if s.threads[step.thread].Started? {
        StoredIsValid(s.tables.headers, s.threads[step.thread].job.header);
      }
    }
  }

  lemma StoredIsValid(hs: HeaderTable, h: Header)
    requires WellFormed(hs) && Linked(hs) && Stored(hs, h)
    ensures Validate(hs, h).Ok?
  {
    assert 0 < h.number ==> LinkAt(hs, h.number);
  }

  lemma {:induction false} OneMinerRunKeepsInv(miner: nat, s: State, steps: seq<Step>)
    requires MiningInv(miner, s) && OneMinerRun(miner, s, steps)
    ensures MiningInv(miner, Run(s, steps))
    decreases |steps|
  {
    if steps == [] {
    } else {
      if steps[0].thread == miner {
        MinerStepKeepsInv(miner, s, steps[0]);
      } else {
        AdderStepKeepsInv(miner, s, steps[0]);
      }
      OneMinerRunKeepsInv(miner, Next(s, steps[0]), steps[1..]);
    }
  }

  /** Under every interleaving of one mining thread with adds of blocks that are
      already stored, every finished mining attempt returned `Mined` (so never
      panicked and never fell behind), its write raised the tip by exactly one,
      no other add was refused or raised the tip, the chain is linked, and the
      tip counts the mined blocks. */
  lemma MiningIsSafe(n: nat, miner: nat, steps: seq<Step>)
    requires miner < n && OneMinerRun(miner, Init(n), steps)
    ensures
      var s := Run(Init(n), steps);
      && WellFormed(s.tables.headers) && Linked(s.tables.headers)
      && (forall i | 0 <= i < |s.log| && s.log[i].job.mining ::
            MiningResult(s.log[i]) == Mined(s.log[i].job.header)
            && s.log[i].raised && s.log[i].newTip == s.log[i].oldTip + 1)
      && (forall i | 0 <= i < |s.log| && !s.log[i].job.mining :: s.log[i].Reported? && !s.log[i].raised)
      && Last(s.tables.headers) == Mines(s.log) + (if s.threads[miner].Wrote? then 1 else 0)
  {
    OneMinerRunKeepsInv(miner, Init(n), steps);
    var s := Run(Init(n), steps);
    assert forall i | 0 <= i < |s.log| :: MinedOk(s.log[i]);
  }

  // ----- Adds without interference, and with -----

  /** Four steps of one thread with nobody in between are one `TryAdd`. */
  lemma UninterruptedAddIsTryAdd(s: State, i: nat)
    requires WellFormed(s.tables.headers) && i < |s.threads| && s.threads[i].Started?
    requires Validate(s.tables.headers, s.threads[i].job.header).Ok?
    ensures
      var job := s.threads[i].job;
      var (t', r) := TryAdd(s.tables, job.header);
      var oldTip, newTip := TipNumber(s.tables), TipNumber(t');
      && r.Ok?
      && Run(s, [Advance(i), Advance(i), Advance(i), Advance(i)])
         == State(t', s.threads[i := Idle], s.log + [Reported(job, oldTip, newTip, oldTip < newTip, r.value)])
  {
    var step := Advance(i);
    var job := s.threads[i].job;
    var mid := s.(threads := s.threads[i := TipRead(job, TipNumber(s.tables))]);
    ValidateAndReadTip(s, i);
    WriteAndReport(mid, i);
    RunConcat(s, [step, step], [step, step]);
    assert [step, step] + [step, step] == [step, step, step, step];
    assert mid.threads[i := Idle] == s.threads[i := Idle];
  }

  lemma RunTwo(s: State, a: Step, b: Step)
    requires s.tables.headers != map[]
    ensures Run(s, [a, b]) == Next(Next(s, a), b)
  {
    assert [a, b][1..] == [b];
    var s1 := Next(s, a);
    assert Run(s1, [b]) == Run(Next(s1, b), []);
  }

  lemma ValidateAndReadTip(s: State, i: nat)
    requires s.tables.headers != map[] && i < |s.threads| && s.threads[i].Started?
    requires Validate(s.tables.headers, s.threads[i].job.header).Ok?
    ensures Run(s, [Advance(i), Advance(i)])
         == s.(threads := s.threads[i := TipRead(s.threads[i].job, TipNumber(s.tables))])
  {
    RunTwo(s, Advance(i), Advance(i));
    var s1 := s.(threads := s.threads[i := Validated(s.threads[i].job)]);
    assert Next(s, Advance(i)) == s1;
    assert s1.threads[i := TipRead(s.threads[i].job, TipNumber(s.tables))]
        == s.threads[i := TipRead(s.threads[i].job, TipNumber(s.tables))];
  }

  lemma WriteAndReport(s: State, i: nat)
    requires s.tables.headers != map[] && i < |s.threads| && s.threads[i].TipRead?
    ensures
      var TipRead(job, oldTip) := s.threads[i];
      var t' := Insert(s.tables, job.header);
      var newTip := TipNumber(t');
      Run(s, [Advance(i), Advance(i)])
      == State(t', s.threads[i := Idle],
               s.log + [Reported(job, oldTip, newTip, TipNumber(s.tables) < newTip, Report(oldTip, newTip))])
  {
    RunTwo(s, Advance(i), Advance(i));
    var TipRead(job, oldTip) := s.threads[i];
    var t' := Insert(s.tables, job.header);
    var s1 := State(t', s.threads[i := Wrote(job, oldTip, TipNumber(s.tables) < TipNumber(t'))], s.log);
    assert Next(s, Advance(i)) == s1;
    assert s1.threads[i := Idle] == s.threads[i := Idle];
  }

  /** The atomic add of a block on top of the tip. */
  lemma TryAddOnTop(t: Tables, h: Header)
    requires WellFormed(t.headers) && BuildsOnTip(t.headers, h)
    ensures TryAdd(t, h) == (Insert(t, h), Ok(ExtendTip))
    ensures TipNumber(t) == Last(t.headers) && TipNumber(Insert(t, h)) == Last(t.headers) + 1
    ensures Validate(t.headers, h).Ok?
  {
    TryAddOutcome(t, h);
    WriteKeepsWellFormed(t, h);
  }

  /** The header competes with the tip. */
  ghost predicate Rivals(hs: HeaderTable, h: Header)
    requires WellFormed(hs)
  {
    1 <= h.number == Last(hs) && h.parentHash == hs[Last(hs) - 1].hash
  }

  /** The atomic add of a block in the tip's place. */
  lemma TryAddRival(t: Tables, h: Header)
    requires WellFormed(t.headers) && Rivals(t.headers, h)
    ensures TryAdd(t, h) == (Insert(t, h), Ok(AlreadyInChain))
    ensures TipNumber(t) == TipNumber(Insert(t, h)) == Last(t.headers)
    ensures Validate(t.headers, h).Ok?
  {
    TryAddOutcome(t, h);
    WriteKeepsWellFormed(t, h);
  }

  lemma AddsOnTop(s: State, i: nat)
    requires WellFormed(s.tables.headers) && i < |s.threads| && s.threads[i].Started?
    requires BuildsOnTip(s.tables.headers, s.threads[i].job.header)
    ensures
      var job, tip := s.threads[i].job, Last(s.tables.headers);
      Run(s, [Advance(i), Advance(i), Advance(i), Advance(i)])
      == State(Insert(s.tables, job.header), s.threads[i := Idle],
               s.log + [Reported(job, tip, tip + 1, true, ExtendTip)])
  {
    TryAddOnTop(s.tables, s.threads[i].job.header);
    UninterruptedAddIsTryAdd(s, i);
  }

  lemma ReplacesTip(s: State, i: nat)
    requires WellFormed(s.tables.headers) && i < |s.threads| && s.threads[i].Started?
    requires Rivals(s.tables.headers, s.threads[i].job.header)
    ensures
      var job, tip := s.threads[i].job, Last(s.tables.headers);
      Run(s, [Advance(i), Advance(i), Advance(i), Advance(i)])
      == State(Insert(s.tables, job.header), s.threads[i := Idle],
               s.log + [Reported(job, tip, tip, false, AlreadyInChain)])
  {
    TryAddRival(s.tables, s.threads[i].job.header);
    UninterruptedAddIsTryAdd(s, i);
  }

  lemma BothReadTip(s: State, h: Header)
    requires WellFormed(s.tables.headers) && BuildsOnTip(s.tables.headers, h)
    requires s.threads == [Started(Job(h, false)), Started(Job(h, false))]
    ensures
      var read := TipRead(Job(h, false), Last(s.tables.headers));
      Run(s, [Advance(0), Advance(0)] + [Advance(1), Advance(1)]) == s.(threads := [read, read])
  {
    var read := TipRead(Job(h, false), Last(s.tables.headers));
    RunConcat(s, [Advance(0), Advance(0)], [Advance(1), Advance(1)]);
    ValidateAndReadTip(s, 0);
    var s1 := s.(threads := [read, Started(Job(h, false))]);
    assert s.threads[0 := read] == s1.threads;
    ValidateAndReadTip(s1, 1);
    assert s1.threads[1 := read] == [read, read];
  }

  lemma BothWrite(s: State, h: Header)
    requires WellFormed(s.tables.headers) && BuildsOnTip(s.tables.headers, h)
    requires
      var read := TipRead(Job(h, false), Last(s.tables.headers));
      s.threads == [read, read]
    ensures
      var tip := Last(s.tables.headers);
      Run(s, [Advance(0), Advance(0)] + [Advance(1), Advance(1)]).log
      == s.log + [Reported(Job(h, false), tip, tip + 1, true, ExtendTip)]
               + [Reported(Job(h, false), tip, tip + 1, false, ExtendTip)]
  {
    RunConcat(s, [Advance(0), Advance(0)], [Advance(1), Advance(1)]);
    WriteKeepsWellFormed(s.tables, h);
    WriteAndReport(s, 0);
    var s1 := Run(s, [Advance(0), Advance(0)]);
    WriteKeepsWellFormed(s1.tables, h);
    WriteAndReport(s1, 1);
  }

  /** `ExtendTip` does not say that the thread's own write raised the tip: two
      threads adding the same next block are both told so when their steps mix,
      though only the first write raised it. */
  lemma TwoAddersBothToldExtendTip(s: State, h: Header)
    requires WellFormed(s.tables.headers) && BuildsOnTip(s.tables.headers, h)
    requires s.threads == [Started(Job(h, false)), Started(Job(h, false))]
    ensures
      var tip := Last(s.tables.headers);
      var round := [Advance(0), Advance(0)] + [Advance(1), Advance(1)];
      Run(s, round + round).log
      == s.log + [Reported(Job(h, false), tip, tip + 1, true, ExtendTip)]
               + [Reported(Job(h, false), tip, tip + 1, false, ExtendTip)]
  {
    var round := [Advance(0), Advance(0)] + [Advance(1), Advance(1)];
    RunConcat(s, round, round);
    BothReadTip(s, h);
    BothWrite(Run(s, round), h);
  }

  // ----- What `ExtendTip` does say -----

  /** How many steps of the run raised the tip. */
  function Raises(s: State, steps: seq<Step>): nat
    requires s.tables.headers != map[]
    decreases |steps|
  {
    if steps == [] then 0
    else
      var s' := Next(s, steps[0]);
      (if Last(s.tables.headers) < Last(s'.tables.headers) then 1 else 0) + Raises(s', steps[1..])
  }

  /** No step raises the tip by more than one. */
  lemma NextRaisesByOne(s: State, step: Step)
    requires Inv(s)
    ensures Last(Next(s, step).tables.headers) <= Last(s.tables.headers) + 1
  {
    if step.thread < |s.threads| && step.Advance? && s.threads[step.thread].TipRead? {
      assert ThreadOk(s.tables.headers, s.threads[step.thread]);
      WriteKeepsWellFormed(s.tables, s.threads[step.thread].job.header);
    }
  }

  lemma {:induction false} TipCountsRaises(s: State, steps: seq<Step>)
    requires Inv(s)
    ensures Last(Run(s, steps).tables.headers) == Last(s.tables.headers) + Raises(s, steps)
    decreases |steps|
  {
    if steps == [] {
    } else {
      NextKeepsInv(s, steps[0]);
      NextRaisesByOne(s, steps[0]);
      TipCountsRaises(Next(s, steps[0]), steps[1..]);
    }
  }

  ghost predicate OfOthers(i: nat, steps: seq<Step>) {
    forall k | 0 <= k < |steps| :: steps[k].thread != i
  }

  lemma {:induction false} OthersLeaveThread(s: State, i: nat, steps: seq<Step>)
    requires s.tables.headers != map[] && i < |s.threads| && OfOthers(i, steps)
    ensures Run(s, steps).threads[i] == s.threads[i]
    decreases |steps|
  {
    if steps == [] {
    } else {
      assert steps[0].thread != i;
      OthersLeaveThread(Next(s, steps[0]), i, steps[1..]);
    }
  }

  /** From the first tip read of thread `i` to its report, with whatever the
      other threads do in between: the report is `ExtendTip` if and only if some
      write in that time raised the tip, be it the thread's own or another's. */
  lemma ExtendTipIff(s: State, i: nat, a: seq<Step>, b: seq<Step>)
    requires Inv(s) && i < |s.threads| && s.threads[i].Validated?
    requires OfOthers(i, a) && OfOthers(i, b)
    ensures
      var s1 := Next(s, Advance(i));
      var s2 := Run(s1, a);
      var s3 := Next(s2, Advance(i));
      var s4 := Run(s3, b);
      var s' := Next(s4, Advance(i));
      && s' == Run(s, [Advance(i)] + a + [Advance(i)] + b + [Advance(i)])
      && |s'.log| == |s4.log| + 1
      && var e := s'.log[|s4.log|];
         && e.Reported? && e.job == s.threads[i].job
         && (e.raised <==> Last(s2.tables.headers) < Last(s3.tables.headers))
         && (e.result == ExtendTip <==> e.raised || 0 < Raises(s1, a) + Raises(s3, b))
  {
    var step := Advance(i);
    RunFive(s, step, a, b);
    NextKeepsInv(s, step);
    var s1 := Next(s, step);
    RunKeepsInv(s1, a);
    TipCountsRaises(s1, a);
    OthersLeaveThread(s1, i, a);
    var s2 := Run(s1, a);
    NextKeepsInv(s2, step);
    var s3 := Next(s2, step);
    RunKeepsInv(s3, b);
    TipCountsRaises(s3, b);
    OthersLeaveThread(s3, i, b);
  }

  lemma RunFive(s: State, step: Step, a: seq<Step>, b: seq<Step>)
    requires s.tables.headers != map[]
    ensures Run(s, [step] + a + [step] + b + [step])
         == Next(Run(Next(Run(Next(s, step), a), step), b), step)
  {
    RunConcat(s, [step] + a + [step] + b, [step]);
    RunConcat(s, [step] + a + [step], b);
    RunConcat(s, [step] + a, [step]);
    RunConcat(s, [step], a);
    RunOne(s, step);
    RunOne(Run(Next(s, step), a), step);
    RunOne(Run(Next(Run(Next(s, step), a), step), b), step);
  }

  lemma RunOne(s: State, step: Step)
    requires s.tables.headers != map[]
    ensures Run(s, [step]) == Next(s, step)
  {
    assert Run(s, [step]) == Run(Next(s, step), []);
  }
}
