// A node whose chain has other users: the manager's thread adds headers in the
// locked steps of the program while mining threads work on the same chain
// (src/client.rs:139-152, src/net/chain.rs:129-187, src/blocktree.rs:232-258).
// What becomes of the broadcasts, which ManagerRuns bounds for adds nobody
// interrupts.
module MiningNode {
  import opened Interface
  import opened BlockTree
  import M = ChainManager
  import ManagerRuns
  import Shared = SharedChain

  // Thread 0 of the chain is the manager's, the threads in `miners` mine.
  // `gossip` tells an add that came from gossip from one of the apply loop, which
  // broadcasts nothing. The last four fields record the run: headers broadcast
  // although the manager's own write did not raise the tip, writes that raised it
  // by either side, and how many of the miners' had been made at the manager's
  // first tip read.
  datatype Node = Node(
    chain: Shared.State,
    manager: M.Manager,
    miners: set<nat>,
    gossip: bool,
    raced: seq<Header>,
    minerRaises: nat,
    managerRaises: nat,
    raisesAtRead: nat)

  datatype Step =
    | Hear(header: Header)
    | ApplyNext(header: Header)
    | Proceed
    | Mine(step: Shared.Step)
    | Manage(work: M.Step)

  predicate Ready(n: Node) {
    n.chain.tables.headers != map[] && n.chain.threads != []
  }

  /** The manager as ChainManager has it, with the chain as it is now. */
  function View(n: Node): M.Manager {
    n.manager.(tables := n.chain.tables)
  }

  function Tip(n: Node): nat
    requires n.chain.tables.headers != map[]
  {
    Last(n.chain.tables.headers)
  }

  predicate OfMiner(miners: set<nat>, step: Shared.Step) {
    step.thread in miners && !step.Begin?
  }

  /** What the manager does between adds: everything that leaves the chain alone.
      A finished sync is taken in here once its headers have been applied. */
  predicate LeavesChain(step: M.Step) {
    match step
    case OnEvent(e) => !e.IncomingNewBlockHeader?
    case LookupReady(_) => true
    case SyncReady(_, result) => result.None? || result.value == []
    case OtherAdd(_) => false
  }

  function Outcome(e: Shared.Finished): Result<AddedBlockResult, Error> {
    match e
    case Refused(_, error) => Err(error)
    case Reported(_, _, _, _, result) => Ok(result)
  }

  /** The manager's thread takes its next locked step; when that ends an add which
      came from gossip, the manager reacts to it. */
  function OnProceed(n: Node): (n': Node)
    requires Ready(n)
    ensures Ready(n')
  {
    var thread := n.chain.threads[0];
    var chain := Shared.Next(n.chain, Shared.Advance(0));
    var n1 := n.(chain := chain,
                 raisesAtRead := if thread.Validated? then n.minerRaises else n.raisesAtRead,
                 managerRaises := n.managerRaises + Raised(n.chain, chain));
    if |chain.log| <= |n.chain.log| || !n.gossip then n1
    else
      var e := chain.log[|n.chain.log|];
      n1.(manager := M.React(View(n1), e.job.header, Outcome(e)),
          raced := if e.Reported? && e.result.ExtendTip? && !e.raised then n.raced + [e.job.header] else n.raced)
  }

  function Raised(before: Shared.State, after: Shared.State): nat
    requires before.tables.headers != map[] && after.tables.headers != map[]
  {
    if Last(before.tables.headers) < Last(after.tables.headers) then 1 else 0
  }

  function OnMine(n: Node, step: Shared.Step): (n': Node)
    requires Ready(n)
    ensures Ready(n')
  {
    var chain := Shared.Next(n.chain, step);
    n.(chain := chain, minerRaises := n.minerRaises + Raised(n.chain, chain))
  }

  function Next(n: Node, step: Step): (n': Node)
    requires Ready(n)
    ensures Ready(n')
  {
    match step
    case Hear(h) =>
      if n.chain.threads[0].Idle? then n.(chain := Shared.Next(n.chain, Shared.Begin(0, h)), gossip := true) else n
    case ApplyNext(h) =>
      if n.chain.threads[0].Idle? then n.(chain := Shared.Next(n.chain, Shared.Begin(0, h)), gossip := false) else n
    case Proceed => OnProceed(n)
    case Mine(s) => if OfMiner(n.miners, s) then OnMine(n, s) else n
    case Manage(s) =>
      if n.chain.threads[0].Idle? && LeavesChain(s) then n.(manager := M.Next(View(n), s)) else n
  }

  function Run(n: Node, steps: seq<Step>): (n': Node)
    requires Ready(n)
    ensures Ready(n')
    decreases |steps|
  {
    if steps == [] then n else Run(Next(n, steps[0]), steps[1..])
  }

  function Init(threads: nat, miners: set<nat>): Node
  {
    Node(Shared.Init(threads), M.NewManager(InitialTables(), map[]), miners, false, [], 0, 0, 0)
  }

  lemma {:induction false} RunConcat(n: Node, a: seq<Step>, b: seq<Step>)
    requires Ready(n)
    ensures Run(n, a + b) == Run(Run(n, a), b)
    decreases |a|
  {
    if a == [] {
      assert a + b == b;
    } else {
      assert (a + b)[1..] == a[1..] + b;
      RunConcat(Next(n, a[0]), a[1..], b);
    }
  }

  lemma RunOne(n: Node, a: Step)
    requires Ready(n)
    ensures Run(n, [a]) == Next(n, a)
  {
    assert Run(n, [a]) == Run(Next(n, a), []);
  }

  lemma RunTwo(n: Node, a: Step, b: Step)
    requires Ready(n)
    ensures Run(n, [a, b]) == Next(Next(n, a), b)
  {
    assert [a, b][1..] == [b];
    RunOne(Next(n, a), b);
  }

  // ----- The invariant of every run -----

  /** The tip counts the raises of both sides, the first tip read of an add those
      made before it, and every race used up a miner's raise. */
  ghost predicate Counted(n: Node)
    requires Ready(n)
  {
    && Tip(n) == n.minerRaises + n.managerRaises
    && n.raisesAtRead <= n.minerRaises
    && match n.chain.threads[0]
       case TipRead(_, oldTip) =>
         oldTip == n.raisesAtRead + n.managerRaises && |n.raced| <= n.raisesAtRead
       case Wrote(job, oldTip, raised) =>
         && oldTip + (if raised then 1 else 0) == n.raisesAtRead + n.managerRaises
         && (raised ==> oldTip < job.header.number <= Tip(n))
         && |n.raced| <= n.raisesAtRead
       case _ => |n.raced| <= n.minerRaises
  }

  ghost predicate NodeInv(n: Node) {
    Ready(n) && Shared.Inv(n.chain) && 0 !in n.miners && Counted(n)
  }

  lemma InitHolds(threads: nat, miners: set<nat>)
    requires 1 <= threads && 0 !in miners
    ensures NodeInv(Init(threads, miners))
  {
    Shared.InitHolds(threads);
  }

  lemma MineKeepsInv(n: Node, step: Shared.Step)
    requires NodeInv(n) && OfMiner(n.miners, step)
    ensures NodeInv(OnMine(n, step))
  {
    Shared.NextKeepsInv(n.chain, step);
    Shared.NextRaisesByOne(n.chain, step);
  }

  lemma WriteKeepsCounted(n: Node)
    requires NodeInv(n) && n.chain.threads[0].TipRead?
    ensures Counted(OnProceed(n))
  {
    assert Shared.ThreadOk(n.chain.tables.headers, n.chain.threads[0]);
    Shared.WriteKeepsWellFormed(n.chain.tables, n.chain.threads[0].job.header);
  }

  lemma OtherProceedKeepsCounted(n: Node)
    requires NodeInv(n) && !n.chain.threads[0].TipRead?
    ensures Counted(OnProceed(n))
  {
  }

  lemma ProceedKeepsCounted(n: Node)
    requires NodeInv(n)
    ensures Counted(OnProceed(n))
  {
    if n.chain.threads[0].TipRead? {
      WriteKeepsCounted(n);
    } else {
      OtherProceedKeepsCounted(n);
    }
  }

  lemma NextKeepsInv(n: Node, step: Step)
    requires NodeInv(n)
    ensures NodeInv(Next(n, step)) && Next(n, step).miners == n.miners
  {
    match step
    case Hear(h) => Shared.NextKeepsInv(n.chain, Shared.Begin(0, h));
    case ApplyNext(h) => Shared.NextKeepsInv(n.chain, Shared.Begin(0, h));
    case Proceed =>
      Shared.NextKeepsInv(n.chain, Shared.Advance(0));
      ProceedKeepsCounted(n);
    case Mine(s) =>
      if OfMiner(n.miners, s) {
        MineKeepsInv(n, s);
      }
    case Manage(_) =>
  }

  lemma {:induction false} RunKeepsInv(n: Node, steps: seq<Step>)
    requires NodeInv(n)
    ensures NodeInv(Run(n, steps)) && Run(n, steps).miners == n.miners
    decreases |steps|
  {
    if steps == [] {
    } else {
      var n' := Next(n, steps[0]);
      NextKeepsInv(n, steps[0]);
      RunKeepsInv(n', steps[1..]);
      assert Run(n, steps) == Run(n', steps[1..]);
    }
  }

  // ----- One add -----

  /** The add in hand was broadcast by this step. */
  ghost predicate Sends(n: Node)
    requires Ready(n) && n.chain.threads[0].Wrote?
  {
    OnProceed(n).manager.headerBroadcasts == n.manager.headerBroadcasts + [n.chain.threads[0].job.header]
  }

  lemma ReportIs(n: Node)
    requires NodeInv(n) && n.chain.threads[0].Wrote?
    ensures
      var w := n.chain.threads[0];
      var job, oldTip, raised := w.job, w.oldTip, w.raised;
      var n' := OnProceed(n);
      && n'.chain.log == n.chain.log + [Shared.Reported(job, oldTip, Tip(n), raised, Report(oldTip, Tip(n)))]
      && n'.chain.threads[0].Idle? && n'.chain.tables == n.chain.tables
      && n'.managerRaises == n.managerRaises && n'.minerRaises == n.minerRaises && n'.gossip == n.gossip
      && (n.gossip && oldTip < Tip(n) ==>
            n'.manager == View(n).(headerBroadcasts := n.manager.headerBroadcasts + [job.header]))
      && (n.gossip && oldTip >= Tip(n) ==> n'.manager == View(n))
      && (!n.gossip ==> n'.manager == n.manager)
      && n'.raced == (if n.gossip && !raised && oldTip < Tip(n) then n.raced + [job.header] else n.raced)
  {
  }

  /** Whatever the node and its miners did before, a gossiped header that is
      written is broadcast if and only if its own write raised the tip or a miner's
      did between the two tip reads; so one at or below the first tip read is
      broadcast exactly when a miner's write came in between. */
  lemma SentIff(n: Node)
    requires NodeInv(n) && n.chain.threads[0].Wrote?
    ensures
      var w := n.chain.threads[0];
      var job, oldTip, raised := w.job, w.oldTip, w.raised;
      && (Sends(n) <==> n.gossip && (raised || n.raisesAtRead < n.minerRaises))
      && (job.header.number <= oldTip ==> (Sends(n) <==> n.gossip && n.raisesAtRead < n.minerRaises))
  {
    ReportIs(n);
    if !n.gossip || n.chain.threads[0].oldTip >= Tip(n) {
      assert |OnProceed(n).manager.headerBroadcasts| == |n.manager.headerBroadcasts|;
    }
  }

  // ----- How often a header is broadcast -----

  function Times(n: Node, h: Header): nat {
    ManagerRuns.Times(n.manager, h)
  }

  function Races(n: Node, h: Header): nat {
    multiset(n.raced)[h]
  }

  /** A write of `h` has raised the tip and is about to be broadcast for it. */
  function Owed(n: Node, h: Header): nat
    requires Ready(n)
  {
    var thread := n.chain.threads[0];
    if n.gossip && thread.Wrote? && thread.raised && thread.job.header == h then 1 else 0
  }

  /** Once unvalidated, if its hash was new; once on raising the tip; and once for
      each race. */
  ghost predicate Budgeted(n: Node, h: Header)
    requires Ready(n)
  {
    Times(n, h) + Owed(n, h)
    <= (if h.hash in n.manager.broadcasted then 1 else 0) + (if 1 <= h.number <= Tip(n) then 1 else 0) + Races(n, h)
  }

  lemma ManageKeepsBroadcasts(n: Node, step: M.Step)
    requires NodeInv(n) && LeavesChain(step)
    ensures
      var m := M.Next(View(n), step);
      m.headerBroadcasts == n.manager.headerBroadcasts && m.broadcasted == n.manager.broadcasted
  {
    ManagerRuns.BroadcastIsAhead(View(n), step);
    ManagerRuns.OthersKeepBroadcasted(View(n), step);
  }

  lemma TimesSnoc(s: seq<Header>, x: Header, h: Header)
    ensures multiset(s + [x])[h] == multiset(s)[h] + (if h == x then 1 else 0)
  {
    ManagerRuns.TimesSnoc(s, x, h);
  }

  lemma ReportKeepsBudget(n: Node, h: Header)
    requires NodeInv(n) && n.chain.threads[0].Wrote? && Budgeted(n, h)
    ensures Budgeted(OnProceed(n), h)
  {
    ReportIs(n);
    TimesSnoc(n.manager.headerBroadcasts, n.chain.threads[0].job.header, h);
    TimesSnoc(n.raced, n.chain.threads[0].job.header, h);
  }

  /** What validation makes of the header in hand. */
  lemma ValidationIs(n: Node)
    requires NodeInv(n) && n.chain.threads[0].Started?
    ensures
      var job := n.chain.threads[0].job;
      var n' := OnProceed(n);
      && n'.chain.tables == n.chain.tables && n'.raced == n.raced && !n'.chain.threads[0].Wrote?
      && (match Validate(n.chain.tables.headers, job.header)
          case Ok(_) => n'.manager == n.manager
          case Err(e) => n'.manager == if n.gossip then M.React(View(n), job.header, Err(e)) else n.manager)
  {
  }

  lemma ValidationKeepsBudget(n: Node, h: Header)
    requires NodeInv(n) && n.chain.threads[0].Started? && Budgeted(n, h)
    ensures Budgeted(OnProceed(n), h)
  {
    ValidationIs(n);
    TimesSnoc(n.manager.headerBroadcasts, n.chain.threads[0].job.header, h);
  }

  /** A write changes the tables and says whether it raised the tip. */
  lemma WriteIs(n: Node)
    requires NodeInv(n) && n.chain.threads[0].TipRead?
    ensures
      var thread := n.chain.threads[0];
      var n' := OnProceed(n);
      var raised := thread.job.header.number == Tip(n) + 1;
      && n'.manager == n.manager && n'.raced == n.raced && n'.gossip == n.gossip && n'.miners == n.miners
      && n'.minerRaises == n.minerRaises && n'.chain.log == n.chain.log
      && n'.chain.threads[0] == Shared.Wrote(thread.job, thread.oldTip, raised)
      && Tip(n') == (if raised then Tip(n) + 1 else Tip(n))
  {
    assert Shared.ThreadOk(n.chain.tables.headers, n.chain.threads[0]);
    Shared.WriteKeepsWellFormed(n.chain.tables, n.chain.threads[0].job.header);
  }

  lemma WriteKeepsBudget(n: Node, h: Header)
    requires NodeInv(n) && n.chain.threads[0].TipRead? && Budgeted(n, h)
    ensures Budgeted(OnProceed(n), h)
  {
    WriteIs(n);
  }

  lemma ProceedKeepsBudget(n: Node, h: Header)
    requires NodeInv(n) && Budgeted(n, h)
    ensures Budgeted(OnProceed(n), h)
  {
    match n.chain.threads[0]
    case Idle =>
    case Started(_) => ValidationKeepsBudget(n, h);
    case Validated(_) =>
    case TipRead(_, _) => WriteKeepsBudget(n, h);
    case Wrote(_, _, _) => ReportKeepsBudget(n, h);
  }

  /** Steps that are not the manager's own thread send nothing. */
  lemma OthersSendNothing(n: Node, step: Step, h: Header)
    requires NodeInv(n) && !step.Proceed?
    ensures
      var n' := Next(n, step);
      && n'.manager.headerBroadcasts == n.manager.headerBroadcasts
      && n'.manager.broadcasted == n.manager.broadcasted && n'.raced == n.raced
      && Tip(n) <= Tip(n') && Owed(n', h) == Owed(n, h)
  {
    match step
    case Mine(s) => MinersLeaveManager(n, s);
    case Manage(s) =>
      if LeavesChain(s) {
        ManageKeepsBroadcasts(n, s);
      }
    case _ =>
  }

  lemma MinersLeaveManager(n: Node, step: Shared.Step)
    requires NodeInv(n)
    ensures
      var n' := Next(n, Mine(step));
      && n'.manager == n.manager && n'.raced == n.raced && n'.gossip == n.gossip
      && n'.chain.threads[0] == n.chain.threads[0] && Tip(n) <= Tip(n')
  {
    Shared.NextKeepsInv(n.chain, step);
  }

  lemma NextKeepsBudget(n: Node, step: Step, h: Header)
    requires NodeInv(n) && Budgeted(n, h)
    ensures Budgeted(Next(n, step), h)
  {
    if step.Proceed? {
      ProceedKeepsBudget(n, h);
    } else {
      OthersSendNothing(n, step, h);
    }
  }

  lemma {:induction false} RunKeepsBudget(n: Node, steps: seq<Step>, h: Header)
    requires NodeInv(n) && Budgeted(n, h)
    ensures Budgeted(Run(n, steps), h)
    decreases |steps|
  {
    if steps == [] {
    } else {
      NextKeepsInv(n, steps[0]);
      NextKeepsBudget(n, steps[0], h);
      RunKeepsBudget(Next(n, steps[0]), steps[1..], h);
    }
  }

  /** Over a whole run, with any miners beside the manager, a header is broadcast
      at most twice (at most once if numbered 0) plus once for each race, and each
      race has used up a raise of the tip by a miner. */
  lemma BroadcastsBoundedByRaces(threads: nat, miners: set<nat>, steps: seq<Step>, h: Header)
    requires 1 <= threads && 0 !in miners
    ensures
      var n := Run(Init(threads, miners), steps);
      && Times(n, h) <= (if h.number == 0 then 1 else 2) + Races(n, h)
      && |n.raced| <= n.minerRaises
  {
    InitHolds(threads, miners);
    RunKeepsInv(Init(threads, miners), steps);
    RunKeepsBudget(Init(threads, miners), steps, h);
  }

  /** `h` is at or below the tip, and no broadcast is owed for raising it. */
  ghost predicate Past(n: Node, h: Header)
    requires Ready(n)
  {
    1 <= h.number <= Tip(n) && Owed(n, h) == 0
  }

  ghost predicate SentByRaceOnly(n: Node, n': Node, h: Header) {
    Times(n', h) + Races(n, h) == Times(n, h) + Races(n', h)
  }

  lemma ValidationAddsRaces(n: Node, h: Header)
    requires NodeInv(n) && Past(n, h) && n.chain.threads[0].Started?
    ensures Past(OnProceed(n), h) && SentByRaceOnly(n, OnProceed(n), h)
  {
    ValidationIs(n);
    TryAddOutcome(n.chain.tables, n.chain.threads[0].job.header);
    TimesSnoc(n.manager.headerBroadcasts, n.chain.threads[0].job.header, h);
  }

  lemma ReportAddsRaces(n: Node, h: Header)
    requires NodeInv(n) && Past(n, h) && n.chain.threads[0].Wrote?
    ensures Past(OnProceed(n), h) && SentByRaceOnly(n, OnProceed(n), h)
  {
    ReportIs(n);
    TimesSnoc(n.manager.headerBroadcasts, n.chain.threads[0].job.header, h);
    TimesSnoc(n.raced, n.chain.threads[0].job.header, h);
  }

  lemma ProceedAddsRaces(n: Node, h: Header)
    requires NodeInv(n) && Past(n, h)
    ensures Past(OnProceed(n), h) && SentByRaceOnly(n, OnProceed(n), h)
  {
    match n.chain.threads[0]
    case Idle =>
    case Started(_) => ValidationAddsRaces(n, h);
    case Validated(_) =>
    case TipRead(_, _) => WriteIs(n);
    case Wrote(_, _, _) => ReportAddsRaces(n, h);
  }

  lemma NextAddsRaces(n: Node, step: Step, h: Header)
    requires NodeInv(n) && Past(n, h)
    ensures Past(Next(n, step), h) && SentByRaceOnly(n, Next(n, step), h)
  {
    if step.Proceed? {
      ProceedAddsRaces(n, h);
    } else {
      OthersSendNothing(n, step, h);
    }
  }

  /** Once a header is at or below the tip and not in the manager's hands, every
      later broadcast of it is a race. */
  lemma {:induction false} PastTheTipOnlyRaces(n: Node, steps: seq<Step>, h: Header)
    requires NodeInv(n) && Past(n, h)
    ensures SentByRaceOnly(n, Run(n, steps), h)
    decreases |steps|
  {
    if steps == [] {
    } else {
      NextKeepsInv(n, steps[0]);
      NextAddsRaces(n, steps[0], h);
      PastTheTipOnlyRaces(Next(n, steps[0]), steps[1..], h);
    }
  }

  // ----- Nobody mining -----

  /** Every add of the manager that was told `ExtendTip` was of the block next to
      the tip it had read. */
  ghost predicate OnlyAhead(n: Node) {
    forall k | 0 <= k < |n.chain.log| && AheadMatters(n.chain.log[k]) ::
      n.chain.log[k].job.header.number == n.chain.log[k].oldTip + 1
  }

  ghost predicate AheadMatters(e: Shared.Finished) {
    !e.job.mining && e.Reported? && e.result == ExtendTip
  }

  ghost predicate Alone(n: Node)
    requires Ready(n)
  {
    && n.miners == {} && n.minerRaises == 0
    && OnlyAhead(n)
    && (n.chain.threads[0].Wrote? && n.chain.threads[0].raised ==>
          n.chain.threads[0].job.header.number == n.chain.threads[0].oldTip + 1)
  }

  lemma NextKeepsAlone(n: Node, step: Step)
    requires NodeInv(n) && Alone(n)
    ensures Alone(Next(n, step))
  {
    if step.Proceed? {
      var thread := n.chain.threads[0];
      if thread.TipRead? {
        WriteIs(n);
      } else if thread.Wrote? {
        ReportIs(n);
      }
    }
  }

  lemma {:induction false} RunKeepsAlone(n: Node, steps: seq<Step>)
    requires NodeInv(n) && Alone(n)
    ensures Alone(Run(n, steps))
    decreases |steps|
  {
    if steps == [] {
    } else {
      NextKeepsInv(n, steps[0]);
      NextKeepsAlone(n, steps[0]);
      RunKeepsAlone(Next(n, steps[0]), steps[1..]);
    }
  }

  // ----- An add nobody interrupts -----

  /** Alone on the chain for the length of an add, the node does what ChainManager
      takes for one step: a header that validates takes four steps more. */
  lemma UninterruptedHearIsOnHeader(n: Node, h: Header)
    requires NodeInv(n) && n.chain.threads[0].Idle?
    ensures
      var n1 := Next(n, Hear(h));
      var n' := if Validate(n.chain.tables.headers, h).Ok?
                then OnProceed(OnProceed(OnProceed(OnProceed(n1))))
                else OnProceed(n1);
      View(n') == M.OnHeader(View(n), h) && n'.raced == n.raced && n'.chain.threads[0].Idle?
  {
    var n1 := Next(n, Hear(h));
    NextKeepsInv(n, Hear(h));
    if Validate(n.chain.tables.headers, h).Ok? {
      FirstHalf(n1);
      SecondHalf(OnProceed(OnProceed(n1)));
      TryAddOutcome(n.chain.tables, h);
      TryAddTables(n.chain.tables, h);
    } else {
      ValidationIs(n1);
    }
  }

  /** So is an add of the apply loop one `TryAdd`, and it broadcasts nothing. */
  lemma UninterruptedApplyIsTryAdd(n: Node, h: Header)
    requires NodeInv(n) && n.chain.threads[0].Idle?
    ensures
      var n1 := Next(n, ApplyNext(h));
      var n' := if Validate(n.chain.tables.headers, h).Ok?
                then OnProceed(OnProceed(OnProceed(OnProceed(n1))))
                else OnProceed(n1);
      && View(n') == View(n).(tables := TryAdd(n.chain.tables, h).0)
      && n'.raced == n.raced && n'.chain.threads[0].Idle?
  {
    var n1 := Next(n, ApplyNext(h));
    NextKeepsInv(n, ApplyNext(h));
    if Validate(n.chain.tables.headers, h).Ok? {
      FirstHalf(n1);
      SecondHalf(OnProceed(OnProceed(n1)));
    } else {
      ValidationIs(n1);
    }
  }

  lemma FirstHalf(n: Node)
    requires NodeInv(n) && n.chain.threads[0].Started?
    requires Validate(n.chain.tables.headers, n.chain.threads[0].job.header).Ok?
    ensures
      var n' := OnProceed(OnProceed(n));
      && NodeInv(n') && n'.gossip == n.gossip && n'.manager == n.manager && n'.raced == n.raced
      && n'.miners == n.miners
      && n'.chain
         == n.chain.(threads := n.chain.threads[0 := Shared.TipRead(n.chain.threads[0].job, Tip(n))])
  {
    NextKeepsInv(n, Proceed);
    NextKeepsInv(OnProceed(n), Proceed);
    Shared.ValidateAndReadTip(n.chain, 0);
    Shared.RunTwo(n.chain, Shared.Advance(0), Shared.Advance(0));
  }

  lemma SecondHalf(n: Node)
    requires NodeInv(n) && n.chain.threads[0].TipRead? && n.chain.threads[0].oldTip == Tip(n)
    ensures
      var h := n.chain.threads[0].job.header;
      var n' := OnProceed(OnProceed(n));
      && n'.chain.tables == Insert(n.chain.tables, h) && n'.raced == n.raced && n'.chain.threads[0].Idle?
      && (if n.gossip && h.number == Tip(n) + 1 then
            View(n') == View(n).(tables := n'.chain.tables, headerBroadcasts := n.manager.headerBroadcasts + [h])
          else View(n') == View(n).(tables := n'.chain.tables))
  {
    WriteIs(n);
    NextKeepsInv(n, Proceed);
    ReportIs(OnProceed(n));
  }
}
