// Several miners on one shared chain (src/blocktree.rs:107-142): which mining
// attempts can fail, and how.
module Miners {
  import opened Interface
  import opened BlockTree
  import opened SharedChain

  // ----- Runs with a given set of mining threads -----

  /** The threads in `miners` mine, the others add blocks that are stored. */
  ghost predicate MinersStep(miners: set<nat>, s: State, step: Step) {
    match step
    case Begin(i, h) => i !in miners && Stored(s.tables.headers, h)
    case BeginMining(i, _, _) => i in miners
    case Advance(_) => true
  }

  ghost predicate MinersRun(miners: set<nat>, s: State, steps: seq<Step>)
    requires s.tables.headers != map[]
    decreases |steps|
  {
    steps != [] ==>
      MinersStep(miners, s, steps[0]) && MinersRun(miners, Next(s, steps[0]), steps[1..])
  }

  /** Every finished mining attempt returned `Mined`. */
  ghost predicate AllMined(log: seq<Finished>) {
    forall k | 0 <= k < |log| && log[k].job.mining :: MiningResult(log[k]) == Mined(log[k].job.header)
  }

  /** No finished mining attempt aborted the program. */
  ghost predicate NonePanicked(log: seq<Finished>) {
    forall k | 0 <= k < |log| && log[k].job.mining :: !MiningResult(log[k]).Panicked?
  }

  // ----- At most one miner -----

  lemma {:induction false} SingletonIsOneMiner(miner: nat, s: State, steps: seq<Step>)
    requires s.tables.headers != map[] && MinersRun({miner}, s, steps)
    ensures OneMinerRun(miner, s, steps)
    decreases |steps|
  {
    if steps == [] {
    } else {
      SingletonIsOneMiner(miner, Next(s, steps[0]), steps[1..]);
    }
  }

  ghost predicate NobodyMines(s: State) {
    && (forall i | 0 <= i < |s.threads| :: s.threads[i].Idle? || !s.threads[i].job.mining)
    && (forall k | 0 <= k < |s.log| :: !s.log[k].job.mining)
  }

  lemma {:induction false} WithoutMinersNobodyMines(s: State, steps: seq<Step>)
    requires s.tables.headers != map[] && NobodyMines(s) && MinersRun({}, s, steps)
    ensures NobodyMines(Run(s, steps))
    decreases |steps|
  {
    if steps == [] {
    } else {
      WithoutMinersNobodyMines(Next(s, steps[0]), steps[1..]);
    }
  }

  lemma AtMostOneMinerIsSafe(n: nat, miners: set<nat>, steps: seq<Step>)
    requires (forall i | i in miners :: i < n) && |miners| <= 1 && MinersRun(miners, Init(n), steps)
    ensures AllMined(Run(Init(n), steps).log)
  {
    if miners == {} {
      WithoutMinersNobodyMines(Init(n), steps);
    } else {
      var miner :| miner in miners;
      assert |miners - {miner}| == 0;
      assert miners == {miner};
      SingletonIsOneMiner(miner, Init(n), steps);
      MiningIsSafe(n, miner, steps);
    }
  }

  // ----- Two attempts on the same tip -----

  function Add(i: nat): seq<Step> {
    [Advance(i), Advance(i), Advance(i), Advance(i)]
  }

  /** Thread `i` has begun to add a block on the current tip. */
  ghost predicate AboutToExtend(s: State, i: nat) {
    WellFormed(s.tables.headers) && i < |s.threads| && s.threads[i].Started?
    && BuildsOnTip(s.tables.headers, s.threads[i].job.header)
  }

  /** Thread `j` has begun to add a block that competes with the tip. */
  ghost predicate AboutToReplace(s: State, j: nat) {
    && WellFormed(s.tables.headers) && j < |s.threads| && s.threads[j].Started?
    && Rivals(s.tables.headers, s.threads[j].job.header)
  }

  lemma ExtensionLeavesCompetitor(s: State, i: nat, j: nat)
    requires AboutToExtend(s, i) && AboutToExtend(s, j) && i != j
    ensures
      var s1 := Run(s, Add(i));
      && AboutToReplace(s1, j)
      && Last(s1.tables.headers) == Last(s.tables.headers) + 1
      && s1.threads == s.threads[i := Idle]
      && s1.log
         == s.log + [Reported(s.threads[i].job, Last(s.tables.headers), Last(s1.tables.headers), true, ExtendTip)]
  {
    AddsOnTop(s, i);
    WriteKeepsWellFormed(s.tables, s.threads[i].job.header);
  }

  /** Of two threads that began to build on the same tip and then add one after
      the other, the second is told that its block is in the chain already, which
      mining takes for falling behind; and yet its block has replaced the first
      one's. */
  lemma SlowerReplacesFaster(s: State, i: nat, j: nat)
    requires AboutToExtend(s, i) && AboutToExtend(s, j) && i != j
    ensures
      var first, second, tip := s.threads[i].job, s.threads[j].job, Last(s.tables.headers);
      var s' := Run(s, Add(i) + Add(j));
      && s'.log == s.log + [Reported(first, tip, tip + 1, true, ExtendTip),
                            Reported(second, tip + 1, tip + 1, false, AlreadyInChain)]
      && tip + 1 in s'.tables.headers && s'.tables.headers[tip + 1] == second.header
  {
    ExtensionLeavesCompetitor(s, i, j);
    ReplacesTip(Run(s, Add(i)), j);
    RunConcat(s, Add(i), Add(j));
  }

  /** Adds of new blocks by others do the same: that the blocks they add are
      stored is needed for mining to be safe. */
  lemma NewBlockMakesMinerFallBehind(s: State, i: nat, j: nat, h: Header)
    requires AboutToExtend(s, i) && s.threads[i].job.mining
    requires j < |s.threads| && s.threads[j].Idle? && BuildsOnTip(s.tables.headers, h)
    ensures
      var s' := Run(s, [Begin(j, h)] + (Add(j) + Add(i)));
      && |s'.log| == |s.log| + 2
      && s'.log[|s.log| + 1].job == s.threads[i].job
      && MiningResult(s'.log[|s.log| + 1]) == BlockFallingBehind
  {
    RunOne(s, Begin(j, h));
    RunConcat(s, [Begin(j, h)], Add(j) + Add(i));
    SlowerReplacesFaster(Next(s, Begin(j, h)), j, i);
  }

  // ----- The abort in mine_block -----

  /** An attempt whose parent slot is filled is refused as invalid if and only if
      that slot holds another hash at the moment of validation. */
  lemma RefusedAsInvalidIff(s: State, i: nat)
    requires WellFormed(s.tables.headers) && i < |s.threads| && s.threads[i].Started?
    requires 1 <= s.threads[i].job.header.number <= Last(s.tables.headers) + 1
    ensures
      var job := s.threads[i].job;
      var invalid := s.tables.headers[job.header.number - 1].hash != job.header.parentHash;
      var s' := Next(s, Advance(i));
      if invalid then s'.log == s.log + [Refused(job, Invalid)] && s'.threads[i].Idle?
      else s'.log == s.log && s'.threads[i] == Validated(job)
  {
    TryAddOutcome(s.tables, s.threads[i].job.header);
  }

  ghost predicate MiningPlaced(s: State)
    requires s.tables.headers != map[]
  {
    forall i | 0 <= i < |s.threads| && s.threads[i].Started? && s.threads[i].job.mining ::
      1 <= s.threads[i].job.header.number <= Last(s.tables.headers) + 1
  }

  lemma {:induction false} RunKeepsMiningPlaced(s: State, steps: seq<Step>)
    requires Inv(s) && s.tables.headers != map[] && MiningPlaced(s)
    ensures MiningPlaced(Run(s, steps))
    decreases |steps|
  {
    if steps == [] {
    } else {
      NextKeepsInv(s, steps[0]);
      NextKeepsMiningPlaced(s, steps[0]);
      RunKeepsMiningPlaced(Next(s, steps[0]), steps[1..]);
    }
  }

  lemma NextKeepsMiningPlaced(s: State, step: Step)
    requires Inv(s) && s.tables.headers != map[] && MiningPlaced(s)
    ensures MiningPlaced(Next(s, step))
  {
    NextKeepsInv(s, step);
    var s' := Next(s, step);
    forall i | 0 <= i < |s'.threads| && s'.threads[i].Started? && s'.threads[i].job.mining
      ensures 1 <= s'.threads[i].job.header.number <= Last(s'.tables.headers) + 1
    {
      assert i != step.thread ==> s'.threads[i] == s.threads[i];
    }
  }

  /** With any threads mining and adding anything in any interleaving, a mining
      attempt that reaches validation aborts the program if and only if the block
      below its own has another hash by then than the one it read. */
  lemma MiningPanicsIff(n: nat, steps: seq<Step>, i: nat)
    requires i < n && Run(Init(n), steps).threads[i].Started? && Run(Init(n), steps).threads[i].job.mining
    ensures
      var s := Run(Init(n), steps);
      var h := s.threads[i].job.header;
      && 1 <= h.number && h.number - 1 in s.tables.headers
      && (if s.tables.headers[h.number - 1].hash != h.parentHash then
            Next(s, Advance(i)).log == s.log + [Refused(s.threads[i].job, Invalid)]
            && MiningResult(Refused(s.threads[i].job, Invalid)) == Panicked(Invalid)
          else
            Next(s, Advance(i)).threads[i] == Validated(s.threads[i].job))
  {
    InitHolds(n);
    RunKeepsInv(Init(n), steps);
    RunKeepsMiningPlaced(Init(n), steps);
    RefusedAsInvalidIff(Run(Init(n), steps), i);
  }

  /** Thread `i` mines on the tip, and thread `j`, past its validation, is about
      to put another block in the tip's place. */
  ghost predicate InDanger(s: State, i: nat, j: nat) {
    && i != j && j < |s.threads| && AboutToExtend(s, i)
    && s.threads[j].TipRead? && s.threads[j].oldTip + 1 == Last(s.tables.headers)
    && s.threads[j].job.header.number == Last(s.tables.headers)
    && s.threads[j].job.header.hash != s.tables.headers[Last(s.tables.headers)].hash
  }

  lemma DangerPanics(s: State, i: nat, j: nat)
    requires InDanger(s, i, j)
    ensures
      var tip := Last(s.tables.headers);
      Run(s, [Advance(j), Advance(j)] + [Advance(i)]).log
      == s.log + [Reported(s.threads[j].job, tip - 1, tip, false, ExtendTip)] + [Refused(s.threads[i].job, Invalid)]
  {
    WriteKeepsWellFormed(s.tables, s.threads[j].job.header);
    WriteAndReport(s, j);
    var s1 := Run(s, [Advance(j), Advance(j)]);
    RefusedAsInvalidIff(s1, i);
    RunOne(s1, Advance(i));
    RunConcat(s, [Advance(j), Advance(j)], [Advance(i)]);
  }

  lemma DangerPanicsAfter(s: State, into: seq<Step>, i: nat, j: nat)
    requires s.tables.headers != map[] && InDanger(Run(s, into), i, j)
    ensures
      var s1 := Run(s, into);
      var tip := Last(s1.tables.headers);
      Run(s, into + ([Advance(j), Advance(j)] + [Advance(i)])).log
      == s1.log + [Reported(s1.threads[j].job, tip - 1, tip, false, ExtendTip)] + [Refused(s1.threads[i].job, Invalid)]
  {
    DangerPanics(Run(s, into), i, j);
    RunConcat(s, into, [Advance(j), Advance(j)] + [Advance(i)]);
  }

  /** The second miner stops between its tip read and its write; the first one
      mines its block and begins the next. */
  function IntoDanger(i: nat, j: nat, nonce: nat, hash: string): seq<Step> {
    [Advance(j), Advance(j)] + Add(i) + [BeginMining(i, nonce, hash)]
  }

  lemma ReadsTip(s: State, j: nat)
    requires AboutToExtend(s, j)
    ensures Run(s, [Advance(j), Advance(j)])
         == s.(threads := s.threads[j := TipRead(s.threads[j].job, Last(s.tables.headers))])
  {
    TryAddOutcome(s.tables, s.threads[j].job.header);
    ValidateAndReadTip(s, j);
  }

  lemma ExtendsAfter(s: State, before: seq<Step>, i: nat)
    requires s.tables.headers != map[] && AboutToExtend(Run(s, before), i)
    ensures
      var s1 := Run(s, before);
      var job, tip := s1.threads[i].job, Last(s1.tables.headers);
      Run(s, before + Add(i))
      == State(Insert(s1.tables, job.header), s1.threads[i := Idle],
               s1.log + [Reported(job, tip, tip + 1, true, ExtendTip)])
  {
    AddsOnTop(Run(s, before), i);
    RunConcat(s, before, Add(i));
  }

  lemma SecondMinerStops(s: State, i: nat, j: nat)
    requires AboutToExtend(s, i) && AboutToExtend(s, j) && i != j
    ensures
      var tip := Last(s.tables.headers);
      Run(s, [Advance(j), Advance(j)] + Add(i))
      == State(Insert(s.tables, s.threads[i].job.header),
               s.threads[j := TipRead(s.threads[j].job, tip)][i := Idle],
               s.log + [Reported(s.threads[i].job, tip, tip + 1, true, ExtendTip)])
  {
    ReadsTip(s, j);
    ExtendsAfter(s, [Advance(j), Advance(j)], i);
  }

  lemma SecondMinerBringsDanger(s: State, i: nat, j: nat, nonce: nat, hash: string)
    requires AboutToExtend(s, i) && AboutToExtend(s, j) && i != j
    requires s.threads[i].job.header.hash != s.threads[j].job.header.hash
    ensures
      var tip := Last(s.tables.headers);
      var s' := Run(s, IntoDanger(i, j, nonce, hash));
      && InDanger(s', i, j) && Last(s'.tables.headers) == tip + 1
      && s'.threads[i].job == Job(MinedOn(s.threads[i].job.header, nonce, hash), true)
      && s'.threads[j].job == s.threads[j].job
      && s'.log == s.log + [Reported(s.threads[i].job, tip, tip + 1, true, ExtendTip)]
  {
    SecondMinerStops(s, i, j);
    WriteKeepsWellFormed(s.tables, s.threads[i].job.header);
    var s1 := Run(s, [Advance(j), Advance(j)] + Add(i));
    RunOne(s1, BeginMining(i, nonce, hash));
    RunConcat(s, [Advance(j), Advance(j)] + Add(i), [BeginMining(i, nonce, hash)]);
  }

  /** Wherever two miners have begun on the same tip with blocks of different
      hashes, the program can still abort, as `mine_block` does on any refusal:
      the late write of one takes away the block that the other's next attempt
      builds on. Both are told before that they extended the tip. */
  lemma SecondMinerCanPanic(s: State, i: nat, j: nat, nonce: nat, hash: string)
    requires AboutToExtend(s, i) && AboutToExtend(s, j) && i != j
    requires s.threads[i].job.header.hash != s.threads[j].job.header.hash
    ensures
      var tip := Last(s.tables.headers);
      var next := Job(MinedOn(s.threads[i].job.header, nonce, hash), true);
      Run(s, IntoDanger(i, j, nonce, hash) + ([Advance(j), Advance(j)] + [Advance(i)])).log
      == s.log + [Reported(s.threads[i].job, tip, tip + 1, true, ExtendTip)]
               + [Reported(s.threads[j].job, tip, tip + 1, false, ExtendTip)]
               + [Refused(next, Invalid)]
  {
    var into := IntoDanger(i, j, nonce, hash);
    SecondMinerBringsDanger(s, i, j, nonce, hash);
    DangerPanicsAfter(s, into, i, j);
  }

  // ----- More than one miner is never safe -----

  lemma {:induction false} MiningStepsAreARun(miners: set<nat>, s: State, steps: seq<Step>)
    requires s.tables.headers != map[]
    requires forall k | 0 <= k < |steps| :: steps[k].Advance? || (steps[k].BeginMining? && steps[k].thread in miners)
    ensures MinersRun(miners, s, steps)
    decreases |steps|
  {
    if steps == [] {
    } else {
      assert steps[0].Advance? || (steps[0].BeginMining? && steps[0].thread in miners);
      MiningStepsAreARun(miners, Next(s, steps[0]), steps[1..]);
    }
  }

  function Start(i: nat, j: nat, hash0: string, hash1: string): seq<Step> {
    [BeginMining(i, 0, hash0), BeginMining(j, 1, hash1)]
  }

  lemma TwoMinersStart(n: nat, i: nat, j: nat, hash0: string, hash1: string)
    requires i < n && j < n && i != j
    ensures
      var s := Run(Init(n), Start(i, j, hash0, hash1));
      && AboutToExtend(s, i) && AboutToExtend(s, j) && s.log == []
      && s.tables == InitialTables()
      && s.threads[i].job == Job(MinedOn(Genesis(), 0, hash0), true)
      && s.threads[j].job == Job(MinedOn(Genesis(), 1, hash1), true)
  {
    RunTwo(Init(n), BeginMining(i, 0, hash0), BeginMining(j, 1, hash1));
  }

  /** From a fresh chain, with any two of the miners: the slower one is told
      `BlockFallingBehind`, and its block has replaced the one the faster one
      mined and announced. */
  lemma SecondMinerReplacesMinedBlock(n: nat, miners: set<nat>, i: nat, j: nat, hash0: string, hash1: string)
    requires i < n && j < n && i != j && i in miners && j in miners
    ensures
      var steps := Start(i, j, hash0, hash1) + (Add(i) + Add(j));
      var s := Run(Init(n), steps);
      && MinersRun(miners, Init(n), steps)
      && |s.log| == 2 && s.log[0].job.mining && s.log[1].job.mining
      && MiningResult(s.log[0]) == Mined(MinedOn(Genesis(), 0, hash0))
      && MiningResult(s.log[1]) == BlockFallingBehind
      && 1 in s.tables.headers && s.tables.headers[1] == MinedOn(Genesis(), 1, hash1)
  {
    TwoMinersStart(n, i, j, hash0, hash1);
    SlowerReplacesFaster(Run(Init(n), Start(i, j, hash0, hash1)), i, j);
    RunConcat(Init(n), Start(i, j, hash0, hash1), Add(i) + Add(j));
    MiningStepsAreARun(miners, Init(n), Start(i, j, hash0, hash1) + (Add(i) + Add(j)));
  }

  lemma SecondMinerPanics(n: nat, miners: set<nat>, i: nat, j: nat, hash0: string, hash1: string, hash2: string)
    requires i < n && j < n && i != j && i in miners && j in miners && hash0 != hash1
    ensures
      var steps := Start(i, j, hash0, hash1)
                   + (IntoDanger(i, j, 2, hash2) + ([Advance(j), Advance(j)] + [Advance(i)]));
      var s := Run(Init(n), steps);
      && MinersRun(miners, Init(n), steps)
      && |s.log| == 3 && s.log[2].job.mining && MiningResult(s.log[2]) == Panicked(Invalid)
  {
    var rest := IntoDanger(i, j, 2, hash2) + ([Advance(j), Advance(j)] + [Advance(i)]);
    TwoMinersStart(n, i, j, hash0, hash1);
    SecondMinerCanPanic(Run(Init(n), Start(i, j, hash0, hash1)), i, j, 2, hash2);
    RunConcat(Init(n), Start(i, j, hash0, hash1), rest);
    MiningStepsAreARun(miners, Init(n), Start(i, j, hash0, hash1) + rest);
  }

  /** Mining is safe if and only if at most one thread mines: with any number of
      threads, the others adding blocks that are stored, every mining attempt of
      every run returns `Mined` exactly then, and exactly then none aborts. */
  lemma MiningSafeIff(n: nat, miners: set<nat>)
    requires forall i | i in miners :: i < n
    ensures (forall steps | MinersRun(miners, Init(n), steps) :: AllMined(Run(Init(n), steps).log))
            <==> |miners| <= 1
    ensures (forall steps | MinersRun(miners, Init(n), steps) :: NonePanicked(Run(Init(n), steps).log))
            <==> |miners| <= 1
  {
    if |miners| <= 1 {
      forall steps | MinersRun(miners, Init(n), steps)
        ensures AllMined(Run(Init(n), steps).log) && NonePanicked(Run(Init(n), steps).log)
      {
        AtMostOneMinerIsSafe(n, miners, steps);
      }
    } else {
      var i, j := TwoOf(miners);
      TwoMinersFail(n, miners, i, j);
    }
  }

  lemma TwoOf(s: set<nat>) returns (i: nat, j: nat)
    requires 2 <= |s|
    ensures i in s && j in s && i != j
  {
    i :| i in s;
    assert |s - {i}| == |s| - 1;
    j :| j in s - {i};
  }

  lemma TwoMinersFail(n: nat, miners: set<nat>, i: nat, j: nat)
    requires i < n && j < n && i != j && i in miners && j in miners
    ensures exists steps :: MinersRun(miners, Init(n), steps) && !AllMined(Run(Init(n), steps).log)
    ensures exists steps :: MinersRun(miners, Init(n), steps) && !NonePanicked(Run(Init(n), steps).log)
  {
    assert "a"[0] != "b"[0];
    SecondMinerPanics(n, miners, i, j, "a", "b", "c");
    var steps := Start(i, j, "a", "b") + (IntoDanger(i, j, 2, "c") + ([Advance(j), Advance(j)] + [Advance(i)]));
    assert !NonePanicked(Run(Init(n), steps).log) && !AllMined(Run(Init(n), steps).log);
  }
}
