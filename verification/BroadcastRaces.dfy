// Broadcasts that a miner's write brings about, and exactly when the promises about
// broadcasts hold on a node that may mine (src/net/chain.rs:136-166).
module BroadcastRaces {
  import opened Interface
  import opened BlockTree
  import opened MiningNode
  import Miners
  import Shared = SharedChain

  // ----- A miner's block between the two tip reads -----

  function AllMine(steps: seq<Shared.Step>): seq<Step> {
    if steps == [] then [] else [Mine(steps[0])] + AllMine(steps[1..])
  }

  /** Steps of the miners are steps of the chain. */
  lemma {:induction false} MinersMove(n: Node, steps: seq<Shared.Step>)
    requires Ready(n) && forall k | 0 <= k < |steps| :: OfMiner(n.miners, steps[k])
    ensures
      var n' := Run(n, AllMine(steps));
      n' == n.(chain := Shared.Run(n.chain, steps), minerRaises := n'.minerRaises)
    decreases |steps|
  {
    if steps == [] {
    } else {
      assert OfMiner(n.miners, steps[0]);
      assert AllMine(steps)[1..] == AllMine(steps[1..]);
      MinersMove(Next(n, Mine(steps[0])), steps[1..]);
    }
  }

  /** Thread `i` mines a block from start to end. */
  function Block(i: nat, hash: string): seq<Shared.Step> {
    [Shared.BeginMining(i, 0, hash)] + Miners.Add(i)
  }

  lemma MiningBegins(s: Shared.State, i: nat, hash: string)
    requires WellFormed(s.tables.headers) && i < |s.threads| && s.threads[i].Idle?
    ensures
      var job := Shared.Job(MinedOn(s.tables.headers[Last(s.tables.headers)], 0, hash), true);
      var s1 := Shared.Run(s, [Shared.BeginMining(i, 0, hash)]);
      s1 == s.(threads := s.threads[i := Shared.Started(job)]) && Miners.AboutToExtend(s1, i)
  {
    Shared.RunOne(s, Shared.BeginMining(i, 0, hash));
  }

  /** After `before`, thread `i` adds its block, and all threads are as they were. */
  lemma AddsAndReturns(s: Shared.State, before: seq<Shared.Step>, i: nat, job: Shared.Job)
    requires WellFormed(s.tables.headers) && i < |s.threads| && s.threads[i].Idle?
    requires Shared.Run(s, before) == s.(threads := s.threads[i := Shared.Started(job)])
    requires Shared.BuildsOnTip(s.tables.headers, job.header)
    ensures
      var tip := Last(s.tables.headers);
      Shared.Run(s, before + Miners.Add(i))
      == Shared.State(Insert(s.tables, job.header), s.threads,
                      s.log + [Shared.Reported(job, tip, tip + 1, true, ExtendTip)])
  {
    Miners.ExtendsAfter(s, before, i);
    assert s.threads[i := Shared.Started(job)][i := Shared.Idle] == s.threads;
  }

  lemma BlockIsMined(s: Shared.State, i: nat, hash: string)
    requires WellFormed(s.tables.headers) && i < |s.threads| && s.threads[i].Idle?
    ensures
      var tip := Last(s.tables.headers);
      var h := MinedOn(s.tables.headers[tip], 0, hash);
      Shared.Run(s, Block(i, hash))
      == Shared.State(Insert(s.tables, h), s.threads,
                      s.log + [Shared.Reported(Shared.Job(h, true), tip, tip + 1, true, ExtendTip)])
  {
    var job := Shared.Job(MinedOn(s.tables.headers[Last(s.tables.headers)], 0, hash), true);
    MiningBegins(s, i, hash);
    AddsAndReturns(s, [Shared.BeginMining(i, 0, hash)], i, job);
  }

  /** The manager and thread `i` are idle, the chain is linked, and `h` is a stored
      block above genesis. */
  ghost predicate Quiet(n: Node, i: nat, h: Header) {
    && NodeInv(n) && Linked(n.chain.tables.headers)
    && i in n.miners && i < |n.chain.threads| && n.chain.threads[0].Idle? && n.chain.threads[i].Idle?
    && 1 <= h.number && Shared.Stored(n.chain.tables.headers, h)
  }

  function ReadAgain(h: Header): seq<Step> {
    [Hear(h)] + [Proceed, Proceed]
  }

  /** The node is told again of `h` and gets as far as the first tip read. */
  lemma ToldAgain(n: Node, i: nat, h: Header)
    requires Quiet(n, i, h)
    ensures
      var n' := Run(n, ReadAgain(h));
      && n'.chain == n.chain.(threads := n.chain.threads[0 := Shared.TipRead(Shared.Job(h, false), Tip(n))])
      && n'.gossip && n'.manager == n.manager && n'.raced == n.raced && n'.miners == n.miners
      && NodeInv(n')
  {
    RunOne(n, Hear(h));
    var n1 := Next(n, Hear(h));
    NextKeepsInv(n, Hear(h));
    Shared.StoredIsValid(n.chain.tables.headers, h);
    FirstHalf(n1);
    RunTwo(n1, Proceed, Proceed);
    RunConcat(n, [Hear(h)], [Proceed, Proceed]);
    assert n1.chain.threads[0 := Shared.TipRead(Shared.Job(h, false), Tip(n))]
        == n.chain.threads[0 := Shared.TipRead(Shared.Job(h, false), Tip(n))];
  }

  lemma MinedMeanwhile(n: Node, i: nat, h: Header, hash: string)
    requires NodeInv(n) && Linked(n.chain.tables.headers) && n.chain.threads[0].TipRead?
    requires i in n.miners && i < |n.chain.threads| && n.chain.threads[i].Idle?
    requires Shared.Stored(n.chain.tables.headers, h)
    ensures
      var n' := Run(n, AllMine(Block(i, hash)));
      && NodeInv(n') && Linked(n'.chain.tables.headers) && Tip(n') == Tip(n) + 1
      && n'.chain.threads == n.chain.threads && Shared.Stored(n'.chain.tables.headers, h)
      && n' == n.(chain := n'.chain, minerRaises := n'.minerRaises)
  {
    MinersMove(n, Block(i, hash));
    BlockIsMined(n.chain, i, hash);
    Shared.AppendToLinked(n.chain.tables, MinedOn(n.chain.tables.headers[Tip(n)], 0, hash));
    RunKeepsInv(n, AllMine(Block(i, hash)));
  }

  /** The manager writes and reports a header that is stored already. */
  lemma RewritesAndReports(n: Node, h: Header)
    requires NodeInv(n) && n.chain.threads[0].TipRead? && n.chain.threads[0].job == Shared.Job(h, false)
    requires Shared.Stored(n.chain.tables.headers, h) && n.gossip && n.chain.threads[0].oldTip < Tip(n)
    ensures
      var n' := Run(n, [Proceed, Proceed]);
      && NodeInv(n') && n'.chain.tables.headers == n.chain.tables.headers
      && n'.chain.threads == n.chain.threads[0 := Shared.Idle]
      && n'.miners == n.miners
      && n'.manager.headerBroadcasts == n.manager.headerBroadcasts + [h]
      && n'.raced == n.raced + [h]
      && n'.chain.log == n.chain.log
         + [Shared.Reported(Shared.Job(h, false), n.chain.threads[0].oldTip, Tip(n), false, ExtendTip)]
  {
    RunTwo(n, Proceed, Proceed);
    WriteIs(n);
    NextKeepsInv(n, Proceed);
    ReportIs(OnProceed(n));
    NextKeepsInv(OnProceed(n), Proceed);
    assert n.chain.tables.headers[h.number := h] == n.chain.tables.headers;
  }

  /** One round: the node is told of its old block `h`, thread `i` mines a block
      between the two tip reads, and `h` goes out again. */
  function Round(i: nat, h: Header): seq<Step> {
    ReadAgain(h) + AllMine(Block(i, "")) + [Proceed, Proceed]
  }

  lemma RoundIs(n: Node, i: nat, h: Header)
    requires Ready(n)
    ensures Run(n, Round(i, h)) == Run(Run(Run(n, ReadAgain(h)), AllMine(Block(i, ""))), [Proceed, Proceed])
  {
    RunConcat(n, ReadAgain(h) + AllMine(Block(i, "")), [Proceed, Proceed]);
    RunConcat(n, ReadAgain(h), AllMine(Block(i, "")));
  }

  /** `n2` is `n` with the manager past its tip read in an add of `h`, and one more
      block mined since. */
  ghost predicate AtRace(n: Node, n2: Node, h: Header)
    requires Ready(n)
  {
    && NodeInv(n2) && Linked(n2.chain.tables.headers) && Shared.Stored(n2.chain.tables.headers, h)
    && Tip(n2) == Tip(n) + 1
    && n2.chain.threads == n.chain.threads[0 := Shared.TipRead(Shared.Job(h, false), Tip(n))]
    && n2.gossip && n2.manager == n.manager && n2.raced == n.raced && n2.miners == n.miners
  }

  lemma ReachesRace(n: Node, i: nat, h: Header)
    requires Quiet(n, i, h)
    ensures AtRace(n, Run(Run(n, ReadAgain(h)), AllMine(Block(i, ""))), h)
  {
    ToldAgain(n, i, h);
    MinedMeanwhile(Run(n, ReadAgain(h)), i, h, "");
  }

  /** `n'` is after the round, `n` before. */
  ghost predicate SentAgain(n: Node, n': Node, i: nat, h: Header)
    requires Ready(n)
  {
    && Quiet(n', i, h) && n'.miners == n.miners
    && Times(n', h) == Times(n, h) + 1
    && n'.raced == n.raced + [h]
    && n'.chain.log != []
    && n'.chain.log[|n'.chain.log| - 1]
       == Shared.Reported(Shared.Job(h, false), Tip(n), Tip(n) + 1, false, ExtendTip)
  }

  lemma RaceEnds(n: Node, n2: Node, i: nat, h: Header)
    requires Quiet(n, i, h) && AtRace(n, n2, h)
    ensures SentAgain(n, Run(n2, [Proceed, Proceed]), i, h)
  {
    RewritesAndReports(n2, h);
    TimesSnoc(n.manager.headerBroadcasts, h, h);
    assert n2.chain.threads[0 := Shared.Idle] == n.chain.threads;
  }

  lemma RoundSendsAgain(n: Node, i: nat, h: Header)
    requires Quiet(n, i, h)
    ensures SentAgain(n, Run(n, Round(i, h)), i, h)
  {
    RoundIs(n, i, h);
    ReachesRace(n, i, h);
    RaceEnds(n, Run(Run(n, ReadAgain(h)), AllMine(Block(i, ""))), i, h);
  }

  /** The first block thread `i` mines on a fresh chain. */
  function FirstBlock(): Header {
    MinedOn(Genesis(), 0, "")
  }

  lemma FirstBlockIsMined(threads: nat, miners: set<nat>, i: nat)
    requires 0 !in miners && i in miners && i < threads
    ensures Quiet(Run(Init(threads, miners), AllMine(Block(i, ""))), i, FirstBlock())
    ensures Run(Init(threads, miners), AllMine(Block(i, ""))).miners == miners
  {
    var n := Init(threads, miners);
    InitHolds(threads, miners);
    MinersMove(n, Block(i, ""));
    BlockIsMined(n.chain, i, "");
    Shared.AppendToLinked(n.chain.tables, FirstBlock());
    RunKeepsInv(n, AllMine(Block(i, "")));
  }

  lemma {:induction false} SentAgainAndAgain(n: Node, i: nat, h: Header, k: nat) returns (steps: seq<Step>)
    requires Quiet(n, i, h)
    ensures Times(Run(n, steps), h) == Times(n, h) + k
    decreases k
  {
    if k == 0 {
      steps := [];
    } else {
      RoundSendsAgain(n, i, h);
      var rest := SentAgainAndAgain(Run(n, Round(i, h)), i, h, k - 1);
      RunConcat(n, Round(i, h), rest);
      steps := Round(i, h) + rest;
    }
  }

  // ----- Exactly when the promises hold -----

  ghost predicate AtMost(bound: nat, threads: nat, miners: set<nat>, h: Header)
    requires 1 <= threads
  {
    forall steps :: Times(Run(Init(threads, miners), steps), h) <= bound
  }

  /** "Only headers ahead of the local chain": every add of the manager, of
      whatever headers, that is told `ExtendTip` is of the block next to the tip it
      read, in every run, if and only if nobody mines on the node. Exactly then no
      broadcast is a race; and exactly then a block of the node's own is broadcast
      a bounded number of times. */
  lemma OnlyAheadIffNobodyMines(threads: nat, miners: set<nat>)
    requires 1 <= threads && 0 !in miners && forall i | i in miners :: i < threads
    ensures (forall steps :: OnlyAhead(Run(Init(threads, miners), steps))) <==> miners == {}
    ensures (forall steps :: Run(Init(threads, miners), steps).raced == []) <==> miners == {}
    ensures (exists bound :: AtMost(bound, threads, miners, FirstBlock())) <==> miners == {}
  {
    if miners == {} {
      NobodyMines(threads);
    } else {
      var i :| i in miners;
      MinerRaces(threads, miners, i);
      forall bound
        ensures !AtMost(bound, threads, miners, FirstBlock())
      {
        MinerExceeds(threads, miners, i, bound);
      }
    }
  }

  lemma NobodyMines(threads: nat)
    requires 1 <= threads
    ensures forall steps :: OnlyAhead(Run(Init(threads, {}), steps)) && Run(Init(threads, {}), steps).raced == []
    ensures AtMost(2, threads, {}, FirstBlock())
  {
    InitHolds(threads, {});
    forall steps
      ensures OnlyAhead(Run(Init(threads, {}), steps)) && Run(Init(threads, {}), steps).raced == []
      ensures Times(Run(Init(threads, {}), steps), FirstBlock()) <= 2
    {
      RunKeepsInv(Init(threads, {}), steps);
      RunKeepsAlone(Init(threads, {}), steps);
      BroadcastsBoundedByRaces(threads, {}, steps, FirstBlock());
    }
  }

  lemma MinerRaces(threads: nat, miners: set<nat>, i: nat)
    requires 0 !in miners && i in miners && i < threads
    ensures exists steps :: !OnlyAhead(Run(Init(threads, miners), steps))
    ensures exists steps :: Run(Init(threads, miners), steps).raced != []
  {
    var first := AllMine(Block(i, ""));
    FirstBlockIsMined(threads, miners, i);
    var n := Run(Init(threads, miners), first);
    RoundSendsAgain(n, i, FirstBlock());
    RunConcat(Init(threads, miners), first, Round(i, FirstBlock()));
    RaceIsNotAhead(n, Run(n, Round(i, FirstBlock())), i, FirstBlock());
    assert !OnlyAhead(Run(Init(threads, miners), first + Round(i, FirstBlock())));
  }

  lemma RaceIsNotAhead(n: Node, n': Node, i: nat, h: Header)
    requires Ready(n) && h.number <= Tip(n) && SentAgain(n, n', i, h)
    ensures !OnlyAhead(n') && n'.raced != []
  {
    assert AheadMatters(n'.chain.log[|n'.chain.log| - 1]);
  }

  lemma MinerExceeds(threads: nat, miners: set<nat>, i: nat, bound: nat)
    requires 0 !in miners && i in miners && i < threads
    ensures !AtMost(bound, threads, miners, FirstBlock())
  {
    var first := AllMine(Block(i, ""));
    FirstBlockIsMined(threads, miners, i);
    var rest := SentAgainAndAgain(Run(Init(threads, miners), first), i, FirstBlock(), bound + 1);
    RunConcat(Init(threads, miners), first, rest);
    assert Times(Run(Init(threads, miners), first + rest), FirstBlock()) > bound;
  }
}
