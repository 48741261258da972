// Whatever has happened on the network, it can still converge: what was once
// announced stays deliverable, and a node takes its next block in any state.
module Convergence {
  import opened Interface
  import opened BlockTree
  import opened ChainManager
  import opened Network
  import Shared = SharedChain
  import Sync = SyncHeaders

  // ----- Every mined block is announced -----

  function ChainOf(n: Net): HeaderTable
    requires n.nodes != []
  {
    n.nodes[0].tables.headers
  }

  /** All blocks of the miner's chain have been announced, except the last one
      while its mining attempt has yet to return. */
  ghost predicate AllAnnounced(n: Net)
    requires NetInv(n)
  {
    forall k | k in ChainOf(n) && 0 < k && !(n.miner.Wrote? && k == Last(ChainOf(n))) :: ChainOf(n)[k] in n.gossip
  }

  /** A step of anything but the mining thread. */
  ghost predicate SameMining(n: Net, n': Net)
    requires n.nodes != [] && n'.nodes != []
  {
    ChainOf(n') == ChainOf(n) && n'.miner == n.miner && n.gossip <= n'.gossip
  }

  lemma OnNodeSameMining(n: Net, i: nat, step: Step)
    requires NetInv(n) && i < |n.nodes| && FedFrom(ChainOf(n), step)
    ensures SameMining(n, OnNode(n, i, step))
  {
    NodeStepKeepsInv(n, i, step);
  }

  lemma RaceSameMining(n: Net, h: Header)
    requires NetInv(n) && h in n.gossip
    ensures SameMining(n, OnRace(n, h))
  {
    var m := n.nodes[0];
    var t' := Insert(m.tables, h);
    assert t'.headers == m.tables.headers;
    ReactKeepsNodeOk(m.tables.headers, m, t', h, Ok(ExtendTip));
  }

  lemma CollectSameMining(n: Net, i: nat, sync: nat)
    requires NetInv(n) && HasSync(n, i, sync)
    ensures SameMining(n, OnNode(n, i, SyncReady(sync, ResultOf(n.nodes[i].syncs[sync].output))))
  {
    assert SyncOk(ChainOf(n), n.nodes[i].syncs[sync]);
    OnNodeSameMining(n, i, SyncReady(sync, ResultOf(n.nodes[i].syncs[sync].output)));
  }

  lemma EventsSameMining(n: Net, step: NetStep)
    requires NetInv(n)
    requires step.DeliverGossip? || step.RacedGossip? || step.DeliverTransactions? || step.PeersFound?
    ensures SameMining(n, NetNext(n, step))
  {
    match step
    case DeliverGossip(i, h) =>
      if i < |n.nodes| && h in n.gossip {
        OnNodeSameMining(n, i, OnEvent(IncomingNewBlockHeader(h)));
      }
    case RacedGossip(h) =>
      if h in n.gossip {
        RaceSameMining(n, h);
      }
    case DeliverTransactions(i, txs) =>
      if i < |n.nodes| {
        OnNodeSameMining(n, i, OnEvent(IncomingTransactions(txs)));
      }
    case PeersFound(i, peers) =>
      if i < |n.nodes| {
        OnNodeSameMining(n, i, LookupReady(peers));
      }
  }

  lemma SyncsSameMining(n: Net, step: NetStep)
    requires NetInv(n)
    requires step.IssueRequest? || step.DeliverResponse? || step.FailRequest? || step.FinishSync?
    ensures SameMining(n, NetNext(n, step))
  {
    match step
    case IssueRequest(i, sync) =>
      if HasSync(n, i, sync) {
        SyncStepSameMining(n, i, sync, Sync.Issue);
      }
    case DeliverResponse(r) =>
      if r in n.responses && HasSync(n, r.client, r.sync) {
        SyncStepSameMining(n, r.client, r.sync, Sync.Receive(r.id, Sync.Delivered(r.headers)));
      }
    case FailRequest(i, sync, id) =>
      if HasSync(n, i, sync) {
        SyncStepSameMining(n, i, sync, Sync.Receive(id, Sync.RequestFailed));
      }
    case FinishSync(i, sync) =>
      if HasSync(n, i, sync) {
        SyncStepSameMining(n, i, sync, Sync.Finish);
      }
  }

  lemma SyncStepSameMining(n: Net, i: nat, sync: nat, step: Sync.Step)
    requires n.nodes != [] && HasSync(n, i, sync)
    ensures OnSyncStep(n, i, sync, step).nodes != [] && SameMining(n, OnSyncStep(n, i, sync, step))
  {
  }

  lemma OthersSameMining(n: Net, step: NetStep)
    requires NetInv(n) && !step.MineBegin? && !step.MineAdvance?
    ensures SameMining(n, NetNext(n, step))
  {
    match step
    case ServeRequest(r) =>
      if r in n.requests && r.server < |n.nodes| {
        OnNodeSameMining(n, r.server, OnEvent(GetBlockHeaders(r.body)));
      }
    case CollectSync(i, sync) =>
      if HasSync(n, i, sync) && !n.nodes[i].syncs[sync].output.Running? {
        CollectSameMining(n, i, sync);
      }
    case IssueRequest(_, _) => SyncsSameMining(n, step);
    case DeliverResponse(_) => SyncsSameMining(n, step);
    case FailRequest(_, _, _) => SyncsSameMining(n, step);
    case FinishSync(_, _) => SyncsSameMining(n, step);
    case _ => EventsSameMining(n, step);
  }

  lemma SameMiningKeepsAnnounced(n: Net, n': Net)
    requires NetInv(n) && NetInv(n') && AllAnnounced(n) && SameMining(n, n')
    ensures AllAnnounced(n')
  {
  }

  /** The mining thread's own steps: a write puts a block on top, and the report
      that follows announces it. */
  lemma MineKeepsAnnounced(n: Net, step: Shared.Step)
    requires NetInv(n) && AllAnnounced(n)
    requires step == Shared.Advance(0) || (step.BeginMining? && step.thread == 0)
    ensures NetInv(OnMine(n, step)) && AllAnnounced(OnMine(n, step))
  {
    MineKeepsInv(n, step);
    if step.Advance? && n.miner.TipRead? {
      WriteKeepsAnnounced(n);
    } else if step.Advance? && n.miner.Wrote? {
      ReportAnnounces(n);
    } else {
      MineMoves(n, step);
    }
  }

  lemma WriteKeepsAnnounced(n: Net)
    requires NetInv(n) && AllAnnounced(n) && n.miner.TipRead?
    ensures NetInv(OnMine(n, Shared.Advance(0))) && AllAnnounced(OnMine(n, Shared.Advance(0)))
  {
    MineKeepsInv(n, Shared.Advance(0));
    var s := MinerState(n);
    var n' := OnMine(n, Shared.Advance(0));
    assert Shared.BuildsOnTip(s.tables.headers, n.miner.job.header);
    Shared.AppendToLinked(s.tables, n.miner.job.header);
    assert n'.miner.Wrote? && ChainOf(n') == Insert(s.tables, n.miner.job.header).headers;
    forall k | k in ChainOf(n') && 0 < k && k != Last(ChainOf(n'))
      ensures ChainOf(n')[k] in n'.gossip
    {
      assert k in ChainOf(n) && ChainOf(n')[k] == ChainOf(n)[k];
    }
  }

  /** The other steps of the mining thread change neither chain nor gossip. */
  lemma MineMoves(n: Net, step: Shared.Step)
    requires NetInv(n) && (step == Shared.Advance(0) || (step.BeginMining? && step.thread == 0))
    requires step.Advance? ==> !n.miner.TipRead? && !n.miner.Wrote?
    ensures
      var n' := OnMine(n, step);
      ChainOf(n') == ChainOf(n) && n.gossip <= n'.gossip && (n'.miner.Wrote? <==> n.miner.Wrote?)
  {
  }

  lemma ReportAnnounces(n: Net)
    requires NetInv(n) && AllAnnounced(n) && n.miner.Wrote?
    ensures
      var n' := OnMine(n, Shared.Advance(0));
      && NetInv(n') && AllAnnounced(n') && ChainOf(n') == ChainOf(n) && !n'.miner.Wrote?
  {
    MineKeepsInv(n, Shared.Advance(0));
    var n' := OnMine(n, Shared.Advance(0));
    var e := n'.attempts[|n'.attempts| - 1];
    assert Shared.MinedOk(MinerState(n').log[|n'.attempts| - 1]);
    assert e.job.header in Announced(n'.attempts);
    assert e.job.header == ChainOf(n)[Last(ChainOf(n))];
  }

  lemma NetNextKeepsAnnounced(n: Net, step: NetStep)
    requires NetInv(n) && AllAnnounced(n)
    ensures NetInv(NetNext(n, step)) && AllAnnounced(NetNext(n, step))
  {
    NetNextKeepsInv(n, step);
    match step
    case MineBegin(nonce, hash) => MineKeepsAnnounced(n, Shared.BeginMining(0, nonce, hash));
    case MineAdvance => MineKeepsAnnounced(n, Shared.Advance(0));
    case _ =>
      OthersSameMining(n, step);
      SameMiningKeepsAnnounced(n, NetNext(n, step));
  }

  lemma {:induction false} RunKeepsAnnounced(n: Net, steps: seq<NetStep>)
    requires NetInv(n) && AllAnnounced(n)
    ensures NetInv(NetRun(n, steps)) && AllAnnounced(NetRun(n, steps))
    decreases |steps|
  {
    RunKeepsInv(n, steps);
    if steps == [] {
    } else {
      NetNextKeepsAnnounced(n, steps[0]);
      RunKeepsAnnounced(NetNext(n, steps[0]), steps[1..]);
    }
  }

  // ----- Runs as relations -----

  lemma {:induction false} NetRunConcat(n: Net, a: seq<NetStep>, b: seq<NetStep>)
    requires NetInv(n)
    ensures NetInv(NetRun(n, a)) && NetRun(n, a + b) == NetRun(NetRun(n, a), b)
    decreases |a|
  {
    RunKeepsInv(n, a);
    if a == [] {
      assert a + b == b;
    } else {
      assert (a + b)[1..] == a[1..] + b;
      NetNextKeepsInv(n, a[0]);
      NetRunConcat(NetNext(n, a[0]), a[1..], b);
    }
  }

  /** The steps lead from `n` to `n'`. */
  ghost predicate Goes(n: Net, steps: seq<NetStep>, n': Net) {
    NetInv(n) && NetInv(n') && NetRun(n, steps) == n'
  }

  lemma GoesOn(a: Net, x: seq<NetStep>, b: Net, y: seq<NetStep>, c: Net)
    requires Goes(a, x, b) && Goes(b, y, c)
    ensures Goes(a, x + y, c)
  {
    NetRunConcat(a, x, y);
  }

  lemma GoesOne(n: Net, step: NetStep)
    requires NetInv(n)
    ensures Goes(n, [step], NetNext(n, step))
  {
    NetNextKeepsInv(n, step);
    assert NetRun(n, [step]) == NetRun(NetNext(n, step), []);
  }

  // ----- One node catches up by gossip -----

  /** A node in any state takes the next block of the chain it is on. */
  lemma NodeTakesNext(chain: HeaderTable, m: Manager, h: Header)
    requires WellFormed(chain) && Linked(chain) && NodeOk(chain, m)
    requires Belongs(chain, h) && h.number == Last(m.tables.headers) + 1
    ensures
      var m' := Next(m, OnEvent(IncomingNewBlockHeader(h)));
      WellFormed(m'.tables.headers) && Last(m'.tables.headers) == h.number
  {
    assert LinkAt(chain, h.number);
    TryAddOutcome(m.tables, h);
    TryAddTables(m.tables, h);
  }

  lemma SameNumbersSameChain(hs: HeaderTable, chain: HeaderTable)
    requires WellFormed(hs) && WellFormed(chain) && PartOf(hs, chain) && Last(hs) == Last(chain)
    ensures hs == chain
  {
    assert forall k :: k in hs <==> k in chain;
  }

  /** `n'` is `n` after deliveries to node `i` only. */
  ghost predicate OnlyNode(n: Net, n': Net, i: nat)
    requires n.nodes != []
  {
    && |n'.nodes| == |n.nodes| && SameMining(n, n')
    && forall j | 0 <= j < |n.nodes| && j != i :: n'.nodes[j].tables.headers == n.nodes[j].tables.headers
  }

  lemma DeliveryIsForOneNode(n: Net, i: nat, h: Header)
    requires NetInv(n) && i < |n.nodes| && h in n.gossip
    ensures
      var n' := NetNext(n, DeliverGossip(i, h));
      && OnlyNode(n, n', i)
      && n'.nodes[i] == Next(n.nodes[i], OnEvent(IncomingNewBlockHeader(h)))
  {
    OnNodeSameMining(n, i, OnEvent(IncomingNewBlockHeader(h)));
  }

  /** `n'` is one delivery after `n`, and node `i` is one block further. */
  ghost predicate Closer(n: Net, n': Net, i: nat)
    requires n.nodes != [] && i < |n.nodes|
  {
    && NetInv(n') && AllAnnounced(n') && OnlyNode(n, n', i)
    && n.nodes[i].tables.headers != map[] && n'.nodes[i].tables.headers != map[]
    && Last(n'.nodes[i].tables.headers) == Last(n.nodes[i].tables.headers) + 1
  }

  lemma DeliverNext(n: Net, i: nat) returns (h: Header)
    requires NetInv(n) && AllAnnounced(n) && !n.miner.Wrote? && i < |n.nodes|
    requires Last(n.nodes[i].tables.headers) < Last(ChainOf(n))
    ensures Closer(n, NetNext(n, DeliverGossip(i, h)), i)
  {
    h := NextBlock(n, i);
    NodeTakesNext(ChainOf(n), n.nodes[i], h);
    DeliveryIsForOneNode(n, i, h);
    NetNextKeepsAnnounced(n, DeliverGossip(i, h));
  }

  /** The block a node behind the miner needs next has been announced. */
  lemma NextBlock(n: Net, i: nat) returns (h: Header)
    requires NetInv(n) && AllAnnounced(n) && !n.miner.Wrote? && i < |n.nodes|
    requires Last(n.nodes[i].tables.headers) < Last(ChainOf(n))
    ensures NodeOk(ChainOf(n), n.nodes[i]) && Belongs(ChainOf(n), h) && h in n.gossip
    ensures WellFormed(ChainOf(n)) && Linked(ChainOf(n))
    ensures h.number == Last(n.nodes[i].tables.headers) + 1 && h == ChainOf(n)[h.number]
  {
    assert NodeOk(ChainOf(n), n.nodes[i]);
    h := ChainOf(n)[Last(n.nodes[i].tables.headers) + 1];
  }

  lemma {:induction false} CatchUp(n: Net, i: nat) returns (steps: seq<NetStep>, n': Net)
    requires NetInv(n) && AllAnnounced(n) && !n.miner.Wrote? && i < |n.nodes|
    ensures Goes(n, steps, n') && AllAnnounced(n') && OnlyNode(n, n', i)
    ensures n'.nodes[i].tables.headers == ChainOf(n)
    decreases Last(ChainOf(n)) - Last(n.nodes[i].tables.headers)
  {
    var hs := n.nodes[i].tables.headers;
    assert NodeOk(ChainOf(n), n.nodes[i]);
    assert Last(hs) in ChainOf(n);
    if Last(hs) == Last(ChainOf(n)) {
      SameNumbersSameChain(hs, ChainOf(n));
      steps, n' := [], n;
    } else {
      var h := DeliverNext(n, i);
      var n1 := NetNext(n, DeliverGossip(i, h));
      GoesOne(n, DeliverGossip(i, h));
      var rest;
      rest, n' := CatchUp(n1, i);
      GoesOn(n, [DeliverGossip(i, h)], n1, rest, n');
      steps := [DeliverGossip(i, h)] + rest;
    }
  }

  // ----- All of them do -----

  /** The first `m` nodes hold the whole chain. */
  ghost predicate Caught(n: Net, m: nat)
    requires n.nodes != []
  {
    m <= |n.nodes| && forall i | 0 <= i < m :: n.nodes[i].tables.headers == ChainOf(n)
  }

  lemma {:induction false} AllCatchUp(n: Net, m: nat) returns (steps: seq<NetStep>, n': Net)
    requires NetInv(n) && AllAnnounced(n) && !n.miner.Wrote? && Caught(n, m)
    ensures Goes(n, steps, n') && ChainOf(n') == ChainOf(n)
    ensures |n'.nodes| == |n.nodes| && Caught(n', |n'.nodes|)
    decreases |n.nodes| - m
  {
    if m == |n.nodes| {
      steps, n' := [], n;
    } else {
      var first, n1 := CatchUp(n, m);
      var rest;
      rest, n' := AllCatchUp(n1, m + 1);
      GoesOn(n, first, n1, rest, n');
      steps := first + rest;
    }
  }

  /** A mining attempt that has written its block returns and announces it. */
  lemma FinishAttempt(n: Net) returns (steps: seq<NetStep>, n': Net)
    requires NetInv(n) && AllAnnounced(n)
    ensures Goes(n, steps, n') && AllAnnounced(n') && !n'.miner.Wrote?
    ensures ChainOf(n') == ChainOf(n) && |n'.nodes| == |n.nodes|
  {
    if n.miner.Wrote? {
      ReportAnnounces(n);
      GoesOne(n, MineAdvance);
      steps, n' := [MineAdvance], NetNext(n, MineAdvance);
    } else {
      steps, n' := [], n;
    }
  }

  /** In `s'` every node holds the miner's chain as it was in `s`, and with it every
      block announced by then. */
  ghost predicate Converged(s: Net, s': Net)
    requires s.nodes != []
  {
    && |s'.nodes| == |s.nodes|
    && (forall i | 0 <= i < |s'.nodes| :: s'.nodes[i].tables.headers == ChainOf(s))
    && (forall h, i | h in s.gossip && 0 <= i < |s'.nodes| :: Belongs(s'.nodes[i].tables.headers, h))
  }

  /** From every reachable state, whatever was lost, duplicated or reordered, and
      whichever nodes are stranded with their flag set, some continuation brings
      every node to the miner's whole chain, and so to every announced block. */
  lemma CanConverge(n: Net, before: seq<NetStep>)
    requires IsInit(n)
    ensures NetInv(n) && NetInv(NetRun(n, before)) && |NetRun(n, before).nodes| == |n.nodes|
    ensures exists steps :: Converged(NetRun(n, before), NetRun(NetRun(n, before), steps))
  {
    Network.InitHolds(n);
    RunKeepsInv(n, before);
    RunKeepsAnnounced(n, before);
    var s := NetRun(n, before);
    var first, s1 := FinishAttempt(s);
    var rest, s2 := AllCatchUp(s1, 0);
    GoesOn(s, first, s1, rest, s2);
    assert Converged(s, NetRun(s, first + rest));
  }

  // ----- The miner can always mine another block -----

  /** Each step brings an attempt further, and the last one announces its block. */
  lemma MineTick(n: Net)
    requires NetInv(n) && !n.miner.Idle?
    ensures
      var n', job := NetNext(n, MineAdvance), n.miner.job;
      && NetInv(n')
      && match n.miner
         case Idle => true
         case Started(_) => n'.miner == Shared.Validated(job)
         case Validated(_) => n'.miner.TipRead? && n'.miner.job == job
         case TipRead(_, _) => n'.miner.Wrote? && n'.miner.job == job
         case Wrote(_, _, _) => n'.miner.Idle? && OnTop(n', job.header)
  {
    NetNextKeepsInv(n, MineAdvance);
    match n.miner
    case Started(job) => TryAddOutcome(MinerState(n).tables, job.header);
    case Wrote(job, _, _) => AttemptIsAnnounced(n);
    case _ =>
  }

  /** The header is the last block of the miner's chain and has been announced. */
  ghost predicate OnTop(n: Net, h: Header)
    requires n.nodes != []
  {
    ChainOf(n) != map[] && ChainOf(n)[Last(ChainOf(n))] == h && h in n.gossip
  }

  lemma AttemptIsAnnounced(n: Net)
    requires NetInv(n) && n.miner.Wrote?
    ensures
      var n' := NetNext(n, MineAdvance);
      n'.miner.Idle? && OnTop(n', n.miner.job.header)
  {
    NetNextKeepsInv(n, MineAdvance);
    var n' := NetNext(n, MineAdvance);
    assert Shared.MinedOk(MinerState(n').log[|n'.attempts| - 1]);
    assert n'.attempts[|n'.attempts| - 1].job.header in Announced(n'.attempts);
  }

  function TicksLeft(thread: Shared.Thread): nat {
    match thread
    case Idle => 0
    case Started(_) => 4
    case Validated(_) => 3
    case TipRead(_, _) => 2
    case Wrote(_, _, _) => 1
  }

  lemma {:induction false} AttemptEnds(n: Net) returns (steps: seq<NetStep>, n': Net)
    requires NetInv(n) && !n.miner.Idle?
    ensures Goes(n, steps, n') && n'.miner.Idle? && OnTop(n', n.miner.job.header)
    decreases TicksLeft(n.miner)
  {
    MineTick(n);
    GoesOne(n, MineAdvance);
    var n1 := NetNext(n, MineAdvance);
    if n1.miner.Idle? {
      steps, n' := [MineAdvance], n1;
    } else {
      var rest;
      rest, n' := AttemptEnds(n1);
      GoesOn(n, [MineAdvance], n1, rest, n');
      steps := [MineAdvance] + rest;
    }
  }

  lemma AnotherBlock(n: Net, nonce: nat, hash: string) returns (steps: seq<NetStep>, n': Net)
    requires NetInv(n) && n.miner.Idle?
    ensures
      Goes(n, steps, n') && OnTop(n', MinedOn(ChainOf(n)[Last(ChainOf(n))], nonce, hash))
  {
    GoesOne(n, MineBegin(nonce, hash));
    var n1 := NetNext(n, MineBegin(nonce, hash));
    var rest;
    rest, n' := AttemptEnds(n1);
    GoesOn(n, [MineBegin(nonce, hash)], n1, rest, n');
    steps := [MineBegin(nonce, hash)] + rest;
  }

  /** A block of this nonce and hash is the last one of the miner's chain and has
      been announced. */
  ghost predicate MinedAs(n: Net, nonce: nat, hash: string) {
    n.nodes != [] && exists h :: OnTop(n, h) && h.nonce == nonce && h.hash == hash
  }

  /** From every reachable state, whatever the mining thread is in the middle of,
      some continuation mines and announces a block of any given nonce and hash. */
  lemma CanMine(n: Net, before: seq<NetStep>, nonce: nat, hash: string)
    requires IsInit(n)
    ensures NetInv(n) && NetInv(NetRun(n, before))
    ensures exists steps :: MinedAs(NetRun(NetRun(n, before), steps), nonce, hash)
  {
    Network.InitHolds(n);
    RunKeepsInv(n, before);
    var s := NetRun(n, before);
    if s.miner.Idle? {
      var steps, s' := AnotherBlock(s, nonce, hash);
      assert MinedAs(NetRun(s, steps), nonce, hash);
    } else {
      var first, s1 := AttemptEnds(s);
      var rest, s2 := AnotherBlock(s1, nonce, hash);
      GoesOn(s, first, s1, rest, s2);
      assert MinedAs(NetRun(s, first + rest), nonce, hash);
    }
  }
}
