// Many nodes, one of them mining, over a network that may drop, duplicate and
// reorder everything. Whatever was once sent stays deliverable: delivering it
// never is dropping, twice is duplicating, late is reordering.
module Network {
  import opened Interface
  import opened BlockTree
  import opened ChainManager
  import Serving
  import EndToEnd
  import Pool
  import Sync = SyncHeaders
  import Shared = SharedChain

  datatype Request = Request(client: nat, sync: nat, id: nat, server: nat, body: HeadersRequest)

  datatype Response = Response(client: nat, sync: nat, id: nat, headers: seq<Header>)

  // Node 0 mines: `miner` is how far its mining thread is inside an attempt and
  // `attempts` how the earlier ones ended. Between any two of its steps the
  // manager of node 0, and everybody else, may act.
  datatype Net = Net(
    nodes: seq<Manager>,
    miner: Shared.Thread,
    attempts: seq<Shared.Finished>,
    gossip: set<Header>,
    requests: set<Request>,
    responses: set<Response>)

  datatype NetStep =
    | MineBegin(nonce: nat, hash: string)
    | MineAdvance
    | DeliverGossip(node: nat, header: Header)
    | RacedGossip(header: Header)
    | DeliverTransactions(node: nat, transactions: seq<Transaction>)
    | PeersFound(node: nat, peers: Option<seq<nat>>)
    | IssueRequest(node: nat, sync: nat)
    | ServeRequest(request: Request)
    | DeliverResponse(response: Response)
    | FailRequest(node: nat, sync: nat, id: nat)
    | FinishSync(node: nat, sync: nat)
    | CollectSync(node: nat, sync: nat)

  // ----- One step -----

  function MinerState(n: Net): Shared.State
    requires n.nodes != []
  {
    Shared.State(n.nodes[0].tables, [n.miner], n.attempts)
  }

  /** Headers the mining thread has announced. */
  function Announced(attempts: seq<Shared.Finished>): set<Header> {
    set i | 0 <= i < |attempts| && Shared.MiningResult(attempts[i]).Mined? :: attempts[i].job.header
  }

  function OnMine(n: Net, step: Shared.Step): Net
    requires n.nodes != [] && n.nodes[0].tables.headers != map[]
  {
    var s := Shared.Next(MinerState(n), step);
    n.(nodes := n.nodes[0 := n.nodes[0].(tables := s.tables)],
       miner := s.threads[0],
       attempts := s.log,
       gossip := n.gossip + Announced(s.log))
  }

  /** Node `i` moves to `m`; what it has broadcast becomes gossip. */
  function PutNode(n: Net, i: nat, m: Manager): Net
    requires i < |n.nodes|
  {
    n.(nodes := n.nodes[i := m], gossip := n.gossip + set h | h in m.headerBroadcasts)
  }

  function OnNode(n: Net, i: nat, step: Step): Net
    requires i < |n.nodes| && n.nodes[i].tables.headers != map[]
  {
    PutNode(n, i, Next(n.nodes[i], step))
  }

  /** Node 0 handles gossip while its mining thread writes between the two tip
      reads of the manager's own add: the add is taken for one that extended the
      tip (SharedChain.ExtendTipIff says exactly when that happens). Apart from
      this report, interleaving the manager's add with mining makes no difference:
      by SharedChain.MiningIsSafe it is never refused and rewrites what is stored. */
  function OnRace(n: Net, h: Header): Net
    requires n.nodes != []
  {
    var m := n.nodes[0];
    PutNode(n, 0, React(m.(tables := Insert(m.tables, h)), h, Ok(ExtendTip)))
  }

  ghost predicate HasSync(n: Net, i: nat, sync: nat) {
    i < |n.nodes| && sync in n.nodes[i].syncs
  }

  ghost function OnSyncStep(n: Net, i: nat, sync: nat, step: Sync.Step): Net
    requires HasSync(n, i, sync)
  {
    var m := n.nodes[i];
    n.(nodes := n.nodes[i := m.(syncs := m.syncs[sync := Sync.Next(m.syncs[sync], step)])])
  }

  /** All requests a sync has issued so far, addressed to its peer. */
  function Sent(i: nat, sync: nat, s: Sync.Sync): set<Request> {
    set id | 0 <= id < |s.issued| :: Request(i, sync, id, s.peer, s.issued[id])
  }

  ghost function NetNext(n: Net, step: NetStep): (n': Net)
    requires n.nodes != [] && forall i | 0 <= i < |n.nodes| :: n.nodes[i].tables.headers != map[]
    ensures |n'.nodes| == |n.nodes|
  {
    match step
    case MineBegin(nonce, hash) => OnMine(n, Shared.BeginMining(0, nonce, hash))
    case MineAdvance => OnMine(n, Shared.Advance(0))
    case DeliverGossip(i, h) =>
      if i < |n.nodes| && h in n.gossip then OnNode(n, i, OnEvent(IncomingNewBlockHeader(h))) else n
    case RacedGossip(h) =>
      if h in n.gossip then OnRace(n, h) else n
    case DeliverTransactions(i, txs) =>
      if i < |n.nodes| then OnNode(n, i, OnEvent(IncomingTransactions(txs))) else n
    case PeersFound(i, peers) =>
      if i < |n.nodes| then OnNode(n, i, LookupReady(peers)) else n
    case IssueRequest(i, sync) =>
      if HasSync(n, i, sync) then
        var n' := OnSyncStep(n, i, sync, Sync.Issue);
        n'.(requests := n.requests + Sent(i, sync, n'.nodes[i].syncs[sync]))
      else n
    case ServeRequest(r) =>
      if r in n.requests && r.server < |n.nodes| then
        var n' := OnNode(n, r.server, OnEvent(GetBlockHeaders(r.body)));
        var answers := n'.nodes[r.server].answers;
        n'.(responses := n.responses + {Response(r.client, r.sync, r.id, answers[|answers| - 1])})
      else n
    case DeliverResponse(r) =>
      if r in n.responses && HasSync(n, r.client, r.sync) then
        OnSyncStep(n, r.client, r.sync, Sync.Receive(r.id, Sync.Delivered(r.headers)))
      else n
    case FailRequest(i, sync, id) =>
      if HasSync(n, i, sync) then OnSyncStep(n, i, sync, Sync.Receive(id, Sync.RequestFailed)) else n
    case FinishSync(i, sync) =>
      if HasSync(n, i, sync) then OnSyncStep(n, i, sync, Sync.Finish) else n
    case CollectSync(i, sync) =>
      if HasSync(n, i, sync) && !n.nodes[i].syncs[sync].output.Running? then
        OnNode(n, i, SyncReady(sync, ResultOf(n.nodes[i].syncs[sync].output)))
      else n
  }

  /** What the deliveries that safety and progress do not depend on come to. */
  lemma OtherDeliveries(n: Net, step: NetStep)
    requires n.nodes != [] && forall i | 0 <= i < |n.nodes| :: n.nodes[i].tables.headers != map[]
    ensures
      var n' := NetNext(n, step);
      match step
      case DeliverTransactions(i, txs) =>
        i < |n.nodes| ==>
          && n'.nodes[i].txBroadcasts == n.nodes[i].txBroadcasts + [txs]
          && Pool.HoldsBatch(n.nodes[i].pool, txs, n'.nodes[i].pool)
      case FailRequest(i, sync, id) =>
        HasSync(n, i, sync) && n.nodes[i].syncs[sync].output.Running? && id in n.nodes[i].syncs[sync].inFlight ==>
          HasSync(n', i, sync) && n'.nodes[i].syncs[sync].output == Sync.RequestError
      case RacedGossip(h) =>
        h in n.gossip ==>
          && n'.nodes[0].tables == Insert(n.nodes[0].tables, h)
          && n'.nodes[0].headerBroadcasts == n.nodes[0].headerBroadcasts + [h]
      case _ => true
  {
    if step.DeliverTransactions? && step.node < |n.nodes| {
      Pool.AddAllMeaning(n.nodes[step.node].pool, step.transactions);
    }
  }

  // ----- What every header in the system is -----

  ghost predicate Belongs(chain: HeaderTable, h: Header) {
    h.number in chain && chain[h.number] == h
  }

  ghost predicate AllBelong(chain: HeaderTable, hs: seq<Header>) {
    forall i | 0 <= i < |hs| :: Belongs(chain, hs[i])
  }

  /** `hs` holds no block that `chain` does not hold under the same number. */
  ghost predicate PartOf(hs: HeaderTable, chain: HeaderTable) {
    forall k | k in hs :: k in chain && chain[k] == hs[k]
  }

  ghost predicate SyncOk(chain: HeaderTable, s: Sync.Sync) {
    && AllBelong(chain, s.queued)
    && (s.output.Synced? ==> AllBelong(chain, s.output.headers))
  }

  ghost predicate NodeOk(chain: HeaderTable, m: Manager) {
    && WellFormed(m.tables.headers)
    && PartOf(m.tables.headers, chain)
    && (m.lookup.Some? ==> Belongs(chain, m.lookup.value))
    && (forall id | id in m.syncs :: SyncOk(chain, m.syncs[id]))
    && AllBelong(chain, m.headerBroadcasts)
  }

  ghost predicate WireOk(n: Net)
    requires n.nodes != []
  {
    var chain := n.nodes[0].tables.headers;
    && (forall h | h in n.gossip :: Belongs(chain, h))
    && Announced(n.attempts) <= n.gossip
    && (forall r | r in n.responses :: AllBelong(chain, r.headers))
  }

  ghost predicate NetInv(n: Net) {
    && n.nodes != []
    && Shared.MiningInv(0, MinerState(n))
    && (forall i | 0 <= i < |n.nodes| :: NodeOk(n.nodes[0].tables.headers, n.nodes[i]))
    && WireOk(n)
  }

  ghost predicate IsInit(n: Net) {
    && n.nodes != []
    && (forall i | 0 <= i < |n.nodes| :: n.nodes[i] == NewManager(InitialTables(), map[]))
    && n.miner == Shared.Idle && n.attempts == []
    && n.gossip == {} && n.requests == {} && n.responses == {}
  }

  // ----- Manager steps fed with blocks of the chain -----

  lemma AddBelonging(chain: HeaderTable, t: Tables, h: Header)
    requires WellFormed(t.headers) && PartOf(t.headers, chain) && Belongs(chain, h)
    ensures
      var hs' := TryAdd(t, h).0.headers;
      && WellFormed(hs') && PartOf(hs', chain)
      && (t.headers == chain ==> hs' == chain)
  {
    TryAddTables(t, h);
  }

  lemma {:induction false} ApplyBelonging(chain: HeaderTable, t: Tables, headers: seq<Header>)
    requires WellFormed(t.headers) && PartOf(t.headers, chain) && AllBelong(chain, headers)
    ensures
      var hs' := EndToEnd.Apply(t, headers).0.headers;
      && WellFormed(hs') && PartOf(hs', chain)
      && (t.headers == chain ==> hs' == chain)
    decreases |headers|
  {
    if headers == [] {
    } else {
      assert Belongs(chain, headers[0]);
      AddBelonging(chain, t, headers[0]);
      ApplyBelonging(chain, TryAdd(t, headers[0]).0, headers[1..]);
    }
  }

  /** The step is fed only with blocks of the chain. */
  ghost predicate FedFrom(chain: HeaderTable, step: Step) {
    match step
    case OnEvent(IncomingNewBlockHeader(h)) => Belongs(chain, h)
    case SyncReady(_, Some(headers)) => AllBelong(chain, headers)
    case OtherAdd(h) => Belongs(chain, h)
    case _ => true
  }

  lemma HeaderKeepsNodeOk(chain: HeaderTable, m: Manager, h: Header)
    requires NodeOk(chain, m) && Belongs(chain, h)
    ensures NodeOk(chain, OnHeader(m, h))
    ensures m.tables.headers == chain ==> OnHeader(m, h).tables.headers == chain
  {
    var (t', r) := TryAdd(m.tables, h);
    AddBelonging(chain, m.tables, h);
    ReactKeepsNodeOk(chain, m, t', h, r);
  }

  lemma ReactKeepsNodeOk(chain: HeaderTable, m: Manager, t': Tables, h: Header, r: Result<AddedBlockResult, Error>)
    requires NodeOk(chain, m) && Belongs(chain, h)
    requires WellFormed(t'.headers) && PartOf(t'.headers, chain)
    ensures NodeOk(chain, React(m.(tables := t'), h, r))
    ensures React(m.(tables := t'), h, r).tables == t'
  {
    var m1 := m.(tables := t');
    match r
    case Ok(ExtendTip) => BroadcastKeepsNodeOk(chain, m1, h, m1.broadcasted);
    case Ok(AlreadyInChain) =>
    case Err(BlockHeaderNotFound) => BroadcastKeepsNodeOk(chain, m1, h, m1.broadcasted + {h.hash});
    case Err(Invalid) =>
  }

  lemma BroadcastKeepsNodeOk(chain: HeaderTable, m: Manager, h: Header, broadcasted: set<string>)
    requires NodeOk(chain, m) && Belongs(chain, h)
    ensures NodeOk(chain, m.(headerBroadcasts := m.headerBroadcasts + [h], broadcasted := broadcasted))
  {
  }

  lemma {:induction false} StartSyncsKeepsNodeOk(chain: HeaderTable, m: Manager, target: nat, peers: seq<nat>)
    requires NodeOk(chain, m)
    ensures NodeOk(chain, StartSyncs(m, target, peers))
    decreases |peers|
  {
    if peers == [] {
    } else {
      StartSyncsKeepsNodeOk(chain, m, target, peers[..|peers| - 1]);
    }
  }

  lemma StepKeepsNodeOk(chain: HeaderTable, m: Manager, step: Step)
    requires NodeOk(chain, m) && FedFrom(chain, step)
    ensures NodeOk(chain, Next(m, step))
    ensures m.tables.headers == chain ==> Next(m, step).tables.headers == chain
  {
    match step
    case OnEvent(IncomingNewBlockHeader(h)) => HeaderKeepsNodeOk(chain, m, h);
    case OnEvent(_) =>
    case LookupReady(peers) =>
      if m.lookup.Some? && peers.Some? {
        StartSyncsKeepsNodeOk(chain, m.(lookup := None), m.lookup.value.number, peers.value);
      }
    case SyncReady(id, result) =>
      if result.Some? {
        ApplyBelonging(chain, m.tables, result.value);
      }
    case OtherAdd(h) => AddBelonging(chain, m.tables, h);
  }

  // ----- Network steps -----

  lemma PutNodeKeepsInv(n: Net, i: nat, m: Manager)
    requires NetInv(n) && i < |n.nodes| && NodeOk(n.nodes[0].tables.headers, m)
    requires i == 0 ==> m.tables.headers == n.nodes[0].tables.headers
    ensures NetInv(PutNode(n, i, m))
    ensures PutNode(n, i, m).nodes[0].tables.headers == n.nodes[0].tables.headers
  {
    var chain := n.nodes[0].tables.headers;
    var n' := PutNode(n, i, m);
    forall h | h in n'.gossip
      ensures Belongs(chain, h)
    {
      if h !in n.gossip {
        var j :| 0 <= j < |m.headerBroadcasts| && m.headerBroadcasts[j] == h;
      }
    }
    SameChainKeepsMining(MinerState(n), MinerState(n'));
  }

  lemma NodeStepKeepsInv(n: Net, i: nat, step: Step)
    requires NetInv(n) && i < |n.nodes| && FedFrom(n.nodes[0].tables.headers, step)
    ensures NetInv(OnNode(n, i, step))
    ensures OnNode(n, i, step).nodes[0].tables.headers == n.nodes[0].tables.headers
  {
    StepKeepsNodeOk(n.nodes[0].tables.headers, n.nodes[i], step);
    PutNodeKeepsInv(n, i, Next(n.nodes[i], step));
  }

  lemma RaceKeepsInv(n: Net, h: Header)
    requires NetInv(n) && h in n.gossip
    ensures NetInv(OnRace(n, h))
  {
    var m := n.nodes[0];
    var t' := Insert(m.tables, h);
    assert t'.headers == m.tables.headers;
    ReactKeepsNodeOk(m.tables.headers, m, t', h, Ok(ExtendTip));
    PutNodeKeepsInv(n, 0, React(m.(tables := t'), h, Ok(ExtendTip)));
  }

  /** What the mining thread relies on is the header table only. */
  lemma SameChainKeepsMining(s: Shared.State, s': Shared.State)
    requires Shared.MiningInv(0, s)
    requires s'.tables.headers == s.tables.headers && s'.threads == s.threads && s'.log == s.log
    ensures Shared.MiningInv(0, s')
  {
  }

  lemma SyncNextKeepsOk(chain: HeaderTable, s: Sync.Sync, step: Sync.Step)
    requires SyncOk(chain, s)
    requires step.Receive? && step.reply.Delivered? ==> AllBelong(chain, step.reply.headers)
    ensures SyncOk(chain, Sync.Next(s, step))
  {
  }

  lemma SyncStepKeepsInv(n: Net, i: nat, sync: nat, step: Sync.Step)
    requires NetInv(n) && HasSync(n, i, sync)
    requires step.Receive? && step.reply.Delivered? ==> AllBelong(n.nodes[0].tables.headers, step.reply.headers)
    ensures NetInv(OnSyncStep(n, i, sync, step))
  {
    var n' := OnSyncStep(n, i, sync, step);
    SyncNextKeepsOk(n.nodes[0].tables.headers, n.nodes[i].syncs[sync], step);
    SameChainKeepsMining(MinerState(n), MinerState(n'));
  }

  lemma LongerChainKeepsNodeOk(chain: HeaderTable, longer: HeaderTable, m: Manager)
    requires NodeOk(chain, m) && PartOf(chain, longer)
    ensures NodeOk(longer, m)
  {
  }

  /** Mining steps change the miner's chain only by adding a block on top. */
  lemma MineStepGrowsChain(n: Net, step: Shared.Step)
    requires NetInv(n) && (step == Shared.Advance(0) || (step.BeginMining? && step.thread == 0))
    ensures
      var s' := Shared.Next(MinerState(n), step);
      && Shared.MiningInv(0, s')
      && |s'.threads| == 1
      && PartOf(n.nodes[0].tables.headers, s'.tables.headers)
  {
    var s := MinerState(n);
    Shared.MinerStepKeepsInv(0, s, step);
    if step.Advance? && s.threads[0].TipRead? {
      Shared.AppendToLinked(s.tables, s.threads[0].job.header);
    }
  }

  /** A mined and announced block is in the miner's chain. */
  lemma MineStepAnnouncesOwnBlock(n: Net, step: Shared.Step, h: Header)
    requires NetInv(n) && (step == Shared.Advance(0) || (step.BeginMining? && step.thread == 0))
    requires h in Announced(Shared.Next(MinerState(n), step).log)
    ensures h in Announced(n.attempts) || Belongs(n.nodes[0].tables.headers, h)
  {
    var s := MinerState(n);
    var s' := Shared.Next(s, step);
    var i :| 0 <= i < |s'.log| && Shared.MiningResult(s'.log[i]).Mined? && s'.log[i].job.header == h;
    if i < |s.log| {
      assert s'.log[i] == s.log[i];
      assert h in Announced(n.attempts);
    }
  }

  lemma MineKeepsInv(n: Net, step: Shared.Step)
    requires NetInv(n)
    requires step == Shared.Advance(0) || (step.BeginMining? && step.thread == 0)
    ensures NetInv(OnMine(n, step))
  {
    var chain := n.nodes[0].tables.headers;
    var n' := OnMine(n, step);
    var s' := Shared.Next(MinerState(n), step);
    MineStepGrowsChain(n, step);
    assert MinerState(n') == s';
    var longer := s'.tables.headers;
    forall i | 0 <= i < |n'.nodes|
      ensures NodeOk(longer, n'.nodes[i])
    {
      LongerChainKeepsNodeOk(chain, longer, n.nodes[i]);
    }
    forall h | h in n'.gossip
      ensures Belongs(longer, h)
    {
      if h !in n.gossip {
        MineStepAnnouncesOwnBlock(n, step, h);
      }
      assert Belongs(chain, h);
    }
  }

  lemma ServeKeepsInv(n: Net, r: Request)
    requires NetInv(n) && r in n.requests && r.server < |n.nodes|
    ensures NetInv(NetNext(n, ServeRequest(r)))
  {
    var chain := n.nodes[0].tables.headers;
    var hs := n.nodes[r.server].tables.headers;
    NodeStepKeepsInv(n, r.server, OnEvent(GetBlockHeaders(r.body)));
    Serving.ServeIsSlice(hs, r.body.startBlock, r.body.limit);
    assert AllBelong(chain, Serving.Serve(hs, r.body.startBlock, r.body.limit));
    SameChainKeepsMining(MinerState(n), MinerState(NetNext(n, ServeRequest(r))));
  }

  lemma EventStepKeepsInv(n: Net, step: NetStep)
    requires NetInv(n)
    requires step.DeliverGossip? || step.RacedGossip? || step.DeliverTransactions? || step.PeersFound?
    ensures NetInv(NetNext(n, step))
  {
    match step
    case DeliverGossip(i, h) =>
      if i < |n.nodes| && h in n.gossip {
        NodeStepKeepsInv(n, i, OnEvent(IncomingNewBlockHeader(h)));
      }
    case RacedGossip(h) =>
      if h in n.gossip {
        RaceKeepsInv(n, h);
      }
    case DeliverTransactions(i, txs) =>
      if i < |n.nodes| {
        NodeStepKeepsInv(n, i, OnEvent(IncomingTransactions(txs)));
      }
    case PeersFound(i, peers) =>
      if i < |n.nodes| {
        NodeStepKeepsInv(n, i, LookupReady(peers));
      }
  }

  lemma IssueKeepsInv(n: Net, i: nat, sync: nat)
    requires NetInv(n) && HasSync(n, i, sync)
    ensures NetInv(NetNext(n, IssueRequest(i, sync)))
  {
    SyncStepKeepsInv(n, i, sync, Sync.Issue);
    var n1 := OnSyncStep(n, i, sync, Sync.Issue);
    var n' := NetNext(n, IssueRequest(i, sync));
    assert n' == n1.(requests := n'.requests);
    SameChainKeepsMining(MinerState(n1), MinerState(n'));
  }

  lemma DownloadStepKeepsInv(n: Net, step: NetStep)
    requires NetInv(n)
    requires step.DeliverResponse? || step.FailRequest? || step.FinishSync?
    ensures NetInv(NetNext(n, step))
  {
    match step
    case DeliverResponse(r) =>
      if r in n.responses && HasSync(n, r.client, r.sync) {
        SyncStepKeepsInv(n, r.client, r.sync, Sync.Receive(r.id, Sync.Delivered(r.headers)));
      }
    case FailRequest(i, sync, id) =>
      if HasSync(n, i, sync) {
        SyncStepKeepsInv(n, i, sync, Sync.Receive(id, Sync.RequestFailed));
      }
    case FinishSync(i, sync) =>
      if HasSync(n, i, sync) {
        SyncStepKeepsInv(n, i, sync, Sync.Finish);
      }
  }

  lemma NetNextKeepsInv(n: Net, step: NetStep)
    requires NetInv(n)
    ensures NetInv(NetNext(n, step))
  {
    match step
    case MineBegin(nonce, hash) => MineKeepsInv(n, Shared.BeginMining(0, nonce, hash));
    case MineAdvance => MineKeepsInv(n, Shared.Advance(0));
    case DeliverGossip(_, _) => EventStepKeepsInv(n, step);
    case RacedGossip(_) => EventStepKeepsInv(n, step);
    case DeliverTransactions(_, _) => EventStepKeepsInv(n, step);
    case PeersFound(_, _) => EventStepKeepsInv(n, step);
    case IssueRequest(i, sync) =>
      if HasSync(n, i, sync) {
        IssueKeepsInv(n, i, sync);
      }
    case ServeRequest(r) =>
      if r in n.requests && r.server < |n.nodes| {
        ServeKeepsInv(n, r);
      }
    case DeliverResponse(_) => DownloadStepKeepsInv(n, step);
    case FailRequest(_, _, _) => DownloadStepKeepsInv(n, step);
    case FinishSync(_, _) => DownloadStepKeepsInv(n, step);
    case CollectSync(i, sync) =>
      if HasSync(n, i, sync) && !n.nodes[i].syncs[sync].output.Running? {
        CollectKeepsInv(n, i, sync);
      }
  }

  lemma CollectKeepsInv(n: Net, i: nat, sync: nat)
    requires NetInv(n) && HasSync(n, i, sync)
    ensures NetInv(OnNode(n, i, SyncReady(sync, ResultOf(n.nodes[i].syncs[sync].output))))
  {
    assert SyncOk(n.nodes[0].tables.headers, n.nodes[i].syncs[sync]);
    NodeStepKeepsInv(n, i, SyncReady(sync, ResultOf(n.nodes[i].syncs[sync].output)));
  }

  // ----- Every reachable state -----

  ghost function NetRun(n: Net, steps: seq<NetStep>): Net
    requires NetInv(n)
    decreases |steps|
  {
    if steps == [] then n
    else
      NetNextKeepsInv(n, steps[0]);
      NetRun(NetNext(n, steps[0]), steps[1..])
  }

  lemma InitHolds(n: Net)
    requires IsInit(n)
    ensures NetInv(n)
  {
    assert MinerState(n) == Shared.State(InitialTables(), [Shared.Idle], []);
  }

  lemma {:induction false} RunKeepsInv(n: Net, steps: seq<NetStep>)
    requires NetInv(n)
    ensures NetInv(NetRun(n, steps)) && |NetRun(n, steps).nodes| == |n.nodes|
    decreases |steps|
  {
    if steps == [] {
    } else {
      NetNextKeepsInv(n, steps[0]);
      RunKeepsInv(NetNext(n, steps[0]), steps[1..]);
    }
  }

  /** The blocks of `hs` are the first blocks of `chain`. */
  ghost predicate IsPrefix(hs: HeaderTable, chain: HeaderTable) {
    && WellFormed(hs) && WellFormed(chain)
    && Last(hs) <= Last(chain)
    && (forall k: nat | k <= Last(hs) :: k in hs && k in chain && hs[k] == chain[k])
  }

  /** Network safety. In every state reachable with any number of nodes, one of
      them mining, and any loss, duplication and reordering: the miner's chain is
      linked, every node holds a prefix of it, everything in flight, queued or
      about to be applied belongs to it, and every mining attempt succeeded. */
  lemma NetworkSafety(n: Net, steps: seq<NetStep>)
    requires IsInit(n)
    ensures NetInv(n)
    ensures
      var s := NetRun(n, steps);
      && |s.nodes| == |n.nodes|
      && Linked(s.nodes[0].tables.headers)
      && (forall i | 0 <= i < |s.nodes| :: IsPrefix(s.nodes[i].tables.headers, s.nodes[0].tables.headers))
      && (forall h | h in s.gossip :: Belongs(s.nodes[0].tables.headers, h))
      && (forall r | r in s.responses :: AllBelong(s.nodes[0].tables.headers, r.headers))
      && (forall i | 0 <= i < |s.nodes| :: NodeOk(s.nodes[0].tables.headers, s.nodes[i]))
      && (forall j | 0 <= j < |s.attempts| && s.attempts[j].job.mining ::
            Shared.MiningResult(s.attempts[j]) == Mined(s.attempts[j].job.header))
  {
    InitHolds(n);
    RunKeepsInv(n, steps);
    var s := NetRun(n, steps);
    forall i | 0 <= i < |s.nodes|
      ensures IsPrefix(s.nodes[i].tables.headers, s.nodes[0].tables.headers)
    {
      assert NodeOk(s.nodes[0].tables.headers, s.nodes[i]);
    }
    forall j | 0 <= j < |s.attempts| && s.attempts[j].job.mining
      ensures Shared.MiningResult(s.attempts[j]) == Mined(s.attempts[j].job.header)
    {
      assert Shared.MinedOk(MinerState(s).log[j]);
    }
  }

  /** So any two nodes agree wherever both have a block. */
  lemma NodesAgree(n: Net, steps: seq<NetStep>, i: nat, j: nat, k: nat)
    requires IsInit(n) && i < |n.nodes| && j < |n.nodes|
    ensures NetInv(n) && |NetRun(n, steps).nodes| == |n.nodes|
    ensures
      var a := NetRun(n, steps).nodes[i].tables.headers;
      var b := NetRun(n, steps).nodes[j].tables.headers;
      k in a && k in b ==> a[k] == b[k]
  {
    NetworkSafety(n, steps);
    var s := NetRun(n, steps);
    assert IsPrefix(s.nodes[i].tables.headers, s.nodes[0].tables.headers);
    assert IsPrefix(s.nodes[j].tables.headers, s.nodes[0].tables.headers);
  }
}
