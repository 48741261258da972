// The event-driven component that decides when to add, broadcast, look up peers,
// start syncs and apply what they bring (src/net/chain.rs).
module ChainManager {
  import opened Interface
  import opened BlockTree
  import opened Serving
  import Sync = SyncHeaders
  import EndToEnd
  import Pool

  datatype Event =
    | IncomingNewBlockHeader(header: Header)
    | IncomingTransactions(transactions: seq<Transaction>)
    | GetBlockHeaders(request: HeadersRequest)

  // The fields of `ChainNetworkManager`. Broadcasts and answers are kept as the
  // full history of what was sent; when a broadcast completes, nothing changes.
  // The two counters record the run and are not kept by the program.
  datatype Manager = Manager(
    tables: Tables,
    pool: Pool.TxMap,
    lookup: Option<Header>,
    pending: bool,
    syncs: map<nat, Sync.Sync>,
    nextSync: nat,
    broadcasted: set<string>,
    headerBroadcasts: seq<Header>,
    txBroadcasts: seq<seq<Transaction>>,
    answers: seq<seq<Header>>,
    lookupsStarted: nat,
    syncsSucceeded: nat)

  function NewManager(tables: Tables, pool: Pool.TxMap): Manager {
    Manager(tables, pool, None, false, map[], 0, {}, [], [], [], 0, 0)
  }

  // What can happen to a manager. Each poll is some sequence of these; a step
  // that is not enabled leaves the state alone. `OtherAdd` is another holder of
  // the shared chain, such as the miner, adding a header.
  datatype Step =
    | OnEvent(event: Event)
    | LookupReady(peers: Option<seq<nat>>)
    | SyncReady(id: nat, result: Option<seq<Header>>)
    | OtherAdd(header: Header)

  function Unvalidated(m: Manager, h: Header): Manager {
    var m1 := if h.hash in m.broadcasted then m
              else m.(headerBroadcasts := m.headerBroadcasts + [h], broadcasted := m.broadcasted + {h.hash});
    if m1.lookup.None? && !m1.pending then
      m1.(pending := true, lookup := Some(h), lookupsStarted := m1.lookupsStarted + 1)
    else m1
  }

  /** What follows an add that came out as `r`; the tables are already updated. */
  function React(m: Manager, h: Header, r: Result<AddedBlockResult, Error>): Manager {
    match r
    case Ok(ExtendTip) => m.(headerBroadcasts := m.headerBroadcasts + [h])
    case Ok(AlreadyInChain) => m
    case Err(BlockHeaderNotFound) => Unvalidated(m, h)
    case Err(Invalid) => m
  }

  function OnHeader(m: Manager, h: Header): Manager
    requires m.tables.headers != map[]
  {
    var (t', r) := TryAdd(m.tables, h);
    React(m.(tables := t'), h, r)
  }

  function Handle(m: Manager, e: Event): Manager
    requires m.tables.headers != map[]
  {
    match e
    case IncomingNewBlockHeader(h) => OnHeader(m, h)
    case IncomingTransactions(txs) =>
      m.(pool := Pool.AddAll(m.pool, txs).0, txBroadcasts := m.txBroadcasts + [txs])
    case GetBlockHeaders(r) =>
      m.(answers := m.answers + [Serve(m.tables.headers, r.startBlock, r.limit)])
  }

  function StartSync(m: Manager, peer: nat, target: nat): Manager
    requires m.tables.headers != map[]
  {
    var tip := m.tables.headers[Last(m.tables.headers)].number;
    var sync := Sync.Build(peer, tip, target, Sync.REQUEST_LIMIT, Sync.MAX_CONCURRENT_LIMIT);
    m.(syncs := m.syncs[m.nextSync := sync], nextSync := m.nextSync + 1)
  }

  function StartSyncs(m: Manager, target: nat, peers: seq<nat>): (m': Manager)
    requires m.tables.headers != map[]
    ensures m' == m.(syncs := m'.syncs, nextSync := m.nextSync + |peers|)
    decreases |peers|
  {
    if peers == [] then m
    else StartSync(StartSyncs(m, target, peers[..|peers| - 1]), peers[|peers| - 1], target)
  }

  function OnLookup(m: Manager, peers: Option<seq<nat>>): Manager
    requires m.tables.headers != map[]
  {
    match m.lookup
    case None => m
    case Some(h) =>
      var m1 := m.(lookup := None);
      match peers
      case None => m1
      case Some(ps) => StartSyncs(m1, h.number, ps)
  }

  /** What the manager hears when a sync has ended with this output. */
  function ResultOf(output: Sync.Output): Option<seq<Header>> {
    match output
    case Synced(headers) => Some(headers)
    case _ => None
  }

  function OnSync(m: Manager, id: nat, result: Option<seq<Header>>): Manager
    requires m.tables.headers != map[]
  {
    if id !in m.syncs then m
    else
      var m1 := m.(syncs := m.syncs - {id});
      match result
      case None => m1
      case Some(headers) =>
        m1.(tables := EndToEnd.Apply(m.tables, headers).0, pending := false, syncsSucceeded := m.syncsSucceeded + 1)
  }

  function Next(m: Manager, step: Step): Manager
    requires m.tables.headers != map[]
  {
    match step
    case OnEvent(e) => Handle(m, e)
    case LookupReady(peers) => OnLookup(m, peers)
    case SyncReady(id, result) => OnSync(m, id, result)
    case OtherAdd(h) => m.(tables := TryAdd(m.tables, h).0)
  }

  /** Every step keeps the chain well formed and never lowers its tip. */
  lemma NextKeepsChain(m: Manager, step: Step)
    requires WellFormed(m.tables.headers)
    ensures WellFormed(Next(m, step).tables.headers)
    ensures Last(m.tables.headers) <= Last(Next(m, step).tables.headers)
  {
    match step
    case OnEvent(IncomingNewBlockHeader(h)) => TryAddTables(m.tables, h);
    case SyncReady(_, Some(headers)) => EndToEnd.ApplyKeepsWellFormed(m.tables, headers);
    case OtherAdd(h) => TryAddTables(m.tables, h);
    case _ =>
  }

  function Run(m: Manager, steps: seq<Step>): (m': Manager)
    requires WellFormed(m.tables.headers)
    ensures WellFormed(m'.tables.headers)
    ensures Last(m.tables.headers) <= Last(m'.tables.headers)
    decreases |steps|
  {
    if steps == [] then m
    else
      NextKeepsChain(m, steps[0]);
      Run(Next(m, steps[0]), steps[1..])
  }

  lemma {:induction false} RunConcat(m: Manager, a: seq<Step>, b: seq<Step>)
    requires WellFormed(m.tables.headers)
    ensures Run(m, a + b) == Run(Run(m, a), b)
    decreases |a|
  {
    if a == [] {
      assert a + b == b;
    } else {
      assert (a + b)[1..] == a[1..] + b;
      NextKeepsChain(m, a[0]);
      RunConcat(Next(m, a[0]), a[1..], b);
    }
  }

  lemma RunSnoc(m: Manager, steps: seq<Step>, step: Step)
    requires WellFormed(m.tables.headers)
    ensures Run(m, steps + [step]) == Next(Run(m, steps), step)
  {
    RunConcat(m, steps, [step]);
    var m1 := Run(m, steps);
    NextKeepsChain(m1, step);
    assert Run(m1, [step]) == Run(Next(m1, step), []);
  }

  lemma RunOne(m: Manager, step: Step)
    requires WellFormed(m.tables.headers)
    ensures Run(m, [step]) == Next(m, step)
  {
    RunSnoc(m, [], step);
    assert [] + [step] == [step];
  }

  /** A run of one finished sync that the manager has. */
  lemma RunOneSync(m: Manager, id: nat, result: Option<seq<Header>>)
    requires WellFormed(m.tables.headers) && id in m.syncs
    ensures
      var m' := Run(m, [SyncReady(id, result)]);
      && m'.syncs == m.syncs - {id}
      && (match result
          case Some(headers) => !m'.pending && m'.tables == EndToEnd.Apply(m.tables, headers).0
          case None => m'.pending == m.pending && m'.tables == m.tables)
  {
    RunOne(m, SyncReady(id, result));
  }

  /** A run of one lookup that the manager waits for. */
  lemma RunOneLookup(m: Manager, peers: Option<seq<nat>>)
    requires WellFormed(m.tables.headers) && m.lookup.Some?
    ensures
      var m' := Run(m, [LookupReady(peers)]);
      && m'.lookup == None && m'.tables == m.tables && m'.pending == m.pending
      && m'.nextSync == m.nextSync + (if peers.Some? then |peers.value| else 0)
      && (peers.None? ==> m'.syncs == m.syncs)
  {
    RunOne(m, LookupReady(peers));
  }

  function Counted(r: (Tables, nat), before: nat): (Tables, nat) {
    (r.0, before + r.1)
  }

  /** The answer is the chain's blocks from the one asked for, as many as are asked
      for and as the chain has. */
  ghost predicate Answers(hs: HeaderTable, r: HeadersRequest, headers: seq<Header>)
    requires hs != map[]
  {
    && |headers| == Min(r.limit, if r.startBlock <= Last(hs) then Last(hs) + 1 - r.startBlock else 0)
    && (forall i | 0 <= i < |headers| :: r.startBlock + i in hs && headers[i] == hs[r.startBlock + i])
  }

  lemma ServeAnswers(hs: HeaderTable, r: HeadersRequest)
    requires WellFormed(hs)
    ensures Answers(hs, r, Serve(hs, r.startBlock, r.limit))
  {
    ServeIsSlice(hs, r.startBlock, r.limit);
  }

  /** The steps are the events in their order, then the lookup, then the finished
      syncs in theirs. */
  ghost predicate InOrder(
    steps: seq<Step>, events: seq<Event>, lookup: Option<Option<seq<nat>>>,
    finished: seq<(nat, Option<seq<Header>>)>)
  {
    && |steps| == |events| + (if lookup.Some? then 1 else 0) + |finished|
    && (forall i | 0 <= i < |events| :: steps[i] == Step.OnEvent(events[i]))
    && (lookup.Some? ==> steps[|events|] == LookupReady(lookup.value))
    && (forall i | 0 <= i < |finished| ::
          steps[|steps| - |finished| + i] == SyncReady(finished[i].0, finished[i].1))
  }

  lemma PartsInOrder(
    first: seq<Step>, second: seq<Step>, third: seq<Step>,
    events: seq<Event>, lookup: Option<Option<seq<nat>>>, finished: seq<(nat, Option<seq<Header>>)>)
    requires |first| == |events| && forall i | 0 <= i < |events| :: first[i] == Step.OnEvent(events[i])
    requires second == if lookup.Some? then [LookupReady(lookup.value)] else []
    requires |third| == |finished|
    requires forall i | 0 <= i < |finished| :: third[i] == SyncReady(finished[i].0, finished[i].1)
    ensures InOrder(first + second + third, events, lookup, finished)
  {
  }

  lemma RunParts(m: Manager, first: seq<Step>, second: seq<Step>, third: seq<Step>)
    requires WellFormed(m.tables.headers)
    ensures Run(m, first + second + third) == Run(Run(Run(m, first), second), third)
  {
    RunConcat(m, first + second, third);
    RunConcat(m, first, second);
  }

  // ----- The object -----

  class ChainNetworkManager {
    const chain: Chain
    const pool: Pool.PoolTx
    var closestPeersRequest: Option<Header>
    var pendingSyncRequest: bool
    var syncRequests: map<nat, Sync.Sync>
    var nextSync: nat
    var broadcastedHeaders: set<string>
    var headerBroadcasts: seq<Header>
    var txBroadcasts: seq<seq<Transaction>>
    var answers: seq<seq<Header>>
    ghost var lookupsStarted: nat
    ghost var syncsSucceeded: nat

    ghost predicate Valid()
      reads this, chain, pool
    {
      chain.Valid() && pool.Valid()
    }

    ghost function View(): Manager
      reads this, chain, pool
    {
      Manager(chain.View(), pool.pool, closestPeersRequest, pendingSyncRequest, syncRequests, nextSync,
              broadcastedHeaders, headerBroadcasts, txBroadcasts, answers, lookupsStarted, syncsSucceeded)
    }

    constructor (chain: Chain, pool: Pool.PoolTx)
      requires chain.Valid() && pool.Valid()
      ensures Valid() && this.chain == chain && this.pool == pool
      ensures View() == NewManager(chain.View(), pool.pool)
    {
      this.chain, this.pool := chain, pool;
      closestPeersRequest, pendingSyncRequest := None, false;
      syncRequests, nextSync, broadcastedHeaders := map[], 0, {};
      headerBroadcasts, txBroadcasts, answers := [], [], [];
      lookupsStarted, syncsSucceeded := 0, 0;
    }

    /** Starts one sync per peer, from the current tip to the header. */
    method SendSyncRequests(header: Header, peers: seq<nat>)
      requires Valid()
      modifies this
      ensures Valid()
      ensures View() == StartSyncs(old(View()), header.number, peers)
    {
      var tip := chain.Tip();
      for i := 0 to |peers|
        invariant Valid()
        invariant View() == StartSyncs(old(View()), header.number, peers[..i])
      {
        assert peers[..i + 1][..i] == peers[..i];
        var sync := Sync.Build(peers[i], tip.number, header.number, Sync.REQUEST_LIMIT, Sync.MAX_CONCURRENT_LIMIT);
        syncRequests := syncRequests[nextSync := sync];
        nextSync := nextSync + 1;
      }
      assert peers[..|peers|] == peers;
    }

    method OnNewBlockHeader(header: Header)
      requires Valid()
      modifies this, chain
      ensures Valid()
      ensures View() == OnHeader(old(View()), header)
      ensures chain.View() == TryAdd(old(chain.View()), header).0 && pool.pool == old(pool.pool)
      ensures unchanged(`syncRequests, `nextSync, `txBroadcasts, `answers, `syncsSucceeded)
      ensures
        var r := TryAdd(old(chain.View()), header).1;
        if r == Err(BlockHeaderNotFound) then
          && headerBroadcasts
             == old(headerBroadcasts) + (if header.hash in old(broadcastedHeaders) then [] else [header])
          && broadcastedHeaders == old(broadcastedHeaders) + {header.hash}
          && (if old(closestPeersRequest) == None && !old(pendingSyncRequest)
              then closestPeersRequest == Some(header) && pendingSyncRequest
              else unchanged(`closestPeersRequest, `pendingSyncRequest))
        else
          && headerBroadcasts == old(headerBroadcasts) + (if r == Ok(ExtendTip) then [header] else [])
          && unchanged(`broadcastedHeaders, `closestPeersRequest, `pendingSyncRequest)
    {
      var r := chain.TryAddBlockHeader(header);
      ReactTo(header, r);
    }

    method ReactTo(header: Header, r: Result<AddedBlockResult, Error>)
      modifies this
      ensures View() == React(old(View()), header, r)
      ensures unchanged(`syncRequests, `nextSync, `txBroadcasts, `answers, `syncsSucceeded)
    {
      match r
      case Ok(ExtendTip) =>
        headerBroadcasts := headerBroadcasts + [header];
      case Ok(AlreadyInChain) =>
      case Err(BlockHeaderNotFound) =>
        if header.hash !in broadcastedHeaders {
          headerBroadcasts := headerBroadcasts + [header];
          broadcastedHeaders := broadcastedHeaders + {header.hash};
        }
        if closestPeersRequest == None && !pendingSyncRequest {
          pendingSyncRequest := true;
          closestPeersRequest := Some(header);
          lookupsStarted := lookupsStarted + 1;
        }
      case Err(Invalid) =>
    }

    method OnEvent(event: Event)
      requires Valid()
      modifies this, chain, pool
      ensures Valid()
      ensures View() == Handle(old(View()), event)
      ensures event.GetBlockHeaders? ==>
                && View() == old(View()).(answers := answers)
                && |answers| == |old(answers)| + 1 && answers[..|old(answers)|] == old(answers)
                && Answers(chain.headers, event.request, answers[|old(answers)|])
      ensures event.IncomingTransactions? ==>
                && View() == old(View()).(pool := pool.pool, txBroadcasts := txBroadcasts)
                && txBroadcasts == old(txBroadcasts) + [event.transactions]
                && Pool.HoldsBatch(old(pool.pool), event.transactions, pool.pool)
      ensures event.IncomingNewBlockHeader? ==>
                chain.View() == TryAdd(old(chain.View()), event.header).0
                && pool.pool == old(pool.pool) && txBroadcasts == old(txBroadcasts) && answers == old(answers)
    {
      match event
      case IncomingNewBlockHeader(header) =>
        OnNewBlockHeader(header);
      case IncomingTransactions(transactions) =>
        var _ := pool.AddTransactions(transactions);
        txBroadcasts := txBroadcasts + [transactions];
      case GetBlockHeaders(request) =>
        var headers := HandleGetBlockHeadersRequest(request);
        answers := answers + [headers];
    }

    /** The answer is the slice of the chain from the requested block, cut at
        the limit and at the tip. */
    method HandleGetBlockHeadersRequest(request: HeadersRequest) returns (headers: seq<Header>)
      requires Valid()
      ensures headers == Serve(chain.headers, request.startBlock, request.limit)
      ensures Answers(chain.headers, request, headers)
    {
      ghost var hs := chain.headers;
      ServeAnswers(hs, request);
      headers := [];
      var number := request.startBlock;
      for i := 0 to request.limit
        invariant headers + Serve(hs, number, request.limit - i) == Serve(hs, request.startBlock, request.limit)
      {
        var r := chain.GetHeaderByBlockNumber(number);
        match r
        case Ok(header) =>
          number := header.number + 1;
          headers := headers + [header];
        case Err(_) =>
          break;
      }
    }

    /** Applies downloaded headers up to the first refused one. */
    method ApplyHeaders(headers: seq<Header>) returns (count: nat)
      requires Valid()
      modifies chain
      ensures Valid()
      ensures (chain.View(), count) == EndToEnd.Apply(old(chain.View()), headers)
      ensures EndToEnd.StopsAtFirstRefusal(old(chain.View()), headers, chain.View(), count)
    {
      count := ApplyLoop(headers);
      EndToEnd.ApplyStopsAtFirstRefusal(old(chain.View()), headers);
    }

    method ApplyLoop(headers: seq<Header>) returns (count: nat)
      requires Valid()
      modifies chain
      ensures Valid()
      ensures (chain.View(), count) == EndToEnd.Apply(old(chain.View()), headers)
    {
      count := 0;
      ghost var all := EndToEnd.Apply(chain.View(), headers);
      for i := 0 to |headers|
        invariant Valid()
        invariant all == Counted(EndToEnd.Apply(chain.View(), headers[i..]), count)
      {
        EndToEnd.ApplyUnfolds(chain.View(), headers, i);
        var r := chain.TryAddBlockHeader(headers[i]);
        if r.Err? {
          break;
        }
        count := count + 1;
      }
    }

    method OnSyncReady(id: nat, result: Option<seq<Header>>)
      requires Valid()
      modifies this, chain
      ensures Valid()
      ensures View() == OnSync(old(View()), id, result)
      ensures syncRequests == old(syncRequests) - {id} && pool.pool == old(pool.pool)
      ensures id in old(syncRequests) && result.Some? ==>
                !pendingSyncRequest && chain.View() == EndToEnd.Apply(old(chain.View()), result.value).0
      ensures id !in old(syncRequests) || result.None? ==>
                pendingSyncRequest == old(pendingSyncRequest) && chain.View() == old(chain.View())
      ensures unchanged(`closestPeersRequest, `nextSync, `broadcastedHeaders, `headerBroadcasts)
      ensures unchanged(`txBroadcasts, `answers, `lookupsStarted)
    {
      if id !in syncRequests {
        return;
      }
      syncRequests := syncRequests - {id};
      match result
      case Some(headers) =>
        var _ := ApplyHeaders(headers);
        pendingSyncRequest := false;
        syncsSucceeded := syncsSucceeded + 1;
      case None =>
    }

    /** One poll, for every choice of what is ready. Everything that is ready is
        handled once: the events in their order, then the peer lookup, then the
        finished syncs in theirs. A lookup or a finished sync that the manager does
        not have does nothing. */
    method Poll(events: seq<Event>, lookup: Option<Option<seq<nat>>>, finished: seq<(nat, Option<seq<Header>>)>)
      returns (ghost steps: seq<Step>)
      requires Valid()
      modifies this, chain, pool
      ensures Valid()
      ensures View() == Run(old(View()), steps)
      ensures |steps| == |events| + (if lookup.Some? then 1 else 0) + |finished|
      ensures forall i | 0 <= i < |events| :: steps[i] == Step.OnEvent(events[i])
      ensures lookup.Some? ==> steps[|events|] == LookupReady(lookup.value)
      ensures forall i | 0 <= i < |finished| ::
                steps[|steps| - |finished| + i] == SyncReady(finished[i].0, finished[i].1)
      ensures events == [] && lookup == None && |finished| == 1 && finished[0].0 in old(syncRequests) ==>
                && syncRequests == old(syncRequests) - {finished[0].0}
                && (match finished[0].1
                    case Some(headers) =>
                      !pendingSyncRequest && chain.View() == EndToEnd.Apply(old(chain.View()), headers).0
                    case None =>
                      pendingSyncRequest == old(pendingSyncRequest) && chain.View() == old(chain.View()))
      ensures events == [] && lookup.Some? && finished == [] && old(closestPeersRequest).Some? ==>
                && closestPeersRequest == None && chain.View() == old(chain.View())
                && pendingSyncRequest == old(pendingSyncRequest)
                && nextSync == old(nextSync) + (if lookup.value.Some? then |lookup.value.value| else 0)
                && (lookup.value.None? ==> syncRequests == old(syncRequests))
    {
      steps := PollAll(events, lookup, finished);
      if events == [] && lookup == None && |finished| == 1 && finished[0].0 in old(syncRequests) {
        assert steps == [SyncReady(finished[0].0, finished[0].1)];
        RunOneSync(old(View()), finished[0].0, finished[0].1);
      }
      if events == [] && lookup.Some? && finished == [] && old(closestPeersRequest).Some? {
        assert steps == [LookupReady(lookup.value)];
        RunOneLookup(old(View()), lookup.value);
      }
    }

    method PollAll(events: seq<Event>, lookup: Option<Option<seq<nat>>>, finished: seq<(nat, Option<seq<Header>>)>)
      returns (ghost steps: seq<Step>)
      requires Valid()
      modifies this, chain, pool
      ensures Valid()
      ensures View() == Run(old(View()), steps) && InOrder(steps, events, lookup, finished)
    {
      ghost var first := PollEvents(events);
      ghost var second := PollLookup(lookup);
      ghost var third := PollSyncs(finished);
      RunParts(old(View()), first, second, third);
      PartsInOrder(first, second, third, events, lookup, finished);
      steps := first + second + third;
    }

    method PollEvents(events: seq<Event>) returns (ghost steps: seq<Step>)
      requires Valid()
      modifies this, chain, pool
      ensures Valid()
      ensures View() == Run(old(View()), steps)
      ensures |steps| == |events| && forall i | 0 <= i < |events| :: steps[i] == Step.OnEvent(events[i])
    {
      steps := [];
      for i := 0 to |events|
        invariant Valid()
        invariant View() == Run(old(View()), steps)
        invariant |steps| == i && forall j | 0 <= j < i :: steps[j] == Step.OnEvent(events[j])
      {
        RunSnoc(old(View()), steps, Step.OnEvent(events[i]));
        OnEvent(events[i]);
        steps := steps + [Step.OnEvent(events[i])];
      }
    }

    /** `lookup` is None while the peer lookup is not ready. */
    method PollLookup(lookup: Option<Option<seq<nat>>>) returns (ghost steps: seq<Step>)
      requires Valid()
      modifies this
      ensures Valid()
      ensures View() == Run(old(View()), steps)
      ensures steps == if lookup.Some? then [LookupReady(lookup.value)] else []
      ensures old(closestPeersRequest).None? || lookup.None? ==> View() == old(View())
      ensures old(closestPeersRequest).Some? && lookup.Some? ==>
                View() == OnLookup(old(View()), lookup.value) && closestPeersRequest == None
      ensures unchanged(`pendingSyncRequest, `broadcastedHeaders, `headerBroadcasts, `txBroadcasts, `answers)
    {
      steps := [];
      if lookup.Some? {
        RunSnoc(View(), [], LookupReady(lookup.value));
        steps := [] + [LookupReady(lookup.value)];
      }
      if closestPeersRequest.Some? && lookup.Some? {
        var header := closestPeersRequest.value;
        closestPeersRequest := None;
        if lookup.value.Some? {
          SendSyncRequests(header, lookup.value.value);
        }
      }
    }

    method PollSyncs(finished: seq<(nat, Option<seq<Header>>)>) returns (ghost steps: seq<Step>)
      requires Valid()
      modifies this, chain
      ensures Valid()
      ensures View() == Run(old(View()), steps)
      ensures |steps| == |finished|
      ensures forall i | 0 <= i < |finished| :: steps[i] == SyncReady(finished[i].0, finished[i].1)
    {
      steps := [];
      for i := 0 to |finished|
        invariant Valid()
        invariant View() == Run(old(View()), steps)
        invariant |steps| == i && forall j | 0 <= j < i :: steps[j] == SyncReady(finished[j].0, finished[j].1)
      {
        RunSnoc(old(View()), steps, SyncReady(finished[i].0, finished[i].1));
        OnSyncReady(finished[i].0, finished[i].1);
        steps := steps + [SyncReady(finished[i].0, finished[i].1)];
      }
    }
  }
}
