// A node behind the miner can catch up by the route meant for it: gossip of a far
// block, a peer lookup, requests, answers, and the collected sync
// (src/net/chain.rs:131-325, src/tasks/sync_header.rs:153-208).
module DownloadRoute {
  import opened Interface
  import opened BlockTree
  import opened ChainManager
  import opened Network
  import Convergence
  import CompletionOrder
  import EndToEnd
  import ManagerRuns
  import Serving
  import Sync = SyncHeaders

  // ----- One step of the download on the network -----

  /** `n'` is `n` but for this sync of node `i` and what is on the wire. */
  ghost predicate OnlySync(n: Net, n': Net, i: nat, id: nat) {
    && HasSync(n, i, id) && HasSync(n', i, id) && 0 < i
    && |n'.nodes| == |n.nodes|
    && n'.nodes[0].tables == n.nodes[0].tables
    && n'.nodes[i] == n.nodes[i].(syncs := n.nodes[i].syncs[id := n'.nodes[i].syncs[id]])
  }

  lemma OnlySyncAgain(a: Net, b: Net, c: Net, i: nat, id: nat)
    requires OnlySync(a, b, i, id) && OnlySync(b, c, i, id)
    ensures OnlySync(a, c, i, id)
  {
    assert a.nodes[i].syncs[id := b.nodes[i].syncs[id]][id := c.nodes[i].syncs[id]]
        == a.nodes[i].syncs[id := c.nodes[i].syncs[id]];
  }

  lemma SyncStepIs(n: Net, i: nat, id: nat, step: Sync.Step)
    requires HasSync(n, i, id) && 0 < i
    ensures
      var n' := OnSyncStep(n, i, id, step);
      OnlySync(n, n', i, id) && n'.nodes[i].syncs[id] == Sync.Next(n.nodes[i].syncs[id], step)
  {
  }

  /** The request for the next batch goes out. */
  lemma RequestGoesOut(n: Net, i: nat, id: nat) returns (r: Request)
    requires NetInv(n) && HasSync(n, i, id) && 0 < i
    requires
      var s := n.nodes[i].syncs[id];
      s.output.Running? && |s.inFlight| < s.maxConcurrent && s.localHead < s.target
    ensures
      var s, n' := n.nodes[i].syncs[id], NetNext(n, IssueRequest(i, id));
      && NetInv(n') && OnlySync(n, n', i, id)
      && n'.nodes[i].syncs[id] == Sync.Next(s, Sync.Issue)
      && r == Request(i, id, |s.issued|, s.peer, Sync.NextRequest(s)) && r in n'.requests
  {
    NetNextKeepsInv(n, IssueRequest(i, id));
    SyncStepIs(n, i, id, Sync.Issue);
    var s := n.nodes[i].syncs[id];
    r := Request(i, id, |s.issued|, s.peer, Sync.NextRequest(s));
    var s' := Sync.Next(s, Sync.Issue);
    assert s'.issued[|s.issued|] == Sync.NextRequest(s);
    assert r in Sent(i, id, s');
  }

  /** The miner's node answers it with its own blocks. */
  lemma RequestIsAnswered(n: Net, i: nat, id: nat, r: Request)
    requires NetInv(n) && HasSync(n, i, id) && 0 < i && r in n.requests && r.server == 0
    ensures
      var n' := NetNext(n, ServeRequest(r));
      && NetInv(n') && OnlySync(n, n', i, id) && n'.nodes[i] == n.nodes[i]
      && Response(r.client, r.sync, r.id, EndToEnd.HonestAnswer(Convergence.ChainOf(n), r.body)) in n'.responses
  {
    NetNextKeepsInv(n, ServeRequest(r));
    assert n.nodes[i].syncs[id := n.nodes[i].syncs[id]] == n.nodes[i].syncs;
  }

  lemma AnswerArrives(n: Net, i: nat, id: nat, k: nat, headers: seq<Header>)
    requires NetInv(n) && HasSync(n, i, id) && 0 < i && Response(i, id, k, headers) in n.responses
    ensures
      var n' := NetNext(n, DeliverResponse(Response(i, id, k, headers)));
      && NetInv(n') && OnlySync(n, n', i, id)
      && n'.nodes[i].syncs[id] == Sync.Next(n.nodes[i].syncs[id], Sync.Receive(k, Sync.Delivered(headers)))
  {
    NetNextKeepsInv(n, DeliverResponse(Response(i, id, k, headers)));
    SyncStepIs(n, i, id, Sync.Receive(k, Sync.Delivered(headers)));
  }

  // ----- A batch -----

  /** The sync of node `i` with the miner's node has come as far as `done`, against
      the miner's chain, with every batch answered in its turn. */
  ghost predicate Downloading(n: Net, i: nat, id: nat, base: Sync.Sync, done: seq<Sync.Step>) {
    && NetInv(n) && HasSync(n, i, id) && 0 < i
    && n.nodes[i].syncs[id] == Sync.Exec(base, done)
    && EndToEnd.HonestRun(Convergence.ChainOf(n), base, done)
    && var s := Sync.Exec(base, done);
       && CompletionOrder.Covers(Convergence.ChainOf(n), s)
       && s.peer == 0 && s.output.Running? && s.inFlight == {}
       && CompletionOrder.Sequential(s)
  }

  /** One more batch, as the sync sees it. */
  lemma BatchInSync(peer: HeaderTable, s: Sync.Sync)
    requires CompletionOrder.Covers(peer, s) && CompletionOrder.Sequential(s)
    requires s.output.Running? && s.inFlight == {} && s.localHead < s.target
    ensures
      var k, s1 := |s.issued|, Sync.Next(s, Sync.Issue);
      && |s1.issued| == k + 1 && s1.issued[k] == Sync.NextRequest(s) && k in s1.inFlight
      && var answer := EndToEnd.HonestAnswer(peer, s1.issued[k]);
         var s2 := Sync.Next(s1, Sync.Receive(k, Sync.Delivered(answer)));
         && CompletionOrder.Covers(peer, s2) && CompletionOrder.Sequential(s2)
         && s2.output.Running? && s2.inFlight == {} && s.localHead < s2.localHead && s2.peer == s.peer
         && EndToEnd.HonestStep(peer, s1, Sync.Receive(k, Sync.Delivered(answer)))
  {
    CompletionOrder.IssueIsEnabled(peer, s);
    CompletionOrder.HonestReplyIsQueued(peer, Sync.Next(s, Sync.Issue), |s.issued|);
  }

  lemma HonestTwoMore(
    peer: HeaderTable, base: Sync.Sync, done: seq<Sync.Step>, a: Sync.Step, b: Sync.Step) returns (more: seq<Sync.Step>)
    requires EndToEnd.HonestRun(peer, base, done)
    requires
      var s := Sync.Exec(base, done);
      EndToEnd.HonestStep(peer, s, a) && EndToEnd.HonestStep(peer, Sync.Next(s, a), b)
    ensures EndToEnd.HonestRun(peer, base, more)
    ensures Sync.Exec(base, more) == Sync.Next(Sync.Next(Sync.Exec(base, done), a), b)
  {
    var s := Sync.Exec(base, done);
    Sync.ExecSnoc(base, done, a);
    Sync.ExecSnoc(base, done + [a], b);
    assert [a][1..] == [] && [b][1..] == [];
    assert EndToEnd.HonestRun(peer, s, [a]) && EndToEnd.HonestRun(peer, Sync.Next(s, a), [b]);
    CompletionOrder.HonestRunConcat(peer, base, done, [a]);
    CompletionOrder.HonestRunConcat(peer, base, done + [a], [b]);
    more := done + [a] + [b];
  }

  /** The steps of the route after the lookup. */
  ghost predicate OfRoute(step: NetStep) {
    step.IssueRequest? || step.ServeRequest? || step.DeliverResponse?
    || step.FinishSync? || step.CollectSync?
  }

  ghost predicate AllOfRoute(steps: seq<NetStep>) {
    forall k | 0 <= k < |steps| :: OfRoute(steps[k])
  }

  /** Request, answer and delivery of one batch. */
  lemma BatchOnNet(n: Net, i: nat, id: nat) returns (steps: seq<NetStep>, n': Net)
    requires NetInv(n) && HasSync(n, i, id) && 0 < i
    requires
      var s := n.nodes[i].syncs[id];
      s.peer == 0 && s.output.Running? && |s.inFlight| < s.maxConcurrent && s.localHead < s.target
    ensures AllOfRoute(steps) && Convergence.Goes(n, steps, n') && OnlySync(n, n', i, id)
    ensures
      var s := n.nodes[i].syncs[id];
      var answer := EndToEnd.HonestAnswer(Convergence.ChainOf(n), Sync.NextRequest(s));
      n'.nodes[i].syncs[id]
      == Sync.Next(Sync.Next(s, Sync.Issue), Sync.Receive(|s.issued|, Sync.Delivered(answer)))
  {
    var s := n.nodes[i].syncs[id];
    var r := RequestGoesOut(n, i, id);
    var n1 := NetNext(n, IssueRequest(i, id));
    Convergence.GoesOne(n, IssueRequest(i, id));
    var n2, last := AnswerComes(n1, i, id, r);
    Convergence.GoesOn(n, [IssueRequest(i, id)], n1, [ServeRequest(r)] + [last], n2);
    OnlySyncAgain(n, n1, n2, i, id);
    steps, n' := [IssueRequest(i, id)] + ([ServeRequest(r)] + [last]), n2;
  }

  lemma AnswerComes(n: Net, i: nat, id: nat, r: Request) returns (n': Net, last: NetStep)
    requires NetInv(n) && HasSync(n, i, id) && 0 < i
    requires r in n.requests && r.server == 0 && r.client == i && r.sync == id
    ensures last.DeliverResponse? && Convergence.Goes(n, [ServeRequest(r)] + [last], n') && OnlySync(n, n', i, id)
    ensures
      var answer := EndToEnd.HonestAnswer(Convergence.ChainOf(n), r.body);
      n'.nodes[i].syncs[id] == Sync.Next(n.nodes[i].syncs[id], Sync.Receive(r.id, Sync.Delivered(answer)))
  {
    var answer := EndToEnd.HonestAnswer(Convergence.ChainOf(n), r.body);
    RequestIsAnswered(n, i, id, r);
    var n1 := NetNext(n, ServeRequest(r));
    Convergence.GoesOne(n, ServeRequest(r));
    AnswerArrives(n1, i, id, r.id, answer);
    last := DeliverResponse(Response(i, id, r.id, answer));
    Convergence.GoesOne(n1, last);
    n' := NetNext(n1, last);
    Convergence.GoesOn(n, [ServeRequest(r)], n1, [last], n');
    OnlySyncAgain(n, n1, n', i, id);
  }

  lemma OneBatch(n: Net, i: nat, id: nat, base: Sync.Sync, done: seq<Sync.Step>)
    returns (steps: seq<NetStep>, n': Net, more: seq<Sync.Step>)
    requires Downloading(n, i, id, base, done) && Sync.Exec(base, done).localHead < Sync.Exec(base, done).target
    ensures AllOfRoute(steps) && Convergence.Goes(n, steps, n') && OnlySync(n, n', i, id)
    ensures Downloading(n', i, id, base, more)
    ensures Sync.Exec(base, done).localHead < Sync.Exec(base, more).localHead
  {
    var chain, s := Convergence.ChainOf(n), Sync.Exec(base, done);
    BatchInSync(chain, s);
    steps, n' := BatchOnNet(n, i, id);
    var answer := EndToEnd.HonestAnswer(chain, Sync.NextRequest(s));
    more := HonestTwoMore(chain, base, done, Sync.Issue, Sync.Receive(|s.issued|, Sync.Delivered(answer)));
  }

  lemma {:induction false} AllBatches(n: Net, i: nat, id: nat, base: Sync.Sync, done: seq<Sync.Step>)
    returns (steps: seq<NetStep>, n': Net, more: seq<Sync.Step>)
    requires Downloading(n, i, id, base, done)
    ensures AllOfRoute(steps) && Convergence.Goes(n, steps, n') && OnlySync(n, n', i, id)
    ensures Downloading(n', i, id, base, more)
    ensures Sync.Exec(base, more).target <= Sync.Exec(base, more).localHead
    decreases
      if Sync.Exec(base, done).localHead < Sync.Exec(base, done).target
      then Sync.Exec(base, done).target - Sync.Exec(base, done).localHead else 0
  {
    if Sync.Exec(base, done).target <= Sync.Exec(base, done).localHead {
      steps, n', more := [], n, done;
      assert n.nodes[i].syncs[id := n.nodes[i].syncs[id]] == n.nodes[i].syncs;
    } else {
      var first, n1, next := OneBatch(n, i, id, base, done);
      SamePlanThroughout(base, done, next);
      var rest;
      rest, n', more := AllBatches(n1, i, id, base, next);
      Convergence.GoesOn(n, first, n1, rest, n');
      OnlySyncAgain(n, n1, n', i, id);
      steps := first + rest;
    }
  }

  lemma {:induction false} PlanStays(s: Sync.Sync, steps: seq<Sync.Step>)
    ensures Sync.SamePlan(s, Sync.Exec(s, steps))
    decreases |steps|
  {
    if steps == [] {
    } else {
      Sync.NextKeepsPlan(s, steps[0]);
      PlanStays(Sync.Next(s, steps[0]), steps[1..]);
    }
  }

  lemma SamePlanThroughout(base: Sync.Sync, a: seq<Sync.Step>, b: seq<Sync.Step>)
    ensures Sync.Exec(base, a).target == Sync.Exec(base, b).target
  {
    PlanStays(base, a);
    PlanStays(base, b);
  }

  // ----- From gossip to the last batch -----

  /** An idle node, not the miner's own, and a gossiped block far ahead of its tip. */
  ghost predicate Behind(n: Net, i: nat, h: Header) {
    && NetInv(n) && 0 < i < |n.nodes| && h in n.gossip
    && ManagerRuns.Idle(n.nodes[i]) && Last(n.nodes[i].tables.headers) + 1 < h.number
  }

  lemma TargetCoversLastBatch(local: nat, target: nat, L: nat)
    requires 1 <= L && local < target
    ensures EndToEnd.LastBatchStart(local, target, L) <= target
  {
    var b := Sync.Batches(target - local, L);
    Sync.BatchesBounds(target - local, L);
    assert b * L == (b - 1) * L + L;
  }

  lemma DeliveredIs(n: Net, i: nat, h: Header)
    requires Behind(n, i, h)
    ensures
      var n' := NetNext(n, DeliverGossip(i, h));
      && NetInv(n') && |n'.nodes| == |n.nodes| && n'.nodes[0].tables == n.nodes[0].tables
      && n'.nodes[i] == Next(n.nodes[i], OnEvent(IncomingNewBlockHeader(h)))
  {
    NetNextKeepsInv(n, DeliverGossip(i, h));
  }

  lemma PeersFoundIs(n: Net, i: nat, peers: seq<nat>)
    requires NetInv(n) && 0 < i < |n.nodes|
    ensures
      var n' := NetNext(n, PeersFound(i, Some(peers)));
      && NetInv(n') && |n'.nodes| == |n.nodes| && n'.nodes[0].tables == n.nodes[0].tables
      && n'.nodes[i] == Next(n.nodes[i], LookupReady(Some(peers)))
  {
    NetNextKeepsInv(n, PeersFound(i, Some(peers)));
  }

  /** The node hears of the block and finds the miner's node as its peer. */
  function Opening(i: nat, h: Header): seq<NetStep> {
    [DeliverGossip(i, h)] + [PeersFound(i, Some([0]))]
  }

  lemma OpeningIs(n: Net, i: nat, h: Header) returns (n': Net)
    requires Behind(n, i, h)
    ensures Convergence.Goes(n, Opening(i, h), n')
    ensures |n'.nodes| == |n.nodes| && Convergence.ChainOf(n') == Convergence.ChainOf(n)
    ensures n'.nodes[i] == ManagerRuns.AfterLookup(n.nodes[i], h, [0])
  {
    DeliveredIs(n, i, h);
    var n1 := NetNext(n, DeliverGossip(i, h));
    PeersFoundIs(n1, i, [0]);
    n' := NetNext(n1, PeersFound(i, Some([0])));
    Convergence.GoesOne(n, DeliverGossip(i, h));
    Convergence.GoesOne(n1, PeersFound(i, Some([0])));
    Convergence.GoesOn(n, [DeliverGossip(i, h)], n1, [PeersFound(i, Some([0]))], n');
    ManagerRuns.AfterLookupIs(n.nodes[i], h, [0]);
  }

  lemma DownloadBegins(n: Net, i: nat, h: Header) returns (n': Net)
    requires Behind(n, i, h)
    ensures Convergence.Goes(n, Opening(i, h), n')
    ensures
      var m := n.nodes[i];
      && |n'.nodes| == |n.nodes| && Convergence.ChainOf(n') == Convergence.ChainOf(n)
      && n'.nodes[i].tables == m.tables
      && Downloading(n', i, m.nextSync, ManagerRuns.SyncFor(m, h, 0), [])
  {
    n' := OpeningIs(n, i, h);
    ManagerRuns.GapLeadsToSync(n.nodes[i], h, 0);
    FreshDownload(n, i, h);
  }

  lemma FreshDownload(n: Net, i: nat, h: Header)
    requires Behind(n, i, h)
    ensures
      var s := ManagerRuns.SyncFor(n.nodes[i], h, 0);
      && CompletionOrder.Covers(Convergence.ChainOf(n), s) && CompletionOrder.Sequential(s)
      && s.peer == 0 && s.output.Running? && s.inFlight == {}
  {
    var local := Last(n.nodes[i].tables.headers);
    TargetCoversLastBatch(local, h.number, Sync.REQUEST_LIMIT);
    Sync.InvAtBuild(0, local, h.number, Sync.REQUEST_LIMIT, Sync.MAX_CONCURRENT_LIMIT);
    assert Belongs(Convergence.ChainOf(n), h);
  }

  // ----- The end of it -----

  lemma FinishedIs(n: Net, i: nat, id: nat, base: Sync.Sync, done: seq<Sync.Step>)
    requires Downloading(n, i, id, base, done)
    requires Sync.Exec(base, done).target <= Sync.Exec(base, done).localHead
    ensures
      var n' := NetNext(n, FinishSync(i, id));
      var steps := done + [Sync.Finish];
      && NetInv(n') && OnlySync(n, n', i, id)
      && n'.nodes[i].syncs[id] == Sync.Exec(base, steps)
      && Sync.Exec(base, steps).output.Synced?
      && EndToEnd.HonestRun(Convergence.ChainOf(n), base, steps)
      && EndToEnd.InIssueOrder(Sync.Exec(base, steps).answers)
  {
    NetNextKeepsInv(n, FinishSync(i, id));
    SyncStepIs(n, i, id, Sync.Finish);
    Sync.ExecSnoc(base, done, Sync.Finish);
    assert [Sync.Finish][1..] == [];
    assert EndToEnd.HonestRun(Convergence.ChainOf(n), Sync.Exec(base, done), [Sync.Finish]);
    CompletionOrder.HonestRunConcat(Convergence.ChainOf(n), base, done, [Sync.Finish]);
  }

  lemma CollectedIs(n: Net, i: nat, id: nat)
    requires NetInv(n) && HasSync(n, i, id) && 0 < i && n.nodes[i].syncs[id].output.Synced?
    ensures
      var n', m := NetNext(n, CollectSync(i, id)), n.nodes[i];
      && NetInv(n') && |n'.nodes| == |n.nodes|
      && n'.nodes[i] == OnSync(m, id, Some(m.syncs[id].output.headers))
  {
    NetNextKeepsInv(n, CollectSync(i, id));
  }

  /** All batches in, the sync is finished and collected: the node stands at the
      block it had heard of. */
  lemma DownloadEnds(n: Net, i: nat, id: nat, base: Sync.Sync, done: seq<Sync.Step>, target: nat)
    returns (n': Net)
    requires Downloading(n, i, id, base, done)
    requires Sync.Exec(base, done).target <= Sync.Exec(base, done).localHead
    requires WellFormed(n.nodes[i].tables.headers) && Last(n.nodes[i].tables.headers) < target
    requires
      base == Sync.Build(
                0, Last(n.nodes[i].tables.headers), target, Sync.REQUEST_LIMIT, Sync.MAX_CONCURRENT_LIMIT)
    requires WellFormed(Convergence.ChainOf(n)) && target <= Last(Convergence.ChainOf(n))
    ensures Convergence.Goes(n, [FinishSync(i, id)] + [CollectSync(i, id)], n') && StandsAt(n', i, target)
  {
    var t, chain := n.nodes[i].tables, Convergence.ChainOf(n);
    FinishedIs(n, i, id, base, done);
    var n1 := NetNext(n, FinishSync(i, id));
    CollectedIs(n1, i, id);
    n' := NetNext(n1, CollectSync(i, id));
    Convergence.GoesOne(n, FinishSync(i, id));
    Convergence.GoesOne(n1, CollectSync(i, id));
    Convergence.GoesOn(n, [FinishSync(i, id)], n1, [CollectSync(i, id)], n');
    ChainIsPeer(n, i);
    EndToEnd.SyncThenApply(
      t, chain, 0, target, Sync.REQUEST_LIMIT, Sync.MAX_CONCURRENT_LIMIT, done + [Sync.Finish]);
  }

  lemma ChainIsPeer(n: Net, i: nat)
    requires NetInv(n) && i < |n.nodes|
    ensures
      var hs, chain := n.nodes[i].tables.headers, Convergence.ChainOf(n);
      WellFormed(hs) && WellFormed(chain) && Linked(chain) && EndToEnd.OnPeerChain(hs, chain)
  {
    assert NodeOk(Convergence.ChainOf(n), n.nodes[i]);
    assert Last(n.nodes[i].tables.headers) in n.nodes[i].tables.headers;
  }

  /** A fresh download of everything up to `target`, which the miner has. */
  ghost predicate Begun(n: Net, i: nat, id: nat, base: Sync.Sync, target: nat) {
    && Downloading(n, i, id, base, [])
    && WellFormed(n.nodes[i].tables.headers) && Last(n.nodes[i].tables.headers) < target
    && base == Sync.Build(
                 0, Last(n.nodes[i].tables.headers), target, Sync.REQUEST_LIMIT, Sync.MAX_CONCURRENT_LIMIT)
    && WellFormed(Convergence.ChainOf(n)) && target <= Last(Convergence.ChainOf(n))
  }

  lemma RouteBegins(n: Net, i: nat, h: Header) returns (n': Net)
    requires Behind(n, i, h)
    ensures Convergence.Goes(n, Opening(i, h), n')
    ensures Begun(n', i, n.nodes[i].nextSync, ManagerRuns.SyncFor(n.nodes[i], h, 0), h.number)
  {
    n' := DownloadBegins(n, i, h);
    ChainIsPeer(n, i);
    assert Belongs(Convergence.ChainOf(n), h);
  }

  /** The download, once begun, brings the node to its target. */
  lemma DownloadRuns(n: Net, i: nat, id: nat, base: Sync.Sync, target: nat)
    returns (steps: seq<NetStep>, n': Net)
    requires Begun(n, i, id, base, target)
    ensures AllOfRoute(steps) && Convergence.Goes(n, steps, n') && StandsAt(n', i, target)
  {
    var batches, n1, done := AllBatches(n, i, id, base, []);
    n' := DownloadEnds(n1, i, id, base, done, target);
    Convergence.GoesOn(n, batches, n1, [FinishSync(i, id)] + [CollectSync(i, id)], n');
    steps := batches + ([FinishSync(i, id)] + [CollectSync(i, id)]);
  }

  /** The whole route, from the gossip on. */
  lemma RouteLeadsThere(n: Net, i: nat, h: Header) returns (steps: seq<NetStep>, n': Net)
    requires Behind(n, i, h)
    ensures AllOfRoute(steps) && Convergence.Goes(n, Opening(i, h) + steps, n') && StandsAt(n', i, h.number)
  {
    var n1 := RouteBegins(n, i, h);
    steps, n' := DownloadRuns(n1, i, n.nodes[i].nextSync, ManagerRuns.SyncFor(n.nodes[i], h, 0), h.number);
    Convergence.GoesOn(n, Opening(i, h), n1, steps, n');
  }

  /** From every reachable state an idle node that is told of a block with a gap
      below it can be brought to that block by peer lookup, requests, the miner's
      node's answers and the collected sync, with no other gossip; it is then free
      for the next lookup. */
  lemma CanDownload(n: Net, before: seq<NetStep>, i: nat, h: Header)
    requires IsInit(n) && 0 < i < |n.nodes|
    ensures NetInv(n) && NetInv(NetRun(n, before)) && |NetRun(n, before).nodes| == |n.nodes|
    ensures
      var s := NetRun(n, before);
      && s.nodes[i].tables.headers != map[]
      && (h in s.gossip && ManagerRuns.Idle(s.nodes[i]) && Last(s.nodes[i].tables.headers) + 1 < h.number ==>
            exists steps :: AllOfRoute(steps) && StandsAt(NetRun(s, Opening(i, h) + steps), i, h.number))
  {
    Network.InitHolds(n);
    RunKeepsInv(n, before);
    var s := NetRun(n, before);
    assert NodeOk(Convergence.ChainOf(s), s.nodes[i]);
    if Behind(s, i, h) {
      var steps, s' := RouteLeadsThere(s, i, h);
      assert StandsAt(NetRun(s, Opening(i, h) + steps), i, h.number);
    }
  }

  /** The node's tip has this number, and it waits for nothing. */
  ghost predicate StandsAt(n: Net, i: nat, number: nat) {
    i < |n.nodes| && WellFormed(n.nodes[i].tables.headers)
    && Last(n.nodes[i].tables.headers) == number && !n.nodes[i].pending
  }
}
