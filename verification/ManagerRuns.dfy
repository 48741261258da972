// Properties of every run of one manager: how often a header is broadcast, how
// many lookups and syncs run at once, and what becomes of the pending flag.
module ManagerRuns {
  import opened Interface
  import opened BlockTree
  import opened ChainManager
  import Sync = SyncHeaders
  import EndToEnd
  import CompletionOrder

  // ----- Broadcasts -----

  // Here each add of the manager is one step. MiningNode takes the add apart and
  // says what mining threads on the same chain change.

  function Times(m: Manager, h: Header): nat {
    multiset(m.headerBroadcasts)[h]
  }

  ghost predicate Broadcasts(m: Manager, step: Step, h: Header)
    requires m.tables.headers != map[]
  {
    Next(m, step).headerBroadcasts == m.headerBroadcasts + [h]
  }

  lemma StartSyncsOnlyStarts(m: Manager, target: nat, peers: seq<nat>)
    requires m.tables.headers != map[]
    ensures
      var m' := StartSyncs(m, target, peers);
      && m' == m.(syncs := m'.syncs, nextSync := m.nextSync + |peers|)
      && |m'.syncs| <= |m.syncs| + |peers|
      && (peers != [] ==> m'.syncs != map[])
    decreases |peers|
  {
    if peers == [] {
    } else {
      StartSyncsOnlyStarts(m, target, peers[..|peers| - 1]);
      var m1 := StartSyncs(m, target, peers[..|peers| - 1]);
      assert m1.nextSync in StartSync(m1, peers[|peers| - 1], target).syncs;
    }
  }

  /** Linked on top of the tip, or of unknown parent and its hash not sent yet. */
  ghost predicate WorthSending(m: Manager, h: Header)
    requires m.tables.headers != map[]
  {
    var tip := Last(m.tables.headers);
    || (h.number == tip + 1 && h.parentHash == m.tables.headers[tip].hash)
    || (h != Genesis() && (h.number == 0 || tip + 1 < h.number) && h.hash !in m.broadcasted)
  }

  /** A step broadcasts at most one header, the one it was told about, and does
      so exactly when it is worth sending; that header was then strictly ahead of
      the tip exactly when its number is not 0. */
  lemma BroadcastIsAhead(m: Manager, step: Step)
    requires WellFormed(m.tables.headers)
    ensures
      var m' := Next(m, step);
      if step.OnEvent? && step.event.IncomingNewBlockHeader? && WorthSending(m, step.event.header) then
        && Broadcasts(m, step, step.event.header)
        && (Last(m.tables.headers) < step.event.header.number <==> step.event.header.number != 0)
      else
        m'.headerBroadcasts == m.headerBroadcasts
  {
    match step
    case OnEvent(IncomingNewBlockHeader(h)) => TryAddOutcome(m.tables, h);
    case LookupReady(Some(peers)) =>
      if m.lookup.Some? {
        StartSyncsOnlyStarts(m.(lookup := None), m.lookup.value.number, peers);
      }
    case _ =>
  }

  // What the manager has sent unvalidated, from the run alone.

  /** The header is not genesis, and its parent cannot be on the chain. */
  ghost predicate Ahead(hs: HeaderTable, h: Header)
    requires hs != map[]
  {
    h != Genesis() && (h.number == 0 || Last(hs) + 1 < h.number)
  }

  /** The step tells the manager of a header with this hash that is ahead. */
  ghost predicate HearsAhead(m: Manager, step: Step, hash: string)
    requires m.tables.headers != map[]
  {
    step.OnEvent? && step.event.IncomingNewBlockHeader? && step.event.header.hash == hash
    && Ahead(m.tables.headers, step.event.header)
  }

  /** Some step of the run did. */
  ghost predicate HeardAhead(m: Manager, steps: seq<Step>, hash: string)
    requires WellFormed(m.tables.headers)
    decreases |steps|
  {
    steps != [] &&
    (HearsAhead(m, steps[0], hash)
     || (NextKeepsChain(m, steps[0]); HeardAhead(Next(m, steps[0]), steps[1..], hash)))
  }

  lemma NextRecords(m: Manager, step: Step, hash: string)
    requires WellFormed(m.tables.headers)
    ensures hash in Next(m, step).broadcasted <==> hash in m.broadcasted || HearsAhead(m, step, hash)
  {
    if step.OnEvent? && step.event.IncomingNewBlockHeader? {
      TryAddOutcome(m.tables, step.event.header);
    } else {
      OthersKeepBroadcasted(m, step);
    }
  }

  lemma {:induction false} RunRecords(m: Manager, steps: seq<Step>, hash: string)
    requires WellFormed(m.tables.headers)
    ensures hash in Run(m, steps).broadcasted <==> hash in m.broadcasted || HeardAhead(m, steps, hash)
    decreases |steps|
  {
    if steps == [] {
    } else {
      NextKeepsChain(m, steps[0]);
      NextRecords(m, steps[0], hash);
      RunRecords(Next(m, steps[0]), steps[1..], hash);
    }
  }

  /** After any run from a new manager, what the next step broadcasts is settled by
      the chain and the steps before: the header it tells of, once, if that links
      on top of the tip, or is ahead and no step before told of one with its hash
      that was ahead then; nothing otherwise. So a header that is ahead goes out
      when its hash is first heard ahead, and only then. */
  lemma BroadcastsExactly(t: Tables, pool: map<string, Transaction>, before: seq<Step>, step: Step)
    requires WellFormed(t.headers)
    ensures
      var m0 := NewManager(t, pool);
      var m := Run(m0, before);
      var hs := m.tables.headers;
      if step.OnEvent? && step.event.IncomingNewBlockHeader? then
        var h := step.event.header;
        var onTop := h.number == Last(hs) + 1 && h.parentHash == hs[Last(hs)].hash;
        var firstAhead := Ahead(hs, h) && !HeardAhead(m0, before, h.hash);
        Next(m, step).headerBroadcasts == m.headerBroadcasts + (if onTop || firstAhead then [h] else [])
      else
        Next(m, step).headerBroadcasts == m.headerBroadcasts
  {
    var m := Run(NewManager(t, pool), before);
    BroadcastIsAhead(m, step);
    if step.OnEvent? && step.event.IncomingNewBlockHeader? {
      RunRecords(NewManager(t, pool), before, step.event.header.hash);
    }
  }

  lemma TimesSnoc(s: seq<Header>, h: Header, x: Header)
    ensures multiset(s + [h])[x] == multiset(s)[x] + (if x == h then 1 else 0)
  {
    assert multiset(s + [h]) == multiset(s) + multiset{h};
  }

  /** A header at or below the tip is never broadcast again. */
  lemma {:induction false} NeverBroadcastAgain(m: Manager, steps: seq<Step>, h: Header)
    requires WellFormed(m.tables.headers) && 1 <= h.number <= Last(m.tables.headers)
    ensures Times(Run(m, steps), h) == Times(m, h)
    decreases |steps|
  {
    if steps == [] {
    } else {
      NextKeepsChain(m, steps[0]);
      BroadcastIsAhead(m, steps[0]);
      var m' := Next(m, steps[0]);
      if m'.headerBroadcasts != m.headerBroadcasts {
        TimesSnoc(m.headerBroadcasts, steps[0].event.header, h);
      }
      NeverBroadcastAgain(m', steps[1..], h);
    }
  }

  /** Once unvalidated, if its hash was new; once on extending the tip. */
  ghost predicate Budgeted(m: Manager, h: Header)
    requires m.tables.headers != map[]
  {
    Times(m, h) <= (if h.hash in m.broadcasted then 1 else 0)
                   + (if 1 <= h.number <= Last(m.tables.headers) then 1 else 0)
  }

  lemma HeaderKeepsBudget(m: Manager, x: Header, h: Header)
    requires WellFormed(m.tables.headers) && Budgeted(m, h)
    ensures WellFormed(OnHeader(m, x).tables.headers) && Budgeted(OnHeader(m, x), h)
  {
    var (t', r) := TryAdd(m.tables, x);
    TryAddOutcome(m.tables, x);
    TryAddTables(m.tables, x);
    ReactKeepsBudget(m, t', x, r, h);
  }

  lemma ReactKeepsBudget(m: Manager, t': Tables, x: Header, r: Result<AddedBlockResult, Error>, h: Header)
    requires m.tables.headers != map[] && t'.headers != map[] && Budgeted(m, h)
    requires Last(m.tables.headers) <= Last(t'.headers)
    requires r == Ok(ExtendTip) ==> x.number == Last(m.tables.headers) + 1 == Last(t'.headers)
    ensures Budgeted(React(m.(tables := t'), x, r), h)
  {
    TimesSnoc(m.headerBroadcasts, x, h);
  }

  lemma NextKeepsBudget(m: Manager, step: Step, h: Header)
    requires WellFormed(m.tables.headers) && Budgeted(m, h)
    ensures Next(m, step).tables.headers != map[] && Budgeted(Next(m, step), h)
  {
    if step.OnEvent? && step.event.IncomingNewBlockHeader? {
      HeaderKeepsBudget(m, step.event.header, h);
    } else {
      NextKeepsChain(m, step);
      BroadcastIsAhead(m, step);
      OthersKeepBroadcasted(m, step);
    }
  }

  lemma OthersKeepBroadcasted(m: Manager, step: Step)
    requires m.tables.headers != map[] && !(step.OnEvent? && step.event.IncomingNewBlockHeader?)
    ensures Next(m, step).broadcasted == m.broadcasted
  {
    if step.LookupReady? && step.peers.Some? && m.lookup.Some? {
      StartSyncsOnlyStarts(m.(lookup := None), m.lookup.value.number, step.peers.value);
    }
  }

  lemma {:induction false} RunKeepsBudget(m: Manager, steps: seq<Step>, h: Header)
    requires WellFormed(m.tables.headers) && Budgeted(m, h)
    ensures Budgeted(Run(m, steps), h)
    decreases |steps|
  {
    if steps == [] {
    } else {
      NextKeepsChain(m, steps[0]);
      NextKeepsBudget(m, steps[0], h);
      RunKeepsBudget(Next(m, steps[0]), steps[1..], h);
    }
  }

  /** In a whole run no header is broadcast more than twice, and one numbered 0
      at most once. */
  lemma BroadcastAtMostTwice(t: Tables, pool: map<string, Transaction>, steps: seq<Step>, h: Header)
    requires WellFormed(t.headers)
    ensures Times(Run(NewManager(t, pool), steps), h) <= (if h.number == 0 then 1 else 2)
  {
    RunKeepsBudget(NewManager(t, pool), steps, h);
  }

  // ----- Lookups and syncs in flight -----

  ghost predicate LookupsPaidFor(m: Manager) {
    m.lookupsStarted <= m.syncsSucceeded + (if m.pending then 1 else 0)
  }

  lemma NextKeepsPaid(m: Manager, step: Step)
    requires WellFormed(m.tables.headers) && LookupsPaidFor(m)
    ensures LookupsPaidFor(Next(m, step))
  {
    if step.LookupReady? && step.peers.Some? && m.lookup.Some? {
      StartSyncsOnlyStarts(m.(lookup := None), m.lookup.value.number, step.peers.value);
    }
  }

  lemma {:induction false} RunKeepsPaid(m: Manager, steps: seq<Step>)
    requires WellFormed(m.tables.headers) && LookupsPaidFor(m)
    ensures LookupsPaidFor(Run(m, steps))
    decreases |steps|
  {
    if steps == [] {
    } else {
      NextKeepsChain(m, steps[0]);
      NextKeepsPaid(m, steps[0]);
      RunKeepsPaid(Next(m, steps[0]), steps[1..]);
    }
  }

  /** Over every run, peer lookups started <= 1 + syncs that succeeded. */
  lemma LookupsAreGated(t: Tables, pool: map<string, Transaction>, steps: seq<Step>)
    requires WellFormed(t.headers)
    ensures
      var m := Run(NewManager(t, pool), steps);
      m.lookupsStarted <= 1 + m.syncsSucceeded
  {
    RunKeepsPaid(NewManager(t, pool), steps);
  }

  function InFlight(m: Manager): nat {
    (if m.lookup.Some? then 1 else 0) + |m.syncs|
  }

  /** At most one lookup or sync is in flight, and none while the flag is clear. */
  ghost predicate Single(m: Manager) {
    InFlight(m) <= (if m.pending then 1 else 0)
  }

  /** An open lookup comes back with two peers or more. */
  ghost predicate Overbooks(m: Manager, step: Step) {
    step.LookupReady? && m.lookup.Some? && step.peers.Some? && 2 <= |step.peers.value|
  }

  lemma SyncEndKeepsSingle(m: Manager, id: nat, result: Option<seq<Header>>)
    requires m.tables.headers != map[] && Single(m)
    ensures Single(OnSync(m, id, result))
  {
    if id in m.syncs {
      OneSyncFewer(m, id);
    }
  }

  lemma OneSyncFewer(m: Manager, id: nat)
    requires id in m.syncs
    ensures |m.syncs - {id}| == |m.syncs| - 1
  {
    var rest := m.syncs - {id};
    assert rest.Keys == m.syncs.Keys - {id};
    assert |rest.Keys| == |m.syncs.Keys| - 1;
  }

  /** Every sync is kept under an id handed out before. */
  ghost predicate IdsUsed(m: Manager) {
    forall id | id in m.syncs :: id < m.nextSync
  }

  lemma {:induction false} OneSyncForEachPeer(m: Manager, target: nat, peers: seq<nat>)
    requires m.tables.headers != map[] && IdsUsed(m)
    ensures
      var m' := StartSyncs(m, target, peers);
      IdsUsed(m') && |m'.syncs| == |m.syncs| + |peers|
    decreases |peers|
  {
    if peers == [] {
    } else {
      var m1 := StartSyncs(m, target, peers[..|peers| - 1]);
      OneSyncForEachPeer(m, target, peers[..|peers| - 1]);
      StartSyncsOnlyStarts(m, target, peers[..|peers| - 1]);
      assert m1.nextSync !in m1.syncs;
    }
  }

  /** Every step keeps to one sync at a time except exactly a lookup that comes
      back with several peers. */
  lemma StaysSingleIff(m: Manager, step: Step)
    requires WellFormed(m.tables.headers) && Single(m)
    ensures Single(Next(m, step)) <==> !Overbooks(m, step)
  {
    if step.SyncReady? {
      SyncEndKeepsSingle(m, step.id, step.result);
    } else if step.LookupReady? && step.peers.Some? && m.lookup.Some? {
      assert m.syncs == map[];
      StartSyncsOnlyStarts(m.(lookup := None), m.lookup.value.number, step.peers.value);
      OneSyncForEachPeer(m.(lookup := None), m.lookup.value.number, step.peers.value);
    }
  }

  ghost predicate SingleThroughout(m: Manager, steps: seq<Step>)
    requires WellFormed(m.tables.headers)
    decreases |steps|
  {
    Single(m) && (steps != [] ==> (NextKeepsChain(m, steps[0]); SingleThroughout(Next(m, steps[0]), steps[1..])))
  }

  ghost predicate NeverOverbooks(m: Manager, steps: seq<Step>)
    requires WellFormed(m.tables.headers)
    decreases |steps|
  {
    steps != [] ==>
      !Overbooks(m, steps[0]) && (NextKeepsChain(m, steps[0]); NeverOverbooks(Next(m, steps[0]), steps[1..]))
  }

  lemma {:induction false} SingleThroughoutIff(m: Manager, steps: seq<Step>)
    requires WellFormed(m.tables.headers) && Single(m)
    ensures SingleThroughout(m, steps) <==> NeverOverbooks(m, steps)
    ensures NeverOverbooks(m, steps) ==> Single(Run(m, steps))
    decreases |steps|
  {
    if steps == [] {
    } else {
      NextKeepsChain(m, steps[0]);
      StaysSingleIff(m, steps[0]);
      if Single(Next(m, steps[0])) {
        SingleThroughoutIff(Next(m, steps[0]), steps[1..]);
      }
    }
  }

  /** Over a whole run at most one lookup or sync is in flight at any time, and
      none while the flag is clear, if and only if no open lookup ever comes back
      with several peers. */
  lemma OneSyncAtATime(t: Tables, pool: map<string, Transaction>, steps: seq<Step>)
    requires WellFormed(t.headers)
    ensures SingleThroughout(NewManager(t, pool), steps) <==> NeverOverbooks(NewManager(t, pool), steps)
    ensures
      var m := Run(NewManager(t, pool), steps);
      NeverOverbooks(NewManager(t, pool), steps) ==> InFlight(m) <= 1 && (!m.pending ==> InFlight(m) == 0)
  {
    SingleThroughoutIff(NewManager(t, pool), steps);
  }

  // ----- The pending flag -----

  /** Whenever the flag is set, something is in flight that can clear it. */
  ghost predicate Healthy(m: Manager) {
    m.pending ==> m.lookup.Some? || m.syncs != map[]
  }

  /** The last outstanding work ends without a successful sync: a failed lookup
      or an empty peer list with no sync running, or the failure of the last
      sync with no lookup running. */
  ghost predicate Strands(m: Manager, step: Step) {
    m.pending &&
    match step
    case LookupReady(peers) =>
      m.lookup.Some? && m.syncs == map[] && (peers.None? || peers.value == [])
    case SyncReady(id, None) => m.lookup.None? && m.syncs.Keys == {id}
    case _ => false
  }

  lemma EmptyWithoutIff(m: Manager, id: nat)
    ensures m.syncs - {id} == map[] <==> m.syncs.Keys <= {id}
  {
    assert (m.syncs - {id}).Keys == m.syncs.Keys - {id};
    if m.syncs.Keys <= {id} {
      assert (m.syncs - {id}).Keys == {};
    } else {
      var k :| k in m.syncs && k != id;
      assert k in m.syncs - {id};
    }
  }

  /** Every step keeps the flag healthy except exactly those three. */
  lemma StaysHealthyIff(m: Manager, step: Step)
    requires WellFormed(m.tables.headers) && Healthy(m)
    ensures Healthy(Next(m, step)) <==> !Strands(m, step)
  {
    if step.LookupReady? {
      LookupStaysHealthyIff(m, step.peers);
    } else if step.SyncReady? {
      EmptyWithoutIff(m, step.id);
    }
  }

  lemma LookupStaysHealthyIff(m: Manager, peers: Option<seq<nat>>)
    requires WellFormed(m.tables.headers) && Healthy(m)
    ensures Healthy(OnLookup(m, peers)) <==> !Strands(m, LookupReady(peers))
  {
    if m.lookup.Some? && peers.Some? {
      var m1, target := m.(lookup := None), m.lookup.value.number;
      StartSyncsOnlyStarts(m1, target, peers.value);
      KeepsSyncs(m1, target, peers.value);
      if m.syncs != map[] {
        var k :| k in m.syncs;
        assert k in StartSyncs(m1, target, peers.value).syncs;
      }
    }
  }

  lemma {:induction false} KeepsSyncs(m: Manager, target: nat, peers: seq<nat>)
    requires m.tables.headers != map[]
    ensures m.syncs.Keys <= StartSyncs(m, target, peers).syncs.Keys
    decreases |peers|
  {
    if peers == [] {
    } else {
      KeepsSyncs(m, target, peers[..|peers| - 1]);
    }
  }

  /** Once the flag is stranded, no run ever starts another lookup or sync. */
  lemma {:induction false} StrandedForEver(m: Manager, steps: seq<Step>)
    requires WellFormed(m.tables.headers) && !Healthy(m)
    ensures
      var m' := Run(m, steps);
      && !Healthy(m')
      && m'.lookupsStarted == m.lookupsStarted
      && m'.nextSync == m.nextSync && m'.syncs == map[]
    decreases |steps|
  {
    if steps == [] {
    } else {
      NextKeepsChain(m, steps[0]);
      StrandedForEver(Next(m, steps[0]), steps[1..]);
    }
  }

  ghost predicate NeverStrands(m: Manager, steps: seq<Step>)
    requires WellFormed(m.tables.headers)
    decreases |steps|
  {
    steps != [] ==>
      !Strands(m, steps[0]) && (NextKeepsChain(m, steps[0]); NeverStrands(Next(m, steps[0]), steps[1..]))
  }

  /** A run ends healthy if and only if none of its steps stranded the flag. */
  lemma {:induction false} HealthyIffNeverStranded(m: Manager, steps: seq<Step>)
    requires WellFormed(m.tables.headers) && Healthy(m)
    ensures Healthy(Run(m, steps)) <==> NeverStrands(m, steps)
    decreases |steps|
  {
    if steps == [] {
    } else {
      NextKeepsChain(m, steps[0]);
      StaysHealthyIff(m, steps[0]);
      var m' := Next(m, steps[0]);
      if Healthy(m') {
        HealthyIffNeverStranded(m', steps[1..]);
      } else {
        StrandedForEver(m', steps[1..]);
      }
    }
  }

  /** A stranded manager still takes, and passes on, the next block. */
  lemma StrandedStillExtends(m: Manager, h: Header)
    requires WellFormed(m.tables.headers) && !Healthy(m)
    requires h.number == Last(m.tables.headers) + 1 && h.parentHash == m.tables.headers[Last(m.tables.headers)].hash
    ensures
      var m' := Next(m, OnEvent(IncomingNewBlockHeader(h)));
      && WellFormed(m'.tables.headers) && Last(m'.tables.headers) == h.number
      && m'.tables.headers[h.number] == h
      && Broadcasts(m, OnEvent(IncomingNewBlockHeader(h)), h)
      && !Healthy(m')
  {
    TryAddOutcome(m.tables, h);
    TryAddTables(m.tables, h);
  }

  // ----- Catching up -----

  /** A header starts a peer lookup exactly when its parent is not known and
      neither a lookup nor the flag stands in the way; the lookup is for it. */
  lemma LookupStartsIff(m: Manager, h: Header)
    requires WellFormed(m.tables.headers)
    ensures
      var m' := Next(m, OnEvent(IncomingNewBlockHeader(h)));
      var starts := m.lookup.None? && !m.pending
                    && h != Genesis() && (h.number == 0 || Last(m.tables.headers) + 1 < h.number);
      && m'.lookupsStarted == m.lookupsStarted + (if starts then 1 else 0)
      && (if starts then m'.lookup == Some(h) && m'.pending else m'.lookup == m.lookup && m'.pending == m.pending)
  {
    TryAddOutcome(m.tables, h);
  }

  /** Sync `id` is a fresh one with `peer` for the blocks in (tip, target]. */
  ghost predicate Syncs(m: Manager, id: nat, peer: nat, tip: nat, target: nat) {
    id in m.syncs
    && m.syncs[id] == Sync.Build(peer, tip, target, Sync.REQUEST_LIMIT, Sync.MAX_CONCURRENT_LIMIT)
  }

  /** A lookup that found peers starts one sync per peer, in order, each from
      the current tip to the header the lookup was for, and touches no other. */
  lemma {:induction false} OneSyncPerPeer(m: Manager, target: nat, peers: seq<nat>)
    requires WellFormed(m.tables.headers)
    ensures
      var m' := StartSyncs(m, target, peers);
      var tip := Last(m.tables.headers);
      && m'.nextSync == m.nextSync + |peers|
      && (forall i | 0 <= i < |peers| :: Syncs(m', m.nextSync + i, peers[i], tip, target))
      && (forall id | id in m'.syncs && id < m.nextSync :: id in m.syncs)
      && (forall id | id in m.syncs && id < m.nextSync :: id in m'.syncs && m'.syncs[id] == m.syncs[id])
    decreases |peers|
  {
    if peers == [] {
    } else {
      var n := |peers| - 1;
      OneSyncPerPeer(m, target, peers[..n]);
      var m1 := StartSyncs(m, target, peers[..n]);
      var m' := StartSyncs(m, target, peers);
      assert m' == StartSync(m1, peers[n], target);
      forall i | 0 <= i < |peers|
        ensures Syncs(m', m.nextSync + i, peers[i], Last(m.tables.headers), target)
      {
        if i < n {
          assert peers[..n][i] == peers[i];
          assert Syncs(m1, m.nextSync + i, peers[i], Last(m.tables.headers), target);
        }
      }
    }
  }

  /** The manager after hearing of `h` and then of these peers. */
  function AfterLookup(m: Manager, h: Header, peers: seq<nat>): Manager
    requires WellFormed(m.tables.headers)
  {
    Run(m, [OnEvent(IncomingNewBlockHeader(h)), LookupReady(Some(peers))])
  }

  lemma AfterLookupIs(m: Manager, h: Header, peers: seq<nat>)
    requires WellFormed(m.tables.headers)
    ensures Next(m, OnEvent(IncomingNewBlockHeader(h))).tables.headers != map[]
    ensures AfterLookup(m, h, peers) == Next(Next(m, OnEvent(IncomingNewBlockHeader(h))), LookupReady(Some(peers)))
  {
    var first, second := OnEvent(IncomingNewBlockHeader(h)), LookupReady(Some(peers));
    NextKeepsChain(m, first);
    RunSnoc(m, [first], second);
    assert [first] + [second] == [first, second];
    RunSnoc(m, [], first);
    assert [] + [first] == [first];
  }

  ghost predicate Idle(m: Manager) {
    WellFormed(m.tables.headers) && m.lookup.None? && !m.pending
  }

  lemma HearsOfGap(m: Manager, h: Header)
    requires Idle(m) && Last(m.tables.headers) + 1 < h.number
    ensures
      var m1 := Next(m, OnEvent(IncomingNewBlockHeader(h)));
      && m1.tables == m.tables && m1.syncs == m.syncs && m1.nextSync == m.nextSync
      && m1.pending && m1.lookup == Some(h)
      && m1.lookupsStarted == m.lookupsStarted + 1 && m1.syncsSucceeded == m.syncsSucceeded
  {
    LookupStartsIff(m, h);
    TryAddOutcome(m.tables, h);
  }

  lemma LookupFinds(m: Manager, h: Header, peers: seq<nat>)
    requires WellFormed(m.tables.headers) && m.lookup == Some(h)
    ensures
      var m' := OnLookup(m, Some(peers));
      && m' == m.(lookup := None, syncs := m'.syncs, nextSync := m'.nextSync)
      && (forall i | 0 <= i < |peers| :: Syncs(m', m.nextSync + i, peers[i], Last(m.tables.headers), h.number))
      && (m.syncs == map[] ==> |m'.syncs| == |peers|)
  {
    OneSyncPerPeer(m.(lookup := None), h.number, peers);
    StartSyncsOnlyStarts(m.(lookup := None), h.number, peers);
    if m.syncs == map[] {
      OneSyncForEachPeer(m.(lookup := None), h.number, peers);
    }
  }

  lemma GapLeadsToSyncs(m: Manager, h: Header, peers: seq<nat>)
    requires Idle(m) && Last(m.tables.headers) + 1 < h.number
    ensures
      var m' := AfterLookup(m, h, peers);
      && m'.tables == m.tables && m'.pending && m'.lookup.None?
      && m'.lookupsStarted == m.lookupsStarted + 1 && m'.syncsSucceeded == m.syncsSucceeded
      && (forall i | 0 <= i < |peers| :: Syncs(m', m.nextSync + i, peers[i], Last(m.tables.headers), h.number))
      && (m.syncs == map[] ==> |m'.syncs| == |peers|)
  {
    HearsOfGap(m, h);
    AfterLookupIs(m, h, peers);
    LookupFinds(Next(m, OnEvent(IncomingNewBlockHeader(h))), h, peers);
  }

  lemma GapLeadsToSync(m: Manager, h: Header, peer: nat)
    requires Idle(m) && Last(m.tables.headers) + 1 < h.number
    ensures
      var m' := AfterLookup(m, h, [peer]);
      && m'.tables == m.tables && m'.pending && m'.lookup.None?
      && m'.syncsSucceeded == m.syncsSucceeded
      && Syncs(m', m.nextSync, peer, Last(m.tables.headers), h.number)
      && (m.syncs == map[] ==> |m'.syncs| == 1)
  {
    GapLeadsToSyncs(m, h, [peer]);
    assert Syncs(AfterLookup(m, h, [peer]), m.nextSync + 0, [peer][0], Last(m.tables.headers), h.number);
  }

  /** With two peers the promise of one sync at a time fails from a fresh
      manager: a gap, a lookup that finds two peers, and the first sync to succeed
      clears the flag under the second; the next gap then starts another lookup
      beside it. */
  lemma TwoPeersBreakTheGate(
    t: Tables, pool: map<string, Transaction>, h: Header, peer0: nat, peer1: nat, headers: seq<Header>, next: Header)
    requires WellFormed(t.headers) && Last(t.headers) + 1 < h.number
    ensures
      var gap := [OnEvent(IncomingNewBlockHeader(h)), LookupReady(Some([peer0, peer1]))];
      var run := gap + [SyncReady(0, Some(headers))];
      var m := Run(NewManager(t, pool), run);
      && !m.pending && InFlight(m) == 1
      && 1 in m.syncs && m.syncs[1].output.Running? && m.syncs[1].peer == peer1
      && (Last(m.tables.headers) + 1 < next.number ==>
            var m' := Next(m, OnEvent(IncomingNewBlockHeader(next)));
            InFlight(m') == 2 && m'.lookup == Some(next))
  {
    var m0 := NewManager(t, pool);
    GapLeadsToSyncs(m0, h, [peer0, peer1]);
    var m1 := AfterLookup(m0, h, [peer0, peer1]);
    assert Syncs(m1, 0 + 0, [peer0, peer1][0], Last(t.headers), h.number);
    assert Syncs(m1, 0 + 1, [peer0, peer1][1], Last(t.headers), h.number);
    OneSyncFewer(m1, 0);
    RunSnoc(m0, [OnEvent(IncomingNewBlockHeader(h)), LookupReady(Some([peer0, peer1]))], SyncReady(0, Some(headers)));
    LookupStartsIff(Next(m1, SyncReady(0, Some(headers))), next);
  }

  /** The manager after the sync it knows as `id` ran through `steps` and ended. */
  function AfterSync(m: Manager, id: nat, steps: seq<Sync.Step>): Manager
    requires m.tables.headers != map[] && id in m.syncs
  {
    Next(m, SyncReady(id, ResultOf(Sync.Exec(m.syncs[id], steps).output)))
  }

  /** The sync an idle manager starts after hearing of `h`. */
  function SyncFor(m: Manager, h: Header, peer: nat): Sync.Sync
    requires m.tables.headers != map[]
  {
    Sync.Build(peer, Last(m.tables.headers), h.number, Sync.REQUEST_LIMIT, Sync.MAX_CONCURRENT_LIMIT)
  }

  /** The peer's tip reaches into the last batch of that sync. */
  ghost predicate Covers(peer: HeaderTable, m: Manager, h: Header)
    requires m.tables.headers != map[] && peer != map[] && Last(m.tables.headers) < h.number
  {
    EndToEnd.LastBatchStart(Last(m.tables.headers), h.number, Sync.REQUEST_LIMIT) <= Last(peer)
  }

  /** From gap to caught up, through the whole manager. An idle node hears of a
      block with a gap below it; the lookup yields one honest peer whose linked
      chain the node's tip is on; the sync runs against that peer in any order of
      replies until it ends, with no other add meanwhile. The node is then free
      to start the next lookup if and only if the peer's tip reaches the last
      batch. If so the peer's blocks are on top of the node's own and nothing
      else has changed, up to min(peer tip, heard block) exactly when the batches
      came in order; if not, nothing has changed at all and the node, unless
      another sync is running, is stranded. */
  lemma CatchesUp(m: Manager, h: Header, peerId: nat, peer: HeaderTable, steps: seq<Sync.Step>)
    requires Idle(m) && Last(m.tables.headers) + 1 < h.number
    requires WellFormed(peer) && Linked(peer) && EndToEnd.OnPeerChain(m.tables.headers, peer)
    requires EndToEnd.HonestRun(peer, SyncFor(m, h, peerId), steps)
    requires !Sync.Exec(SyncFor(m, h, peerId), steps).output.Running?
    ensures m.nextSync in AfterLookup(m, h, [peerId]).syncs
    ensures
      var m1 := AfterLookup(m, h, [peerId]);
      var m2 := AfterSync(m1, m.nextSync, steps);
      var answers := Sync.Exec(m1.syncs[m.nextSync], steps).answers;
      && (!m2.pending <==> Covers(peer, m, h))
      && (if Covers(peer, m, h) then
            && EndToEnd.Grafted(m.tables.headers, peer, m2.tables.headers)
            && Last(m2.tables.headers)
               == EndToEnd.TipAfter(Last(m.tables.headers), h.number, Sync.REQUEST_LIMIT, Last(peer),
                                    EndToEnd.InOrderUpTo(answers, 0))
            && (Last(m2.tables.headers) == Min(Last(peer), h.number) <==> EndToEnd.InIssueOrder(answers))
          else
            m2.tables == m.tables && (m.syncs == map[] ==> !Healthy(m2)))
      && m2.lookup.None? && m.nextSync !in m2.syncs
  {
    GapLeadsToSync(m, h, peerId);
    EndToEnd.HonestSyncSucceedsIff(
      peer, peerId, Last(m.tables.headers), h.number, Sync.REQUEST_LIMIT, Sync.MAX_CONCURRENT_LIMIT, steps);
    if Covers(peer, m, h) {
      EndToEnd.SyncThenApply(m.tables, peer, peerId, h.number, Sync.REQUEST_LIMIT, Sync.MAX_CONCURRENT_LIMIT, steps);
    } else if m.syncs == map[] {
      OneSyncFewer(AfterLookup(m, h, [peerId]), m.nextSync);
    }
  }

  lemma EndedWell(m: Manager, h: Header, peerId: nat, peer: HeaderTable, steps: seq<Sync.Step>)
    requires Idle(m) && Last(m.tables.headers) + 1 < h.number && WellFormed(peer)
    requires CompletionOrder.EndsWell(peer, SyncFor(m, h, peerId), steps)
    ensures m.nextSync in AfterLookup(m, h, [peerId]).syncs
    ensures
      var m2 := AfterSync(AfterLookup(m, h, [peerId]), m.nextSync, steps);
      && m2.tables == EndToEnd.Apply(m.tables, Sync.Exec(SyncFor(m, h, peerId), steps).output.headers).0
      && !m2.pending && m2.syncsSucceeded == m.syncsSucceeded + 1
      && (CaughtUpFully(m2, peer, h) <==> CompletionOrder.BringsAll(m.tables, peer, SyncFor(m, h, peerId), steps))
  {
    GapLeadsToSync(m, h, peerId);
    EndToEnd.ApplyKeepsWellFormed(m.tables, Sync.Exec(SyncFor(m, h, peerId), steps).output.headers);
  }

  /** Whether the node catches up fully is settled before the first request: with
      the default limits every run that ends well brings it to min(peer tip, heard
      block) if and only if the gap is a single batch. */
  lemma AlwaysCatchesUpFullyIff(m: Manager, h: Header, peerId: nat, peer: HeaderTable)
    requires Idle(m) && Last(m.tables.headers) + 1 < h.number
    requires WellFormed(peer) && Linked(peer) && EndToEnd.OnPeerChain(m.tables.headers, peer) && Covers(peer, m, h)
    ensures Syncs(AfterLookup(m, h, [peerId]), m.nextSync, peerId, Last(m.tables.headers), h.number)
    ensures
      var m1 := AfterLookup(m, h, [peerId]);
      (forall steps | CompletionOrder.EndsWell(peer, SyncFor(m, h, peerId), steps) ::
         CaughtUpFully(AfterSync(m1, m.nextSync, steps), peer, h))
      <==> h.number <= Last(m.tables.headers) + Sync.REQUEST_LIMIT
  {
    GapLeadsToSync(m, h, peerId);
    var m1 := AfterLookup(m, h, [peerId]);
    if h.number <= Last(m.tables.headers) + Sync.REQUEST_LIMIT {
      forall steps | CompletionOrder.EndsWell(peer, SyncFor(m, h, peerId), steps)
        ensures CaughtUpFully(AfterSync(m1, m.nextSync, steps), peer, h)
      {
        EndedWell(m, h, peerId, peer, steps);
        CompletionOrder.OneAtATimeBringsAll(
          m.tables, peer, peerId, h.number, Sync.REQUEST_LIMIT, Sync.MAX_CONCURRENT_LIMIT, steps);
      }
    } else {
      SuccessMayApplyNothing(m, h, peerId, peer);
      CompletionOrder.LastBatchIsAhead(Last(m.tables.headers), h.number, Sync.REQUEST_LIMIT);
      var steps :|
        && CompletionOrder.EndsWell(peer, SyncFor(m, h, peerId), steps)
        && AfterSync(m1, m.nextSync, steps).tables == m.tables;
      assert !CaughtUpFully(AfterSync(m1, m.nextSync, steps), peer, h);
    }
  }

  ghost predicate CaughtUpFully(m: Manager, peer: HeaderTable, h: Header)
    requires peer != map[]
  {
    m.tables.headers != map[] && Last(m.tables.headers) == Min(Last(peer), h.number)
  }

  /** And when it is not, a sync can end well and apply nothing at all, yet it
      counts as a success and clears the flag. */
  lemma SuccessMayApplyNothing(m: Manager, h: Header, peerId: nat, peer: HeaderTable)
    requires Idle(m) && Last(m.tables.headers) + Sync.REQUEST_LIMIT < h.number
    requires WellFormed(peer) && Linked(peer) && EndToEnd.OnPeerChain(m.tables.headers, peer) && Covers(peer, m, h)
    ensures Syncs(AfterLookup(m, h, [peerId]), m.nextSync, peerId, Last(m.tables.headers), h.number)
    ensures
      var m1 := AfterLookup(m, h, [peerId]);
      m1.tables.headers != map[] &&
      exists steps ::
        && CompletionOrder.EndsWell(peer, SyncFor(m, h, peerId), steps)
        && var m2 := AfterSync(m1, m.nextSync, steps);
           m2.tables == m.tables && !m2.pending && m2.syncsSucceeded == m.syncsSucceeded + 1
  {
    GapLeadsToSync(m, h, peerId);
    CompletionOrder.MayBringNothing(
      m.tables, peer, peerId, h.number, Sync.REQUEST_LIMIT, Sync.MAX_CONCURRENT_LIMIT);
    var steps :|
      && CompletionOrder.EndsWell(peer, SyncFor(m, h, peerId), steps)
      && EndToEnd.Apply(m.tables, Sync.Exec(SyncFor(m, h, peerId), steps).output.headers) == (m.tables, 0);
    EndedWell(m, h, peerId, peer, steps);
  }

  /** An honest peer that does not reach into the last batch gives nothing at
      all, whether or not its chain fits: whatever came before is thrown away with
      the sync, the chain stays as it was, and, this having been the only work in
      flight, the node is stranded with its flag set. */
  lemma ShortPeerStrands(m: Manager, h: Header, peerId: nat, peer: HeaderTable, steps: seq<Sync.Step>)
    requires Idle(m) && m.syncs == map[]
    requires Last(m.tables.headers) + 1 < h.number && WellFormed(peer) && !Covers(peer, m, h)
    requires EndToEnd.HonestRun(peer, SyncFor(m, h, peerId), steps)
    requires !Sync.Exec(SyncFor(m, h, peerId), steps).output.Running?
    ensures m.nextSync in AfterLookup(m, h, [peerId]).syncs
    ensures Sync.Exec(AfterLookup(m, h, [peerId]).syncs[m.nextSync], steps).output == Sync.EmptyResponse
    ensures
      var m2 := AfterSync(AfterLookup(m, h, [peerId]), m.nextSync, steps);
      m2.tables == m.tables && !Healthy(m2)
  {
    GapLeadsToSync(m, h, peerId);
    EndToEnd.HonestSyncSucceedsIff(
      peer, peerId, Last(m.tables.headers), h.number, Sync.REQUEST_LIMIT, Sync.MAX_CONCURRENT_LIMIT, steps);
    OneSyncFewer(AfterLookup(m, h, [peerId]), m.nextSync);
  }
}
