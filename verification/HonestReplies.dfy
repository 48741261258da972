// The reply that finds no receiver, when every reply is an honest peer's own
// answer (src/net/network.rs:395-420, src/tasks/sync_header.rs:127-130).
module HonestReplies {
  import opened Interface
  import opened BlockTree
  import opened Replies
  import EndToEnd
  import Sync = SyncHeaders

  // ----- Runs in which the swarm reports only the peer's answers -----

  function Honest(peer: HeaderTable, s: State, id: nat): Sync.Reply
    requires id < |s.sync.issued|
  {
    Sync.Delivered(EndToEnd.HonestAnswer(peer, s.sync.issued[id]))
  }

  ghost predicate HonestStep(peer: HeaderTable, s: State, step: Step) {
    step.SwarmEvent? && step.id < |s.sync.issued| ==> step.reply == Honest(peer, s, step.id)
  }

  ghost predicate HonestRun(peer: HeaderTable, s: State, steps: seq<Step>)
    decreases |steps|
  {
    steps != [] ==> HonestStep(peer, s, steps[0]) && HonestRun(peer, Next(s, steps[0]), steps[1..])
  }

  lemma {:induction false} HonestRunConcat(peer: HeaderTable, s: State, a: seq<Step>, b: seq<Step>)
    requires HonestRun(peer, s, a) && HonestRun(peer, Run(s, a), b)
    ensures HonestRun(peer, s, a + b)
    decreases |a|
  {
    if a == [] {
      assert a + b == b;
    } else {
      assert (a + b)[1..] == a[1..] + b;
      HonestRunConcat(peer, Next(s, a[0]), a[1..], b);
    }
  }

  // ----- An abort takes a short peer -----

  ghost predicate HonestInv(peer: HeaderTable, s: State) {
    && Inv(s) && EndToEnd.HonestInv(peer, s.sync)
    && (forall id | id in s.mail :: id < |s.sync.issued| && s.mail[id] == Honest(peer, s, id))
  }

  lemma SyncStepKeepsHonestInv(peer: HeaderTable, s: State, step: Step)
    requires HonestInv(peer, s) && !s.aborted && (step.Issue? || step.Finish?)
    ensures HonestInv(peer, Next(s, step)) && Sync.SamePlan(s.sync, Next(s, step).sync)
  {
    NextKeepsInv(s, step);
    EndToEnd.NextKeepsHonestInv(peer, s.sync, if step.Issue? then Sync.Issue else Sync.Finish);
  }

  lemma TakeKeepsHonestInv(peer: HeaderTable, s: State, id: nat)
    requires HonestInv(peer, s) && !s.aborted && id in s.mail
    ensures HonestInv(peer, Next(s, Take(id))) && Sync.SamePlan(s.sync, Next(s, Take(id)).sync)
  {
    NextKeepsInv(s, Take(id));
    EndToEnd.NextKeepsHonestInv(peer, s.sync, Sync.Receive(id, s.mail[id]));
  }

  lemma SwarmEventKeepsHonestInv(peer: HeaderTable, s: State, id: nat, reply: Sync.Reply)
    requires HonestInv(peer, s) && HonestStep(peer, s, SwarmEvent(id, reply)) && !s.aborted
    ensures HonestInv(peer, Next(s, SwarmEvent(id, reply)))
    ensures Next(s, SwarmEvent(id, reply)).sync == s.sync
  {
    SwarmEventKeepsInv(s, id, reply);
    if Filed(s, id) {
      assert id in s.sync.inFlight;
    }
  }

  lemma NextKeepsHonestInv(peer: HeaderTable, s: State, step: Step)
    requires HonestInv(peer, s) && HonestStep(peer, s, step)
    ensures HonestInv(peer, Next(s, step)) && Sync.SamePlan(s.sync, Next(s, step).sync)
  {
    if !s.aborted {
      match step
      case Issue => SyncStepKeepsHonestInv(peer, s, step);
      case Finish => SyncStepKeepsHonestInv(peer, s, step);
      case Take(id) =>
        if id in s.mail {
          TakeKeepsHonestInv(peer, s, id);
        }
      case SwarmEvent(id, reply) => SwarmEventKeepsHonestInv(peer, s, id, reply);
      case Command(_) => NextKeepsInv(s, step);
    }
  }

  lemma {:induction false} RunKeepsHonestInv(peer: HeaderTable, s: State, steps: seq<Step>)
    requires HonestInv(peer, s) && HonestRun(peer, s, steps)
    ensures HonestInv(peer, Run(s, steps)) && Sync.SamePlan(s.sync, Run(s, steps).sync)
    decreases |steps|
  {
    if steps == [] {
    } else {
      NextKeepsHonestInv(peer, s, steps[0]);
      RunKeepsHonestInv(peer, Next(s, steps[0]), steps[1..]);
    }
  }

  lemma AbortMeansShortPeer(peer: HeaderTable, s: State)
    requires WellFormed(peer) && HonestInv(peer, s) && s.aborted && s.sync.start < s.sync.target
    ensures Last(peer) < EndToEnd.LastBatchStart(s.sync.start, s.sync.target, s.sync.requestLimit)
  {
    assert s.sync.output.EmptyResponse?;
    var k: nat :| EndToEnd.EmptyFor(peer, s.sync, k);
    EndToEnd.EmptyMeansShortPeer(peer, s.sync, k);
  }

  // ----- And a short peer is enough -----

  /** Everything issued so far has been answered and taken in. */
  ghost predicate Between(peer: HeaderTable, s: State) {
    && WellFormed(peer) && HonestInv(peer, s)
    && s.sync.output.Running? && !s.aborted && s.sync.inFlight == {}
  }

  lemma NothingOnItsWay(peer: HeaderTable, s: State)
    requires Between(peer, s)
    ensures s.commands == {} && s.mail == map[]
  {
    forall id
      ensures id !in s.commands && id !in s.mail
    {
      assert id !in s.sync.inFlight;
    }
    assert s.mail.Keys == {};
  }

  /** The request after the last one issued. */
  lemma IssueSends(peer: HeaderTable, s: State)
    requires WellFormed(peer) && HonestInv(peer, s) && s.sync.output.Running? && !s.aborted
    requires |s.sync.inFlight| < s.sync.maxConcurrent
    requires s.sync.start + Sync.Span(|s.sync.issued|, s.sync.requestLimit) < s.sync.target
    ensures
      var k := |s.sync.issued|;
      var s' := Next(s, Issue);
      && HonestInv(peer, s') && s'.sync.output.Running? && !s'.aborted && Sync.SamePlan(s.sync, s'.sync)
      && |s'.sync.issued| == k + 1 && s'.sync.issued[..k] == s.sync.issued
      && s'.sync.inFlight == s.sync.inFlight + {k} && k !in s.sync.inFlight
      && s'.commands == s.commands + {k} && s'.mail == s.mail
      && s'.sync.localHead > s.sync.localHead
  {
    SyncStepKeepsHonestInv(peer, s, Issue);
    assert |s.sync.issued| !in s.sync.inFlight;
  }

  /** The three steps that bring a reply from the swarm to the sync. */
  function Bring(id: nat, reply: Sync.Reply): seq<Step> {
    [Command(id), SwarmEvent(id, reply)] + [Take(id)]
  }

  lemma BringIsHonest(peer: HeaderTable, s: State, id: nat)
    requires id < |s.sync.issued|
    ensures HonestRun(peer, s, Bring(id, Honest(peer, s, id)))
  {
    var steps := Bring(id, Honest(peer, s, id));
    assert steps[1..][1..] == [Take(id)] && [Take(id)][1..] == [];
    var s1 := Next(s, Command(id));
    assert HonestRun(peer, Next(s1, steps[1]), [Take(id)]);
    assert HonestRun(peer, s1, steps[1..]);
  }

  lemma IssueRun(peer: HeaderTable, s: State)
    ensures HonestRun(peer, s, [Issue]) && Run(s, [Issue]) == Next(s, Issue)
    ensures HonestRun(peer, s, [Issue, Issue]) && Run(s, [Issue, Issue]) == Next(Next(s, Issue), Issue)
  {
    RunTwo(s, Issue, Issue);
    assert [Issue, Issue][1..] == [Issue] && [Issue][1..] == [];
    assert HonestRun(peer, Next(s, Issue), [Issue]);
    assert Run(s, [Issue]) == Run(Next(s, Issue), []);
  }

  /** The next batch is asked for, answered with some blocks, and taken in. */
  lemma OneMoreBatch(peer: HeaderTable, s: State) returns (steps: seq<Step>)
    requires Between(peer, s)
    requires s.sync.start + Sync.Span(|s.sync.issued|, s.sync.requestLimit) < s.sync.target
    requires s.sync.start + 1 + Sync.Span(|s.sync.issued|, s.sync.requestLimit) <= Last(peer)
    ensures HonestRun(peer, s, steps)
    ensures
      var s' := Run(s, steps);
      && Between(peer, s') && Sync.SamePlan(s.sync, s'.sync)
      && |s'.sync.issued| == |s.sync.issued| + 1 && s.sync.localHead < s'.sync.localHead
  {
    var k := |s.sync.issued|;
    IssueSends(peer, s);
    IssueRun(peer, s);
    var s1 := Next(s, Issue);
    var reply := Honest(peer, s1, k);
    EndToEnd.HonestAnswerEmptyIff(peer, s1.sync, k);
    ReplyReachesSync(s1, k, reply);
    BringIsHonest(peer, s1, k);
    RunKeepsHonestInv(peer, s1, Bring(k, reply));
    RunConcat(s, [Issue], Bring(k, reply));
    HonestRunConcat(peer, s, [Issue], Bring(k, reply));
    steps := [Issue] + Bring(k, reply);
  }

  lemma TwoMoreSent(peer: HeaderTable, s: State)
    requires Between(peer, s) && 2 <= s.sync.maxConcurrent
    requires s.sync.start + Sync.Span(|s.sync.issued| + 1, s.sync.requestLimit) < s.sync.target
    ensures
      var k := |s.sync.issued|;
      var s' := Run(s, [Issue, Issue]);
      && HonestInv(peer, s') && s'.sync.output.Running? && !s'.aborted && Sync.SamePlan(s.sync, s'.sync)
      && |s'.sync.issued| == k + 2 && s'.sync.inFlight == {k, k + 1}
      && s'.commands == {k, k + 1} && s'.mail == map[]
  {
    NothingOnItsWay(peer, s);
    IssueRun(peer, s);
    IssueSends(peer, s);
    IssueSends(peer, Next(s, Issue));
  }

  /** Two batches are asked for, the second has nothing and is answered first: the
      sync ends, and the answer to the first one aborts the program. */
  lemma EmptySecondAborts(peer: HeaderTable, s: State) returns (steps: seq<Step>)
    requires Between(peer, s) && 2 <= s.sync.maxConcurrent
    requires s.sync.start + Sync.Span(|s.sync.issued| + 1, s.sync.requestLimit) < s.sync.target
    requires Last(peer) < s.sync.start + 1 + Sync.Span(|s.sync.issued| + 1, s.sync.requestLimit)
    ensures HonestRun(peer, s, steps) && Run(s, steps).aborted
  {
    var k := |s.sync.issued|;
    TwoMoreSent(peer, s);
    IssueRun(peer, s);
    var s2 := Run(s, [Issue, Issue]);
    EndToEnd.HonestAnswerEmptyIff(peer, s2.sync, k + 1);
    var rest := EmptyAnswerAborts(peer, s2, k + 1, k);
    RunConcat(s, [Issue, Issue], rest);
    HonestRunConcat(peer, s, [Issue, Issue], rest);
    steps := [Issue, Issue] + rest;
  }

  lemma EmptyAnswerAborts(peer: HeaderTable, s: State, id: nat, other: nat) returns (steps: seq<Step>)
    requires HonestInv(peer, s) && s.sync.output.Running? && !s.aborted
    requires id in s.commands && other in s.commands && id != other
    requires id < |s.sync.issued| && other < |s.sync.issued| && EndToEnd.HonestAnswer(peer, s.sync.issued[id]) == []
    ensures HonestRun(peer, s, steps) && Run(s, steps).aborted
  {
    var reply := Honest(peer, s, id);
    ReplyReachesSync(s, id, reply);
    BringIsHonest(peer, s, id);
    var s1 := Run(s, Bring(id, reply));
    assert other in s.sync.inFlight && other !in s.mail;
    assert Unanswered(s1, other);
    var last := Honest(peer, s1, other);
    UnansweredAborts(s1, other, last);
    PathIsHonest(peer, s1, other);
    RunConcat(s, Bring(id, reply), Path(s1, other, last));
    HonestRunConcat(peer, s, Bring(id, reply), Path(s1, other, last));
    steps := Bring(id, reply) + Path(s1, other, last);
  }

  lemma PathIsHonest(peer: HeaderTable, s: State, id: nat)
    requires id < |s.sync.issued|
    ensures HonestRun(peer, s, Path(s, id, Honest(peer, s, id)))
  {
    var event := SwarmEvent(id, Honest(peer, s, id));
    assert [event][1..] == [];
    assert HonestRun(peer, s, [event]) && HonestRun(peer, Next(s, Command(id)), [event]);
    if id in s.commands {
      assert Path(s, id, event.reply)[1..] == [event];
    } else {
      assert Path(s, id, event.reply) == [event];
    }
  }

  /** Batch `k` is the last one of the sync. */
  lemma LastBatchIs(start: nat, target: nat, L: nat, k: nat)
    requires 1 <= L && start + Sync.Span(k, L) < target <= start + Sync.Span(k + 1, L)
    ensures EndToEnd.LastBatchStart(start, target, L) == start + 1 + Sync.Span(k, L)
  {
    Sync.BatchesUnique(target - start, L, k + 1);
    Sync.SpanIsProduct(k, L);
  }

  lemma {:induction false} ShortPeerAborts(peer: HeaderTable, s: State) returns (steps: seq<Step>)
    requires Between(peer, s) && 2 <= s.sync.maxConcurrent
    requires s.sync.start + Sync.Span(|s.sync.issued| + 1, s.sync.requestLimit) < s.sync.target
    requires Last(peer) < EndToEnd.LastBatchStart(s.sync.start, s.sync.target, s.sync.requestLimit)
    ensures HonestRun(peer, s, steps) && Run(s, steps).aborted
    decreases s.sync.target - s.sync.localHead
  {
    var k, L := |s.sync.issued|, s.sync.requestLimit;
    if Last(peer) < s.sync.start + 1 + Sync.Span(k + 1, L) {
      steps := EmptySecondAborts(peer, s);
    } else {
      var first := OneMoreBatch(peer, s);
      if s.sync.target <= s.sync.start + Sync.Span(k + 2, L) {
        LastBatchIs(s.sync.start, s.sync.target, L, k + 1);
        assert false;
      }
      var rest := ShortPeerAborts(peer, Run(s, first));
      RunConcat(s, first, rest);
      HonestRunConcat(peer, s, first, rest);
      steps := first + rest;
    }
  }

  lemma InitIsBetween(peer: HeaderTable, id: nat, local: nat, target: nat, L: nat, W: nat)
    requires WellFormed(peer) && 1 <= L && 1 <= W
    ensures Between(peer, Init(Sync.Build(id, local, target, L, W)))
  {
    InvAtInit(id, local, target, L, W);
  }

  /** Every reply being the peer's own answer, one of them can find its receiver
      dropped, and abort the program, if and only if the download spans more than
      one batch, may have two in flight, and the peer's tip is below the first
      block of the last batch: a peer that is merely short is enough. */
  lemma HonestReplyAbortsIff(peer: HeaderTable, id: nat, local: nat, target: nat, L: nat, W: nat)
    requires WellFormed(peer) && 1 <= L && 1 <= W
    ensures
      var s0 := Init(Sync.Build(id, local, target, L, W));
      (exists steps :: HonestRun(peer, s0, steps) && Run(s0, steps).aborted)
      <==> local + L < target && 2 <= W && Last(peer) < EndToEnd.LastBatchStart(local, target, L)
  {
    var s0 := Init(Sync.Build(id, local, target, L, W));
    InitIsBetween(peer, id, local, target, L, W);
    ReplyAbortsIff(id, local, target, L, W);
    if local + L < target && 2 <= W && Last(peer) < EndToEnd.LastBatchStart(local, target, L) {
      assert Sync.Span(1, L) == Sync.Span(0, L) + L;
      var steps := ShortPeerAborts(peer, s0);
    }
    if steps :| HonestRun(peer, s0, steps) && Run(s0, steps).aborted {
      RunKeepsHonestInv(peer, s0, steps);
      AbortMeansShortPeer(peer, Run(s0, steps));
    }
  }
}
