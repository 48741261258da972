// Batches are queued in the order their replies come in (src/tasks/sync_header.rs:142),
// while the loop that applies them takes that for the order of the chain
// (src/net/chain.rs:285-288). When that is so, and what happens when it is not.
module CompletionOrder {
  import opened Interface
  import opened BlockTree
  import opened SyncHeaders
  import opened EndToEnd

  // ----- One request at a time -----

  /** Every answer so far came in issue order, and at most the next is due. */
  ghost predicate Sequential(s: Sync) {
    && InIssueOrder(s.answers)
    && (s.output.Running? ==>
          if s.inFlight == {} then |s.issued| == |s.answers|
          else s.inFlight == {|s.answers|} && |s.issued| == |s.answers| + 1)
  }

  lemma NextKeepsSequential(s: Sync, step: Step)
    requires Inv(s) && AtMostOneInFlight(s) && Sequential(s)
    ensures Sequential(Next(s, step))
  {
    if step.Issue? && OnIssue(s) != s {
      IssuesAlone(s);
    }
  }

  lemma {:induction false} ExecKeepsSequential(s: Sync, steps: seq<Step>)
    requires Inv(s) && AtMostOneInFlight(s) && Sequential(s)
    ensures Sequential(Exec(s, steps))
    decreases |steps|
  {
    if steps == [] {
    } else {
      NextKeepsInv(s, steps[0]);
      NextAtMostOneInFlight(s, steps[0]);
      NextKeepsSequential(s, steps[0]);
      ExecKeepsSequential(Next(s, steps[0]), steps[1..]);
    }
  }

  // ----- A run that comes back out of order -----

  /** The peer has a block for every batch of the sync. */
  ghost predicate Covers(peer: HeaderTable, s: Sync) {
    && WellFormed(peer) && Inv(s) && s.start < s.target
    && LastBatchStart(s.start, s.target, s.requestLimit) <= Last(peer)
  }

  /** The honest reply to request `id`. */
  function Honest(peer: HeaderTable, s: Sync, id: nat): Step
    requires id < |s.issued|
  {
    Receive(id, Delivered(HonestAnswer(peer, s.issued[id])))
  }

  lemma HonestReplyIsQueued(peer: HeaderTable, s: Sync, id: nat)
    requires Covers(peer, s) && s.output.Running? && id in s.inFlight
    ensures
      var s' := Next(s, Honest(peer, s, id));
      && HonestStep(peer, s, Honest(peer, s, id))
      && Covers(peer, s') && s'.output.Running? && s'.inFlight == s.inFlight - {id}
      && s'.issued == s.issued && s' != s && s.answers <= s'.answers
      && s'.answers == s.answers + [Answer(id, HonestAnswer(peer, s.issued[id]))]
  {
    NextKeepsInv(s, Honest(peer, s, id));
    HonestAnswerEmptyIff(peer, s, id);
    BatchBeforeLast(s, id);
  }

  lemma IssueIsEnabled(peer: HeaderTable, s: Sync)
    requires Covers(peer, s) && s.output.Running? && |s.inFlight| < s.maxConcurrent && s.localHead < s.target
    ensures
      var s' := Next(s, Issue);
      && Covers(peer, s') && s'.output.Running? && s'.inFlight == s.inFlight + {|s.issued|}
      && |s'.issued| == |s.issued| + 1 && s' != s && s'.answers == s.answers
  {
    NextKeepsInv(s, Issue);
  }

  /** A running sync against a peer with enough blocks can be brought to an end
      with honest replies, whatever has come so far. */
  lemma {:induction false} CanComplete(peer: HeaderTable, s: Sync) returns (steps: seq<Step>)
    requires Covers(peer, s) && s.output.Running?
    ensures HonestRun(peer, s, steps) && Exec(s, steps).output.Synced?
    ensures s.answers <= Exec(s, steps).answers
    decreases Measure(s)
  {
    if s.inFlight != {} {
      var id :| id in s.inFlight;
      HonestReplyIsQueued(peer, s, id);
      steps := CompleteAfter(peer, s, Honest(peer, s, id));
    } else if s.localHead < s.target {
      IssueIsEnabled(peer, s);
      steps := CompleteAfter(peer, s, Issue);
    } else {
      steps := [Finish];
      assert Exec(s, steps) == Exec(Next(s, Finish), []);
    }
  }

  lemma {:induction false} CompleteAfter(peer: HeaderTable, s: Sync, step: Step) returns (steps: seq<Step>)
    requires Covers(peer, s) && HonestStep(peer, s, step) && Next(s, step) != s
    requires Covers(peer, Next(s, step)) && Next(s, step).output.Running? && s.answers <= Next(s, step).answers
    ensures HonestRun(peer, s, steps) && Exec(s, steps).output.Synced?
    ensures s.answers <= Exec(s, steps).answers
    decreases Measure(s), 0
  {
    MoveUsesBudget(s, step);
    var rest := CanComplete(peer, Next(s, step));
    steps := [step] + rest;
    assert steps[1..] == rest;
  }

  /** Batches 0 and 1 have both been answered, the second one first. */
  lemma SwappedStart(peer: HeaderTable, s0: Sync) returns (steps: seq<Step>)
    requires Covers(peer, s0) && s0.output.Running? && s0.issued == [] && s0.inFlight == {} && s0.answers == []
    requires s0.localHead == s0.start && s0.start + s0.requestLimit < s0.target && 2 <= s0.maxConcurrent
    ensures HonestRun(peer, s0, steps)
    ensures
      var s := Exec(s0, steps);
      Covers(peer, s) && s.output.Running? && s.answers != [] && s.answers[0].id == 1
  {
    IssueIsEnabled(peer, s0);
    var s1 := Next(s0, Issue);
    IssueIsEnabled(peer, s1);
    var s2 := Next(s1, Issue);
    var second := Honest(peer, s2, 1);
    HonestReplyIsQueued(peer, s2, 1);
    steps := [Issue, Issue, second];
    RunOfThree(peer, s0, Issue, Issue, second);
  }

  lemma RunOfThree(peer: HeaderTable, s: Sync, a: Step, b: Step, c: Step)
    requires HonestStep(peer, s, a) && HonestStep(peer, Next(s, a), b) && HonestStep(peer, Next(Next(s, a), b), c)
    ensures HonestRun(peer, s, [a, b, c]) && Exec(s, [a, b, c]) == Next(Next(Next(s, a), b), c)
  {
    assert [a, b, c][1..] == [b, c] && [b, c][1..] == [c] && [c][1..] == [];
    var s2 := Next(Next(s, a), b);
    assert HonestRun(peer, s2, [c]) && Exec(s2, [c]) == Exec(Next(s2, c), []);
    assert HonestRun(peer, Next(s, a), [b, c]);
  }

  lemma {:induction false} HonestRunConcat(peer: HeaderTable, s: Sync, a: seq<Step>, b: seq<Step>)
    requires HonestRun(peer, s, a) && HonestRun(peer, Exec(s, a), b)
    ensures HonestRun(peer, s, a + b)
    decreases |a|
  {
    if a == [] {
      assert a + b == b;
    } else {
      assert (a + b)[1..] == a[1..] + b;
      HonestRunConcat(peer, Next(s, a[0]), a[1..], b);
    }
  }

  /** The run ends well, every reply in it being the peer's own. */
  ghost predicate EndsWell(peer: HeaderTable, s0: Sync, steps: seq<Step>) {
    HonestRun(peer, s0, steps) && Exec(s0, steps).output.Synced?
  }

  /** Applied to `t`, what the run brought gives min(peer tip, target). */
  ghost predicate BringsAll(t: Tables, peer: HeaderTable, s0: Sync, steps: seq<Step>)
    requires WellFormed(t.headers) && peer != map[] && Exec(s0, steps).output.Synced?
  {
    ApplyKeepsWellFormed(t, Exec(s0, steps).output.headers);
    Last(Apply(t, Exec(s0, steps).output.headers).0.headers) == Min(Last(peer), s0.target)
  }

  /** Whenever a sync spans more than one batch and may have two in flight, some
      run against a peer that has all the blocks asked for ends well and brings
      nothing: the first batch applied is not the first one due. */
  lemma MayBringNothing(t: Tables, peer: HeaderTable, id: nat, target: nat, L: nat, W: nat)
    requires WellFormed(t.headers) && WellFormed(peer) && Linked(peer) && OnPeerChain(t.headers, peer)
    requires 1 <= L && 2 <= W && Last(t.headers) + L < target
    requires LastBatchStart(Last(t.headers), target, L) <= Last(peer)
    ensures
      var s0 := Build(id, Last(t.headers), target, L, W);
      exists steps :: && EndsWell(peer, s0, steps)
                      && InOrderUpTo(Exec(s0, steps).answers, 0) == 0
                      && Apply(t, Exec(s0, steps).output.headers) == (t, 0)
  {
    var s0 := Build(id, Last(t.headers), target, L, W);
    InvAtBuild(id, Last(t.headers), target, L, W);
    var steps := SwappedRun(peer, s0);
    assert EndsWell(peer, s0, steps);
    ExecKeepsHonestInv(peer, s0, steps);
    ExecKeepsInv(s0, steps);
    FirstOutOfTurnBringsNothing(t, peer, Exec(s0, steps));
  }

  lemma SwappedRun(peer: HeaderTable, s0: Sync) returns (steps: seq<Step>)
    requires Covers(peer, s0) && s0.output.Running? && s0.issued == [] && s0.inFlight == {} && s0.answers == []
    requires s0.localHead == s0.start && s0.start + s0.requestLimit < s0.target && 2 <= s0.maxConcurrent
    ensures EndsWell(peer, s0, steps)
    ensures Exec(s0, steps).answers != [] && Exec(s0, steps).answers[0].id == 1
  {
    var start := SwappedStart(peer, s0);
    var rest := CanComplete(peer, Exec(s0, start));
    steps := start + rest;
    HonestRunConcat(peer, s0, start, rest);
    ExecConcat(s0, start, rest);
    assert Exec(s0, steps).answers[0] == Exec(s0, start).answers[0];
  }

  lemma FirstOutOfTurnBringsNothing(t: Tables, peer: HeaderTable, s: Sync)
    requires WellFormed(t.headers) && WellFormed(peer) && HonestInv(peer, s) && s.output.Synced?
    requires Last(t.headers) == s.start && s.answers != [] && 0 < s.answers[0].id
    ensures InOrderUpTo(s.answers, 0) == 0
    ensures Apply(t, s.output.headers) == (t, 0)
  {
    AnswersArePeerParts(peer, s);
    StopsAtGap(t, peer, s.start, s.target, s.requestLimit, s.answers[0], 0, Flatten(s.answers[1..]));
  }

  lemma OneAtATimeBringsAll(t: Tables, peer: HeaderTable, id: nat, target: nat, L: nat, W: nat, steps: seq<Step>)
    requires WellFormed(t.headers) && WellFormed(peer) && Linked(peer) && OnPeerChain(t.headers, peer)
    requires 1 <= L && 1 <= W && Last(t.headers) < target
    requires target <= Last(t.headers) + L || W == 1
    requires EndsWell(peer, Build(id, Last(t.headers), target, L, W), steps)
    ensures BringsAll(t, peer, Build(id, Last(t.headers), target, L, W), steps)
  {
    var s0 := Build(id, Last(t.headers), target, L, W);
    InvAtBuild(id, Last(t.headers), target, L, W);
    ExecKeepsSequential(s0, steps);
    SyncThenApply(t, peer, id, target, L, W, steps);
  }

  /** Which syncs are safe, in terms known before the first request: against an
      honest linked peer that reaches the last batch, every run that ends well
      brings the tip to min(peer tip, target) if and only if the sync is a single
      batch or has at most one request in flight. */
  lemma EveryRunBringsAllIff(t: Tables, peer: HeaderTable, id: nat, target: nat, L: nat, W: nat)
    requires WellFormed(t.headers) && WellFormed(peer) && Linked(peer) && OnPeerChain(t.headers, peer)
    requires 1 <= L && 1 <= W && Last(t.headers) < target
    requires LastBatchStart(Last(t.headers), target, L) <= Last(peer)
    ensures
      var s0 := Build(id, Last(t.headers), target, L, W);
      (forall steps | EndsWell(peer, s0, steps) :: BringsAll(t, peer, s0, steps))
      <==> target <= Last(t.headers) + L || W == 1
  {
    var s0 := Build(id, Last(t.headers), target, L, W);
    if target <= Last(t.headers) + L || W == 1 {
      forall steps | EndsWell(peer, s0, steps)
        ensures BringsAll(t, peer, s0, steps)
      {
        OneAtATimeBringsAll(t, peer, id, target, L, W, steps);
      }
    } else {
      MayBringNothing(t, peer, id, target, L, W);
      var steps :| EndsWell(peer, s0, steps) && Apply(t, Exec(s0, steps).output.headers) == (t, 0);
      LastBatchIsAhead(Last(t.headers), target, L);
      assert !BringsAll(t, peer, s0, steps);
    }
  }

  lemma LastBatchIsAhead(local: nat, target: nat, L: nat)
    requires 1 <= L && local < target
    ensures local < LastBatchStart(local, target, L)
  {
    BatchesBounds(target - local, L);
  }
}
