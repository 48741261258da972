// One sync, the network manager that carries its requests, and the channels
// between them (src/net/provider.rs:67-79, src/net/network.rs:279-300, 395-420).
// A sync that ends drops the receivers of its unanswered requests.
module Replies {
  import Ledger
  import Sync = SyncHeaders

  // A request is a command not yet taken by the network manager, then an entry
  // of the ledger (its id serving as sender and as the swarm's request id), then
  // a reply waiting to be polled, until the sync takes it in.
  datatype State = State(
    sync: Sync.Sync,
    commands: set<nat>,
    ledger: Ledger.State,
    mail: map<nat, Sync.Reply>,
    aborted: bool)

  datatype Step =
    | Issue
    | Command(id: nat)
    | SwarmEvent(id: nat, reply: Sync.Reply)
    | Take(id: nat)
    | Finish

  function Init(sync: Sync.Sync): State {
    State(sync, {}, Ledger.Init(), map[], false)
  }

  /** Receivers are held by the requests in flight, as long as the sync runs. */
  function Open(s: State): set<nat> {
    if s.sync.output.Running? then s.sync.inFlight else {}
  }

  function EventFor(id: nat, reply: Sync.Reply): Ledger.Step {
    if reply.Delivered? then Ledger.HeadersResponse(id) else Ledger.OutboundFailure(id)
  }

  function Next(s: State, step: Step): State {
    if s.aborted then s
    else
      match step
      case Issue =>
        var sync := Sync.Next(s.sync, Sync.Issue);
        s.(sync := sync, commands := s.commands + (sync.inFlight - s.sync.inFlight))
      case Command(id) =>
        if id in s.commands then
          s.(commands := s.commands - {id}, ledger := Ledger.Next(s.ledger, Ledger.GetHeaders(id, id)))
        else s
      case SwarmEvent(id, reply) =>
        if Ledger.Aborts(s.ledger, EventFor(id, reply), Open(s)) then s.(aborted := true)
        else if Ledger.Outbound(id) in s.ledger.pending then
          s.(ledger := Ledger.Next(s.ledger, EventFor(id, reply)), mail := s.mail[id := reply])
        else s
      case Take(id) =>
        if id in s.mail && s.sync.output.Running? then
          s.(sync := Sync.Next(s.sync, Sync.Receive(id, s.mail[id])), mail := s.mail - {id})
        else s
      case Finish => s.(sync := Sync.Next(s.sync, Sync.Finish))
  }

  function Run(s: State, steps: seq<Step>): State
    decreases |steps|
  {
    if steps == [] then s else Run(Next(s, steps[0]), steps[1..])
  }

  lemma {:induction false} RunConcat(s: State, a: seq<Step>, b: seq<Step>)
    ensures Run(s, a + b) == Run(Run(s, a), b)
    decreases |a|
  {
    if a == [] {
      assert a + b == b;
    } else {
      assert (a + b)[1..] == a[1..] + b;
      RunConcat(Next(s, a[0]), a[1..], b);
    }
  }

  lemma RunSnoc(s: State, steps: seq<Step>, step: Step)
    ensures Run(s, steps + [step]) == Next(Run(s, steps), step)
  {
    RunConcat(s, steps, [step]);
    assert Run(Run(s, steps), [step]) == Run(Next(Run(s, steps), step), []);
  }

  // ----- Where the requests in flight are -----

  ghost predicate Filed(s: State, id: nat) {
    Ledger.Outbound(id) in s.ledger.pending
  }

  /** Each request in flight is in exactly one place, and nothing else is there. */
  ghost predicate Tracked(s: State) {
    && (forall id :: id in s.sync.inFlight <==> id in s.commands || Filed(s, id) || id in s.mail)
    && (forall id | id in s.commands :: !Filed(s, id) && id !in s.mail)
    && (forall id | Filed(s, id) :: id !in s.mail && s.ledger.pending[Ledger.Outbound(id)] == id)
  }

  ghost predicate Inv(s: State) {
    Sync.Inv(s.sync) && Tracked(s) && (s.aborted ==> Sync.Abandons(s.sync))
  }

  lemma IssueKeepsInv(s: State)
    requires Inv(s) && !s.aborted
    ensures Inv(Next(s, Issue))
  {
    Sync.NextKeepsInv(s.sync, Sync.Issue);
    var s' := Next(s, Issue);
    if s'.sync.inFlight != s.sync.inFlight {
      assert |s.sync.issued| !in s.sync.inFlight;
    }
  }

  lemma CommandKeepsInv(s: State, id: nat)
    requires Inv(s) && !s.aborted && id in s.commands
    ensures Inv(Next(s, Command(id)))
  {
    var s' := Next(s, Command(id));
    assert s'.ledger.pending == s.ledger.pending[Ledger.Outbound(id) := id];
    forall k
      ensures Filed(s', k) <==> Filed(s, k) || k == id
    {
    }
  }

  /** A reply aborts the program exactly when its request is filed and the sync
      has ended; otherwise it waits to be polled. */
  lemma SwarmEventKeepsInv(s: State, id: nat, reply: Sync.Reply)
    requires Inv(s) && !s.aborted
    ensures Inv(Next(s, SwarmEvent(id, reply)))
    ensures Next(s, SwarmEvent(id, reply)).aborted <==> Filed(s, id) && !s.sync.output.Running?
  {
    var s' := Next(s, SwarmEvent(id, reply));
    if Filed(s, id) {
      assert id in s.sync.inFlight;
      if !s'.aborted {
        assert s'.ledger.pending == s.ledger.pending - {Ledger.Outbound(id)};
        forall k
          ensures Filed(s', k) <==> Filed(s, k) && k != id
        {
        }
      }
    }
  }

  lemma TakeKeepsInv(s: State, id: nat)
    requires Inv(s) && !s.aborted && id in s.mail && s.sync.output.Running?
    ensures Inv(Next(s, Take(id)))
  {
    Sync.NextKeepsInv(s.sync, Sync.Receive(id, s.mail[id]));
    var s' := Next(s, Take(id));
    assert s'.sync.inFlight == s.sync.inFlight - {id};
    forall k
      ensures Filed(s', k) <==> Filed(s, k)
    {
    }
  }

  lemma NextKeepsInv(s: State, step: Step)
    requires Inv(s)
    ensures Inv(Next(s, step))
  {
    if !s.aborted {
      match step
      case Issue => IssueKeepsInv(s);
      case Command(id) =>
        if id in s.commands {
          CommandKeepsInv(s, id);
        }
      case SwarmEvent(id, reply) => SwarmEventKeepsInv(s, id, reply);
      case Take(id) =>
        if id in s.mail && s.sync.output.Running? {
          TakeKeepsInv(s, id);
        }
      case Finish => Sync.NextKeepsInv(s.sync, Sync.Finish);
    }
  }

  lemma NextKeepsOneInFlight(s: State, step: Step)
    requires Inv(s) && Sync.AtMostOneInFlight(s.sync)
    ensures Sync.AtMostOneInFlight(Next(s, step).sync)
  {
    if step.Issue? {
      Sync.NextAtMostOneInFlight(s.sync, Sync.Issue);
    } else if step.Finish? {
      Sync.NextAtMostOneInFlight(s.sync, Sync.Finish);
    } else if step.Take? && step.id in s.mail {
      Sync.NextAtMostOneInFlight(s.sync, Sync.Receive(step.id, s.mail[step.id]));
    }
  }

  lemma {:induction false} OneInFlightNeverAborts(s: State, steps: seq<Step>)
    requires Inv(s) && Sync.AtMostOneInFlight(s.sync)
    ensures !Run(s, steps).aborted
    decreases |steps|
  {
    if steps == [] {
    } else {
      NextKeepsInv(s, steps[0]);
      NextKeepsOneInFlight(s, steps[0]);
      OneInFlightNeverAborts(Next(s, steps[0]), steps[1..]);
    }
  }

  // ----- After the sync has ended -----

  ghost predicate Unanswered(s: State, id: nat) {
    id in s.sync.inFlight && id !in s.mail
  }

  lemma {:induction false} NothingLeftToReplyTo(s: State, steps: seq<Step>)
    requires Inv(s) && !s.sync.output.Running? && !s.aborted
    requires forall id :: !Unanswered(s, id)
    ensures Run(s, steps) == s
    decreases |steps|
  {
    if steps == [] {
    } else {
      NothingMoves(s, steps[0]);
      NothingLeftToReplyTo(s, steps[1..]);
    }
  }

  lemma NothingMoves(s: State, step: Step)
    requires Inv(s) && !s.sync.output.Running? && !s.aborted
    requires forall id :: !Unanswered(s, id)
    ensures Next(s, step) == s
  {
    match step
    case Command(id) => assert !Unanswered(s, id);
    case SwarmEvent(id, _) => assert !Unanswered(s, id) && !Filed(s, id);
    case Issue => assert s.commands + {} == s.commands;
    case _ =>
  }

  /** The path of a request that was still unanswered when its sync ended. */
  function Path(s: State, id: nat, reply: Sync.Reply): seq<Step> {
    (if id in s.commands then [Command(id)] else []) + [SwarmEvent(id, reply)]
  }

  /** The reply to it, whichever it is, aborts the program. */
  lemma UnansweredAborts(s: State, id: nat, reply: Sync.Reply)
    requires Inv(s) && !s.sync.output.Running? && !s.aborted && Unanswered(s, id)
    ensures Run(s, Path(s, id, reply)).aborted
  {
    if id in s.commands {
      CommandKeepsInv(s, id);
      SwarmEventKeepsInv(Next(s, Command(id)), id, reply);
      RunTwo(s, Command(id), SwarmEvent(id, reply));
      assert Path(s, id, reply) == [Command(id), SwarmEvent(id, reply)];
    } else {
      SwarmEventKeepsInv(s, id, reply);
      RunSnoc(s, [], SwarmEvent(id, reply));
    }
  }

  /** Once a sync has ended, some continuation aborts the program if and only if
      a request of it is still unanswered. */
  lemma EndedAbortsIff(s: State)
    requires Inv(s) && !s.sync.output.Running? && !s.aborted
    ensures (exists steps :: Run(s, steps).aborted) <==> (exists id :: Unanswered(s, id))
  {
    if id :| Unanswered(s, id) {
      UnansweredAborts(s, id, Sync.RequestFailed);
    } else {
      forall steps
        ensures !Run(s, steps).aborted
      {
        NothingLeftToReplyTo(s, steps);
      }
    }
  }

  lemma InvAtInit(peer: nat, local: nat, target: nat, L: nat, W: nat)
    requires 1 <= L && 1 <= W
    ensures Inv(Init(Sync.Build(peer, local, target, L, W)))
  {
    Sync.InvAtBuild(peer, local, target, L, W);
  }

  lemma RunTwo(s: State, a: Step, b: Step)
    ensures Run(s, [a, b]) == Next(Next(s, a), b)
  {
    assert [a, b][1..] == [b] && [b][1..] == [];
    assert Run(Next(s, a), [b]) == Run(Next(Next(s, a), b), []);
  }

  lemma TwoRequestsSent(s0: State)
    requires Inv(s0) && s0 == Init(s0.sync) && s0.sync.output.Running? && s0.sync.issued == []
    requires s0.sync.localHead + s0.sync.requestLimit < s0.sync.target && 2 <= s0.sync.maxConcurrent
    ensures
      var s := Run(s0, [Issue, Issue]);
      Inv(s) && s.sync.output.Running? && !s.aborted && s.commands == {0, 1} && s.mail == map[]
  {
    RunTwo(s0, Issue, Issue);
    NextKeepsInv(s0, Issue);
    var s1 := Next(s0, Issue);
    assert s0.sync.inFlight == {};
    assert s1.sync.inFlight == {0} == s1.commands;
    NextKeepsInv(s1, Issue);
  }

  /** A reply to a request that is waiting to be sent reaches the sync. */
  lemma ReplyReachesSync(s: State, id: nat, reply: Sync.Reply)
    requires Inv(s) && s.sync.output.Running? && !s.aborted && id in s.commands
    ensures
      var s' := Run(s, [Command(id), SwarmEvent(id, reply)] + [Take(id)]);
      && Inv(s') && !s'.aborted
      && s'.sync == Sync.Next(s.sync, Sync.Receive(id, reply)) && s'.mail == s.mail
      && s'.commands == s.commands - {id}
  {
    RunTwo(s, Command(id), SwarmEvent(id, reply));
    RunSnoc(s, [Command(id), SwarmEvent(id, reply)], Take(id));
    CommandKeepsInv(s, id);
    var s1 := Next(s, Command(id));
    assert Filed(s1, id);
    SwarmEventKeepsInv(s1, id, reply);
    var s2 := Next(s1, SwarmEvent(id, reply));
    NextKeepsInv(s2, Take(id));
    assert s.mail[id := reply] - {id} == s.mail;
  }

  /** Two requests are sent, the first is answered with nothing, and the sync ends
      while the second is on its way. */
  lemma EndsWithOneUnanswered(s0: State) returns (steps: seq<Step>)
    requires Inv(s0) && s0 == Init(s0.sync) && s0.sync.output.Running? && s0.sync.issued == []
    requires s0.sync.localHead + s0.sync.requestLimit < s0.sync.target && 2 <= s0.sync.maxConcurrent
    ensures
      var s := Run(s0, steps);
      Inv(s) && !s.sync.output.Running? && !s.aborted && Unanswered(s, 1)
  {
    var reply := Sync.Delivered([]);
    var rest := [Command(0), SwarmEvent(0, reply)] + [Take(0)];
    TwoRequestsSent(s0);
    var s := Run(s0, [Issue, Issue]);
    assert 0 in s.sync.inFlight && 1 in s.sync.inFlight;
    ReplyReachesSync(s, 0, reply);
    RunConcat(s0, [Issue, Issue], rest);
    steps := [Issue, Issue] + rest;
  }

  /** The reply to a request of a sync can find its receiver dropped, and abort the
      program, if and only if the sync spans more than one batch and may have two
      in flight. */
  lemma ReplyAbortsIff(peer: nat, local: nat, target: nat, L: nat, W: nat)
    requires 1 <= L && 1 <= W
    ensures (exists steps :: Run(Init(Sync.Build(peer, local, target, L, W)), steps).aborted)
            <==> local + L < target && 2 <= W
  {
    var s0 := Init(Sync.Build(peer, local, target, L, W));
    InvAtInit(peer, local, target, L, W);
    if local + L < target && 2 <= W {
      var first := EndsWithOneUnanswered(s0);
      var rest := Path(Run(s0, first), 1, Sync.RequestFailed);
      UnansweredAborts(Run(s0, first), 1, Sync.RequestFailed);
      RunConcat(s0, first, rest);
      assert Run(s0, first + rest).aborted;
    } else {
      forall steps
        ensures !Run(s0, steps).aborted
      {
        OneInFlightNeverAborts(s0, steps);
      }
    }
  }

  // ----- The sync in the middle is the sync on its own -----

  lemma {:induction false} SyncOfRunIsRun(s: State, steps: seq<Step>) returns (own: seq<Sync.Step>)
    ensures Run(s, steps).sync == Sync.Exec(s.sync, own)
    decreases |steps|
  {
    if steps == [] {
      own := [];
    } else {
      var s' := Next(s, steps[0]);
      var rest := SyncOfRunIsRun(s', steps[1..]);
      if s'.sync == s.sync {
        own := rest;
      } else {
        var step := match steps[0]
                    case Issue => Sync.Issue
                    case Take(id) => Sync.Receive(id, s.mail[id])
                    case _ => Sync.Finish;
        assert s'.sync == Sync.Next(s.sync, step);
        own := [step] + rest;
        assert own[1..] == rest;
      }
    }
  }

  /** Every request in flight waits to be sent. */
  ghost predicate Unsent(s: State) {
    Inv(s) && !s.aborted && s.mail == map[] && s.commands == s.sync.inFlight
  }

  /** One step of the sync, with the way its reply comes in full. */
  lemma StepIsPossible(s: State, step: Sync.Step) returns (steps: seq<Step>)
    requires Unsent(s)
    ensures Unsent(Run(s, steps)) && Run(s, steps).sync == Sync.Next(s.sync, step)
  {
    match step
    case Issue =>
      steps := [] + [Issue];
      RunSnoc(s, [], Issue);
      IssueKeepsInv(s);
      assert s.commands + (Next(s, Issue).sync.inFlight - s.sync.inFlight) == Next(s, Issue).sync.inFlight;
    case Receive(id, reply) =>
      if s.sync.output.Running? && id in s.sync.inFlight {
        ReplyReachesSync(s, id, reply);
        steps := [Command(id), SwarmEvent(id, reply)] + [Take(id)];
        assert Run(s, steps).commands == Run(s, steps).sync.inFlight;
      } else {
        steps := [];
      }
    case Finish =>
      steps := [] + [Finish];
      RunSnoc(s, [], Finish);
      NextKeepsInv(s, Finish);
  }

  lemma {:induction false} RunIsPossible(s: State, own: seq<Sync.Step>) returns (steps: seq<Step>)
    requires Unsent(s)
    ensures Unsent(Run(s, steps)) && Run(s, steps).sync == Sync.Exec(s.sync, own)
    decreases |own|
  {
    if own == [] {
      steps := [];
    } else {
      var first := StepIsPossible(s, own[0]);
      var rest := RunIsPossible(Run(s, first), own[1..]);
      RunConcat(s, first, rest);
      steps := first + rest;
    }
  }

  ghost predicate ReachesAlone(s0: Sync.Sync, s: Sync.Sync) {
    exists own :: Sync.Exec(s0, own) == s
  }

  ghost predicate ReachesHere(s0: Sync.Sync, s: Sync.Sync) {
    exists steps :: Run(Init(s0), steps).sync == s
  }

  /** Behind the network manager the sync does exactly what it can do with arbitrary
      replies: the states it reaches are the same. */
  lemma SameSyncsReached(peer: nat, local: nat, target: nat, L: nat, W: nat, s: Sync.Sync)
    requires 1 <= L && 1 <= W
    ensures ReachesHere(Sync.Build(peer, local, target, L, W), s)
            <==> ReachesAlone(Sync.Build(peer, local, target, L, W), s)
  {
    var s0 := Sync.Build(peer, local, target, L, W);
    InvAtInit(peer, local, target, L, W);
    if steps :| Run(Init(s0), steps).sync == s {
      var own := SyncOfRunIsRun(Init(s0), steps);
      assert Sync.Exec(s0, own) == s;
    }
    if own :| Sync.Exec(s0, own) == s {
      var steps := RunIsPossible(Init(s0), own);
      assert Run(Init(s0), steps).sync == s;
    }
  }
}
