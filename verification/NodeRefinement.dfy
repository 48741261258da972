// A manager whose adds nobody interrupts is a node of MiningNode whose miners
// happen not to move: every run of the one is a run of the other.
module NodeRefinement {
  import opened Interface
  import opened BlockTree
  import opened MiningNode
  import EndToEnd
  import M = ChainManager

  /** Between adds. */
  ghost predicate Resting(n: Node) {
    NodeInv(n) && n.chain.threads[0].Idle?
  }

  lemma TwoProceeds(n: Node)
    requires Ready(n)
    ensures Run(n, [Proceed, Proceed]) == OnProceed(OnProceed(n))
  {
    RunTwo(n, Proceed, Proceed);
  }

  /** The steps of one whole add, `begin` being its first. */
  function AddSteps(n: Node, begin: Step, h: Header): seq<Step> {
    if Validate(n.chain.tables.headers, h).Ok? then [begin] + ([Proceed, Proceed] + [Proceed, Proceed])
    else [begin] + [Proceed]
  }

  lemma AddStepsLead(n: Node, begin: Step, h: Header)
    requires Ready(n)
    ensures
      var n1 := Next(n, begin);
      Run(n, AddSteps(n, begin, h)) ==
        if Validate(n.chain.tables.headers, h).Ok?
        then OnProceed(OnProceed(OnProceed(OnProceed(n1))))
        else OnProceed(n1)
  {
    var n1 := Next(n, begin);
    RunOne(n, begin);
    if Validate(n.chain.tables.headers, h).Ok? {
      RunConcat(n, [begin], [Proceed, Proceed] + [Proceed, Proceed]);
      RunConcat(n1, [Proceed, Proceed], [Proceed, Proceed]);
      TwoProceeds(n1);
      TwoProceeds(OnProceed(OnProceed(n1)));
    } else {
      RunConcat(n, [begin], [Proceed]);
      RunOne(n1, Proceed);
    }
  }

  lemma HearFollows(n: Node, h: Header)
    requires Resting(n)
    ensures
      var n' := Run(n, AddSteps(n, Hear(h), h));
      Resting(n') && View(n') == M.OnHeader(View(n), h)
  {
    AddStepsLead(n, Hear(h), h);
    UninterruptedHearIsOnHeader(n, h);
    RunKeepsInv(n, AddSteps(n, Hear(h), h));
  }

  lemma ApplyFollows(n: Node, h: Header)
    requires Resting(n)
    ensures
      var n' := Run(n, AddSteps(n, ApplyNext(h), h));
      Resting(n') && View(n') == View(n).(tables := TryAdd(n.chain.tables, h).0)
  {
    AddStepsLead(n, ApplyNext(h), h);
    UninterruptedApplyIsTryAdd(n, h);
    RunKeepsInv(n, AddSteps(n, ApplyNext(h), h));
  }

  lemma ManageFollows(n: Node, step: M.Step)
    requires Resting(n) && LeavesChain(step)
    ensures
      var n' := Run(n, [Manage(step)]);
      Resting(n') && View(n') == M.Next(View(n), step)
  {
    RunOne(n, Manage(step));
    RunKeepsInv(n, [Manage(step)]);
    M.NextKeepsChain(View(n), step);
    LeavesTables(View(n), step);
  }

  lemma LeavesTables(m: M.Manager, step: M.Step)
    requires m.tables.headers != map[] && LeavesChain(step)
    ensures M.Next(m, step).tables == m.tables
  {
  }

  /** The apply loop, header by header, up to the first refused one. */
  lemma {:induction false} ApplyAllFollows(n: Node, headers: seq<Header>) returns (steps: seq<Step>)
    requires Resting(n)
    ensures
      var n' := Run(n, steps);
      Resting(n') && View(n') == View(n).(tables := EndToEnd.Apply(n.chain.tables, headers).0)
    decreases |headers|
  {
    if headers == [] {
      steps := [];
    } else {
      steps := AddSteps(n, ApplyNext(headers[0]), headers[0]);
      ApplyFollows(n, headers[0]);
      if TryAdd(n.chain.tables, headers[0]).1.Ok? {
        var n1 := Run(n, steps);
        var rest := ApplyAllFollows(n1, headers[1..]);
        RunConcat(n, steps, rest);
        steps := steps + rest;
      }
    }
  }

  lemma SyncFollows(n: Node, id: nat, headers: seq<Header>) returns (steps: seq<Step>)
    requires Resting(n)
    ensures Resting(Run(n, steps)) && View(Run(n, steps)) == M.OnSync(View(n), id, Some(headers))
  {
    if id !in View(n).syncs {
      steps := [];
    } else {
      steps := ApplyAllFollows(n, headers);
      var n1 := Run(n, steps);
      var collect := M.SyncReady(id, Some([]));
      ManageFollows(n1, collect);
      RunConcat(n, steps, [Manage(collect)]);
      steps := steps + [Manage(collect)];
    }
  }

  lemma StepFollows(n: Node, step: M.Step) returns (steps: seq<Step>)
    requires Resting(n)
    ensures Resting(Run(n, steps)) && View(Run(n, steps)) == M.Next(View(n), step)
  {
    if step.OnEvent? && step.event.IncomingNewBlockHeader? {
      steps := AddSteps(n, Hear(step.event.header), step.event.header);
      HearFollows(n, step.event.header);
    } else if step.OtherAdd? {
      steps := AddSteps(n, ApplyNext(step.header), step.header);
      ApplyFollows(n, step.header);
    } else if step.SyncReady? && step.result.Some? {
      steps := SyncFollows(n, step.id, step.result.value);
    } else {
      steps := [Manage(step)];
      ManageFollows(n, step);
    }
  }

  lemma {:induction false} RunFollows(n: Node, run: seq<M.Step>) returns (steps: seq<Step>)
    requires Resting(n) && WellFormed(View(n).tables.headers)
    ensures Resting(Run(n, steps)) && View(Run(n, steps)) == M.Run(View(n), run)
    decreases |run|
  {
    if run == [] {
      steps := [];
    } else {
      steps := StepFollows(n, run[0]);
      M.NextKeepsChain(View(n), run[0]);
      var rest := RunFollows(Run(n, steps), run[1..]);
      RunConcat(n, steps, rest);
      steps := steps + rest;
    }
  }

  ghost predicate Shows(n: Node, m: M.Manager) {
    View(n) == m
  }

  /** Whatever a manager with atomic adds can do from a fresh chain, a node with any
      miners beside it can do: what is broadcast, looked up, synced and stored is
      the same. */
  lemma ManagerRunIsNodeRun(threads: nat, miners: set<nat>, run: seq<M.Step>)
    requires 1 <= threads && 0 !in miners
    ensures exists steps :: Shows(Run(Init(threads, miners), steps), M.Run(M.NewManager(InitialTables(), map[]), run))
  {
    InitHolds(threads, miners);
    var steps := RunFollows(Init(threads, miners), run);
    assert Shows(Run(Init(threads, miners), steps), M.Run(M.NewManager(InitialTables(), map[]), run));
  }
}
