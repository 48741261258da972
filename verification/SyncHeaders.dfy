// The windowed batch downloader (src/tasks/sync_header.rs).
module SyncHeaders {
  import opened Interface

  const REQUEST_LIMIT: nat := 1000
  const MAX_CONCURRENT_LIMIT: nat := 10

  // How one request ends.
  datatype Reply = Delivered(headers: seq<Header>) | RequestFailed

  datatype Output = Running | Synced(headers: seq<Header>) | EmptyResponse | RequestError

  datatype Answer = Answer(id: nat, headers: seq<Header>)

  // The fields of `SyncHeader`. Requests are named by the order they were
  // issued in; `start`, `issued` and `answers` (in completion order) record the
  // run and are not kept by the program.
  datatype Sync = Sync(
    peer: nat,
    start: nat,
    target: nat,
    requestLimit: nat,
    maxConcurrent: nat,
    localHead: nat,
    issued: seq<HeadersRequest>,
    inFlight: set<nat>,
    answers: seq<Answer>,
    queued: seq<Header>,
    output: Output)

  function Build(peer: nat, localHead: nat, target: nat, requestLimit: nat, maxConcurrent: nat): Sync {
    Sync(peer, localHead, target, requestLimit, maxConcurrent, localHead, [], {}, [], [], Running)
  }

  // One turn of one of the loops in `poll`. A step that is not enabled leaves
  // the state alone, so every sequence of steps is a run.
  datatype Step = Issue | Receive(id: nat, reply: Reply) | Finish

  function NextRequest(s: Sync): HeadersRequest
    requires s.localHead < s.target
  {
    HeadersRequest(Min(s.target - s.localHead, s.requestLimit), s.localHead + 1)
  }

  function OnIssue(s: Sync): Sync {
    if |s.inFlight| < s.maxConcurrent && s.localHead < s.target then
      var request := NextRequest(s);
      s.(localHead := s.localHead + request.limit,
         issued := s.issued + [request],
         inFlight := s.inFlight + {|s.issued|})
    else s
  }

  function OnReceive(s: Sync, id: nat, reply: Reply): Sync {
    if id !in s.inFlight then s
    else
      var rest := s.(inFlight := s.inFlight - {id});
      match reply
      case RequestFailed => rest.(output := RequestError)
      case Delivered(headers) =>
        if headers == [] then rest.(output := EmptyResponse)
        else rest.(answers := s.answers + [Answer(id, headers)], queued := s.queued + headers)
  }

  function OnFinish(s: Sync): Sync {
    if s.inFlight == {} && s.target <= s.localHead then s.(output := Synced(s.queued)) else s
  }

  function Next(s: Sync, step: Step): Sync {
    if !s.output.Running? then s
    else
      match step
      case Issue => OnIssue(s)
      case Receive(id, reply) => OnReceive(s, id, reply)
      case Finish => OnFinish(s)
  }

  function Exec(s: Sync, steps: seq<Step>): Sync
    decreases |steps|
  {
    if steps == [] then s else Exec(Next(s, steps[0]), steps[1..])
  }

  lemma {:induction false} ExecConcat(s: Sync, a: seq<Step>, b: seq<Step>)
    ensures Exec(s, a + b) == Exec(Exec(s, a), b)
    decreases |a|
  {
    if a == [] {
      assert a + b == b;
    } else {
      assert (a + b)[1..] == a[1..] + b;
      ExecConcat(Next(s, a[0]), a[1..], b);
    }
  }

  lemma ExecSnoc(s: Sync, steps: seq<Step>, step: Step)
    ensures Exec(s, steps + [step]) == Next(Exec(s, steps), step)
  {
    ExecConcat(s, steps, [step]);
    assert Exec(Exec(s, steps), [step]) == Exec(Next(Exec(s, steps), step), []);
  }

  // ----- The invariant of every run -----

  function Flatten(answers: seq<Answer>): seq<Header> {
    if answers == [] then [] else answers[0].headers + Flatten(answers[1..])
  }

  lemma {:induction false} FlattenSnoc(answers: seq<Answer>, a: Answer)
    ensures Flatten(answers + [a]) == Flatten(answers) + a.headers
  {
    if answers == [] {
      assert [a][1..] == [];
      assert answers + [a] == [a];
    } else {
      assert (answers + [a])[1..] == answers[1..] + [a];
      FlattenSnoc(answers[1..], a);
    }
  }

  ghost predicate Answered(answers: seq<Answer>, id: nat) {
    exists j :: 0 <= j < |answers| && answers[j].id == id
  }

  /** The number of blocks in `i` full batches; see SpanIsProduct. */
  function Span(i: nat, limit: nat): nat {
    if i == 0 then 0 else Span(i - 1, limit) + limit
  }

  lemma {:induction false} SpanIsProduct(i: nat, limit: nat)
    ensures Span(i, limit) == i * limit
  {
    if i == 0 {
    } else {
      SpanIsProduct(i - 1, limit);
      assert i * limit == (i - 1) * limit + limit;
    }
  }

  lemma {:induction false} SpanPositive(i: nat, limit: nat)
    ensures 0 < i ==> limit <= Span(i, limit)
  {
    if 0 < i {
      SpanPositive(i - 1, limit);
    }
  }

  lemma {:induction false} SpanGap(i: nat, j: nat, limit: nat)
    requires i < j
    ensures Span(i, limit) + limit <= Span(j, limit)
  {
    if i + 1 < j {
      SpanGap(i, j - 1, limit);
    }
  }

  /** Request number `i` of a sync from `start` to `target`. */
  function Batch(start: nat, target: nat, limit: nat, i: nat): HeadersRequest
    requires start + Span(i, limit) < target
  {
    HeadersRequest(Min(limit, target - (start + Span(i, limit))), start + 1 + Span(i, limit))
  }

  ghost predicate IsBatch(start: nat, target: nat, limit: nat, i: nat, r: HeadersRequest) {
    start + Span(i, limit) < target && r == Batch(start, target, limit, i)
  }

  /** The issued requests are batches 0, 1, 2, ... and `localHead` is the last
      block they ask for. */
  ghost predicate Tiled(s: Sync) {
    && (forall i | 0 <= i < |s.issued| :: IsBatch(s.start, s.target, s.requestLimit, i, s.issued[i]))
    && s.localHead == (if s.target <= s.start then s.start
                       else Min(s.start + Span(|s.issued|, s.requestLimit), s.target))
  }

  /** Every issued request is in flight, answered exactly once, or the one whose
      failure ended the sync. */
  ghost predicate Accounted(s: Sync) {
    && |s.inFlight| <= s.maxConcurrent
    && (forall id | id in s.inFlight :: id < |s.issued| && !Answered(s.answers, id))
    && (forall j | 0 <= j < |s.answers| :: s.answers[j].id < |s.issued| && s.answers[j].headers != [])
    && (forall i, j | 0 <= i < j < |s.answers| :: s.answers[i].id != s.answers[j].id)
    && (s.output.Running? || s.output.Synced? ==>
          forall id: nat | id < |s.issued| :: id in s.inFlight || Answered(s.answers, id))
    && s.queued == Flatten(s.answers)
    && (s.output.Synced? ==>
          s.output.headers == s.queued && s.inFlight == {} && s.target <= s.localHead)
  }

  ghost predicate Inv(s: Sync) {
    && 1 <= s.requestLimit && 1 <= s.maxConcurrent
    && Tiled(s) && Accounted(s)
  }

  lemma BatchAt(s: Sync, i: nat)
    requires Tiled(s) && i < |s.issued|
    ensures s.start + Span(i, s.requestLimit) < s.target
    ensures s.issued[i] == Batch(s.start, s.target, s.requestLimit, i)
  {
    assert IsBatch(s.start, s.target, s.requestLimit, i, s.issued[i]);
  }

  lemma IssueKeepsTiled(s: Sync)
    requires Inv(s)
    ensures Tiled(OnIssue(s))
  {
    if |s.inFlight| < s.maxConcurrent && s.localHead < s.target {
      var n, L := |s.issued|, s.requestLimit;
      var s' := OnIssue(s);
      assert s.localHead == s.start + Span(n, L);
      assert Span(n + 1, L) == Span(n, L) + L;
      assert IsBatch(s.start, s.target, L, n, NextRequest(s));
      forall i | 0 <= i < |s'.issued|
        ensures IsBatch(s.start, s.target, L, i, s'.issued[i])
      {
        assert i < n ==> s'.issued[i] == s.issued[i];
      }
    }
  }

  lemma IssueKeepsAccounted(s: Sync)
    requires Inv(s) && s.output.Running?
    ensures Accounted(OnIssue(s))
  {
    var s' := OnIssue(s);
    if s' != s {
      assert |s.issued| !in s.inFlight;
      assert !Answered(s.answers, |s.issued|);
    }
  }

  lemma ReceiveKeepsAccounted(s: Sync, id: nat, reply: Reply)
    requires Inv(s) && s.output.Running?
    ensures Accounted(OnReceive(s, id, reply))
  {
    var s' := OnReceive(s, id, reply);
    if id in s.inFlight && reply.Delivered? && reply.headers != [] {
      var a := Answer(id, reply.headers);
      FlattenSnoc(s.answers, a);
      assert s'.answers == s.answers + [a];
      forall k: nat
        ensures Answered(s'.answers, k) <==> Answered(s.answers, k) || k == id
      {
        if k == id {
          assert s'.answers[|s.answers|].id == id;
        } else if Answered(s.answers, k) {
          var j :| 0 <= j < |s.answers| && s.answers[j].id == k;
          assert s'.answers[j].id == k;
        }
      }
      forall i, j | 0 <= i < j < |s'.answers|
        ensures s'.answers[i].id != s'.answers[j].id
      {
        if j == |s.answers| {
          assert s.answers[i].id == s'.answers[i].id;
          assert Answered(s.answers, s.answers[i].id);
        }
      }
    }
  }

  /** Receiving and finishing issue nothing. */
  lemma OthersKeepTiled(s: Sync, step: Step)
    requires Tiled(s) && !step.Issue?
    ensures Tiled(Next(s, step))
  {
    assert Next(s, step).issued == s.issued;
  }

  lemma NextKeepsInv(s: Sync, step: Step)
    requires Inv(s)
    ensures Inv(Next(s, step))
  {
    if s.output.Running? {
      match step
      case Issue =>
        IssueKeepsTiled(s);
        IssueKeepsAccounted(s);
      case Receive(id, reply) =>
        OthersKeepTiled(s, step);
        ReceiveKeepsAccounted(s, id, reply);
      case Finish =>
        OthersKeepTiled(s, step);
    }
  }

  ghost predicate SamePlan(s: Sync, s': Sync) {
    && s'.peer == s.peer && s'.start == s.start && s'.target == s.target
    && s'.requestLimit == s.requestLimit && s'.maxConcurrent == s.maxConcurrent
  }

  lemma NextKeepsPlan(s: Sync, step: Step)
    ensures SamePlan(s, Next(s, step))
  {
  }

  lemma {:induction false} ExecKeepsInv(s: Sync, steps: seq<Step>)
    requires Inv(s)
    ensures Inv(Exec(s, steps))
    ensures SamePlan(s, Exec(s, steps))
    decreases |steps|
  {
    if steps == [] {
    } else {
      NextKeepsInv(s, steps[0]);
      NextKeepsPlan(s, steps[0]);
      ExecKeepsInv(Next(s, steps[0]), steps[1..]);
    }
  }

  // ----- Request tiling -----

  /** How many batches of at most `limit` blocks cover `count` blocks. */
  function Batches(count: nat, limit: nat): nat
    requires 1 <= limit
  {
    (count + limit - 1) / limit
  }

  lemma BatchesBounds(count: nat, limit: nat)
    requires 1 <= limit
    ensures count <= Batches(count, limit) * limit < count + limit
  {
    var n := Batches(count, limit);
    assert n * limit + (count + limit - 1) % limit == count + limit - 1;
  }

  lemma MulGap(i: nat, j: nat, limit: nat)
    requires i < j
    ensures i * limit + limit <= j * limit
  {
    assert j * limit == i * limit + limit + (j - i - 1) * limit;
  }

  lemma BatchesUnique(count: nat, limit: nat, n: nat)
    requires 1 <= limit && count <= Span(n, limit) < count + limit
    ensures n == Batches(count, limit)
  {
    SpanIsProduct(n, limit);
    BatchesBounds(count, limit);
    var b := Batches(count, limit);
    if n < b {
      MulGap(n, b, limit);
    } else if b < n {
      MulGap(b, n, limit);
    }
  }

  ghost predicate Asks(r: HeadersRequest, k: nat) {
    r.startBlock <= k < r.startBlock + r.limit
  }

  ghost predicate AskedFor(issued: seq<HeadersRequest>, k: nat) {
    exists i :: 0 <= i < |issued| && Asks(issued[i], k)
  }

  lemma AllIssuedCount(s: Sync)
    requires Inv(s) && s.start < s.target <= s.localHead
    ensures |s.issued| == Batches(s.target - s.start, s.requestLimit)
  {
    var n, L := |s.issued|, s.requestLimit;
    assert 0 < n;
    BatchAt(s, n - 1);
    BatchesUnique(s.target - s.start, L, n);
  }

  lemma {:induction false} AskedBySomeRequest(s: Sync, k: nat, n: nat)
    requires Inv(s) && n <= |s.issued|
    requires s.start < k <= s.start + Span(n, s.requestLimit) && k <= s.target
    ensures AskedFor(s.issued, k)
  {
    var L := s.requestLimit;
    assert 0 < n;
    if k <= s.start + Span(n - 1, L) {
      AskedBySomeRequest(s, k, n - 1);
    } else {
      BatchAt(s, n - 1);
      assert Asks(s.issued[n - 1], k);
    }
  }

  lemma RequestsAreDisjoint(s: Sync, i: nat, j: nat, k: nat)
    requires Inv(s) && i < j < |s.issued| && Asks(s.issued[i], k)
    ensures !Asks(s.issued[j], k)
  {
    SpanGap(i, j, s.requestLimit);
    BatchAt(s, i);
    BatchAt(s, j);
  }

  /** Consecutive ranges of 1..L blocks from just above the local head up to
      the block counter. */
  ghost predicate ConsecutiveFrom(local: nat, L: nat, issued: seq<HeadersRequest>, end: nat) {
    var n := |issued|;
    && (0 < n ==> issued[0].startBlock == local + 1)
    && (forall i | 0 <= i < n :: 1 <= issued[i].limit <= L)
    && (forall i | 0 < i < n :: issued[i].startBlock == issued[i - 1].startBlock + issued[i - 1].limit)
    && (0 < n ==> issued[n - 1].startBlock + issued[n - 1].limit == end + 1)
  }

  lemma IssuedIsConsecutive(s: Sync)
    requires Inv(s)
    ensures ConsecutiveFrom(s.start, s.requestLimit, s.issued, s.localHead)
  {
    var n, L := |s.issued|, s.requestLimit;
    forall i | 0 < i < n
      ensures s.issued[i].startBlock == s.issued[i - 1].startBlock + s.issued[i - 1].limit
    {
      BatchAt(s, i - 1);
      BatchAt(s, i);
    }
    if 0 < n {
      BatchAt(s, n - 1);
    }
  }

  /** Once everything is issued, exactly the blocks in (start, target] have
      been asked for. */
  lemma AskedForExactly(s: Sync, k: nat)
    requires Inv(s) && s.start < s.target <= s.localHead
    ensures AskedFor(s.issued, k) <==> s.start < k <= s.target
  {
    var L := s.requestLimit;
    if s.start < k <= s.target {
      AskedBySomeRequest(s, k, |s.issued|);
    }
    if AskedFor(s.issued, k) {
      var i :| 0 <= i < |s.issued| && Asks(s.issued[i], k);
      BatchAt(s, i);
    }
  }

  /** Over every run: the requests are consecutive, disjoint ranges of 1..L
      blocks from just above the local head; at most W are in flight; the block
      counter never passes the target; and once everything is issued, exactly
      the blocks in (local, target] have been asked for, in
      ceil((target - local) / L) requests. */
  lemma RequestTiling(peer: nat, local: nat, target: nat, L: nat, W: nat, steps: seq<Step>)
    requires 1 <= L && 1 <= W
    ensures
      var s := Exec(Build(peer, local, target, L, W), steps);
      && |s.inFlight| <= W
      && local <= s.localHead <= Max(local, target)
      && ConsecutiveFrom(local, L, s.issued, s.localHead)
      && (forall i, j, k: nat | 0 <= i < j < |s.issued| && Asks(s.issued[i], k) :: !Asks(s.issued[j], k))
      && (local < target <= s.localHead ==>
            && |s.issued| == Batches(target - local, L)
            && (forall k: nat :: AskedFor(s.issued, k) <==> local < k <= target))
  {
    var s0 := Build(peer, local, target, L, W);
    InvAtBuild(peer, local, target, L, W);
    ExecKeepsInv(s0, steps);
    var s := Exec(s0, steps);
    IssuedIsConsecutive(s);
    forall i, j, k: nat | 0 <= i < j < |s.issued| && Asks(s.issued[i], k)
      ensures !Asks(s.issued[j], k)
    {
      RequestsAreDisjoint(s, i, j, k);
    }
    if local < target <= s.localHead {
      AllIssuedCount(s);
      forall k: nat
        ensures AskedFor(s.issued, k) <==> local < k <= target
      {
        AskedForExactly(s, k);
      }
    }
  }

  lemma InvAtBuild(peer: nat, local: nat, target: nat, L: nat, W: nat)
    requires 1 <= L && 1 <= W
    ensures Inv(Build(peer, local, target, L, W))
  {
  }

  // ----- Completion -----

  /** A finished sync issued every batch, each was answered exactly once and
      not empty, and the result is the answers put together in the order they
      came. */
  lemma SyncedMeansAllAnswered(peer: nat, local: nat, target: nat, L: nat, W: nat, steps: seq<Step>)
    requires 1 <= L && 1 <= W
    requires Exec(Build(peer, local, target, L, W), steps).output.Synced?
    ensures
      var s := Exec(Build(peer, local, target, L, W), steps);
      && s.output.headers == Flatten(s.answers)
      && |s.issued| == (if local < target then Batches(target - local, L) else 0)
      && (forall id: nat | id < |s.issued| :: Answered(s.answers, id))
      && (forall j | 0 <= j < |s.answers| :: s.answers[j].id < |s.issued| && s.answers[j].headers != [])
      && (forall i, j | 0 <= i < j < |s.answers| :: s.answers[i].id != s.answers[j].id)
  {
    InvAtBuild(peer, local, target, L, W);
    ExecKeepsInv(Build(peer, local, target, L, W), steps);
    var s := Exec(Build(peer, local, target, L, W), steps);
    if local < target {
      AllIssuedCount(s);
    } else if s.issued != [] {
      BatchAt(s, 0);
    }
  }

  /** While the sync runs, a request in flight gets this reply. */
  ghost predicate GetsReply(s: Sync, step: Step, reply: Reply) {
    s.output.Running? && step.Receive? && step.id in s.inFlight && step.reply == reply
  }

  /** Some step of the run is that. */
  ghost predicate GotReply(s: Sync, steps: seq<Step>, reply: Reply)
    decreases |steps|
  {
    steps != [] && (GetsReply(s, steps[0], reply) || GotReply(Next(s, steps[0]), steps[1..], reply))
  }

  /** Some step of the run finishes a sync with nothing left to ask or wait for. */
  ghost predicate Finished(s: Sync, steps: seq<Step>)
    decreases |steps|
  {
    steps != [] &&
    ((s.output.Running? && steps[0] == Finish && s.inFlight == {} && s.target <= s.localHead)
     || Finished(Next(s, steps[0]), steps[1..]))
  }

  lemma {:induction false} EndedRunsStay(s: Sync, steps: seq<Step>)
    requires !s.output.Running?
    ensures Exec(s, steps) == s && !Finished(s, steps)
    ensures forall reply :: !GotReply(s, steps, reply)
    decreases |steps|
  {
    if steps == [] {
    } else {
      EndedRunsStay(s, steps[1..]);
    }
  }

  /** How a run ends is what ended it: Ok exactly when it finished with nothing left
      to ask or wait for, EmptyResponse exactly when a request came back with no
      headers, RequestError exactly when one failed. */
  lemma {:induction false} EndsAsItShould(s: Sync, steps: seq<Step>)
    requires s.output.Running?
    ensures Exec(s, steps).output.EmptyResponse? <==> GotReply(s, steps, Delivered([]))
    ensures Exec(s, steps).output.RequestError? <==> GotReply(s, steps, RequestFailed)
    ensures Exec(s, steps).output.Synced? <==> Finished(s, steps)
    decreases |steps|
  {
    if steps == [] {
    } else {
      var s' := Next(s, steps[0]);
      if s'.output.Running? {
        EndsAsItShould(s', steps[1..]);
      } else {
        EndedRunsStay(s', steps[1..]);
      }
    }
  }

  function Measure(s: Sync): nat {
    (if s.localHead <= s.target then 2 * (s.target - s.localHead) else 0)
    + |s.inFlight| + (if s.output.Running? then 1 else 0)
  }

  /** A running sync can always move, by issuing, by any reply to any request in
      flight, or by finishing, and each move that does anything uses up some of
      a bounded budget: so no run goes on for ever. */
  lemma RunningSyncCanMove(s: Sync)
    requires Inv(s) && s.output.Running?
    ensures s.inFlight != {} || Next(s, Issue) != s || Next(s, Finish) != s
    ensures forall id, reply | id in s.inFlight :: Next(s, Receive(id, reply)) != s
  {
    forall id, reply | id in s.inFlight
      ensures Next(s, Receive(id, reply)) != s
    {
      assert id !in Next(s, Receive(id, reply)).inFlight;
    }
    if s.inFlight == {} && s.localHead < s.target {
      assert |Next(s, Issue).issued| == |s.issued| + 1;
    }
  }

  lemma MoveUsesBudget(s: Sync, step: Step)
    requires Inv(s) && Next(s, step) != s
    ensures Measure(Next(s, step)) < Measure(s)
  {
    var s' := Next(s, step);
    if step.Issue? {
      assert |s.issued| !in s.inFlight;
      assert |s'.inFlight| == |s.inFlight| + 1;
    }
  }

  ghost predicate EveryStepMoves(s: Sync, steps: seq<Step>)
    decreases |steps|
  {
    steps != [] ==> Next(s, steps[0]) != s && EveryStepMoves(Next(s, steps[0]), steps[1..])
  }

  lemma {:induction false} MovesAreBounded(s: Sync, steps: seq<Step>)
    requires Inv(s) && EveryStepMoves(s, steps)
    ensures |steps| + Measure(Exec(s, steps)) <= Measure(s)
    decreases |steps|
  {
    if steps == [] {
    } else {
      MoveUsesBudget(s, steps[0]);
      NextKeepsInv(s, steps[0]);
      MovesAreBounded(Next(s, steps[0]), steps[1..]);
    }
  }

  // ----- Requests left behind -----

  /** The sync has ended while a request of it is still in flight; its reply
      will find no receiver. */
  ghost predicate Abandons(s: Sync) {
    !s.output.Running? && s.inFlight != {}
  }

  ghost predicate AtMostOneInFlight(s: Sync) {
    && (s.target <= s.start + s.requestLimit || s.maxConcurrent == 1)
    && (forall i, j | i in s.inFlight && j in s.inFlight :: i == j)
    && !Abandons(s)
  }

  lemma IssuesAlone(s: Sync)
    requires Inv(s) && OnIssue(s) != s
    requires s.target <= s.start + s.requestLimit || s.maxConcurrent == 1
    ensures s.inFlight == {}
  {
    if s.maxConcurrent != 1 {
      SpanPositive(|s.issued|, s.requestLimit);
    }
  }

  lemma NextAtMostOneInFlight(s: Sync, step: Step)
    requires Inv(s) && AtMostOneInFlight(s)
    ensures AtMostOneInFlight(Next(s, step))
  {
    if step.Issue? && OnIssue(s) != s {
      IssuesAlone(s);
    }
  }

  lemma {:induction false} ExecAtMostOneInFlight(s: Sync, steps: seq<Step>)
    requires Inv(s) && AtMostOneInFlight(s)
    ensures AtMostOneInFlight(Exec(s, steps))
    decreases |steps|
  {
    if steps == [] {
    } else {
      NextAtMostOneInFlight(s, steps[0]);
      NextKeepsInv(s, steps[0]);
      ExecAtMostOneInFlight(Next(s, steps[0]), steps[1..]);
    }
  }

  ghost predicate RunAbandons(s: Sync, steps: seq<Step>) {
    Abandons(Exec(s, steps))
  }

  lemma ExecThree(s: Sync, a: Step, b: Step, c: Step)
    ensures Exec(s, [a, b, c]) == Next(Next(Next(s, a), b), c)
  {
    assert [a, b, c][1..] == [b, c] && [b, c][1..] == [c] && [c][1..] == [];
    var s2 := Next(Next(s, a), b);
    assert Exec(s2, [c]) == Exec(Next(s2, c), []);
  }

  /** Two requests go out, and the first comes back empty. */
  lemma SomeRunAbandons(peer: nat, local: nat, target: nat, L: nat, W: nat) returns (steps: seq<Step>)
    requires 1 <= L && 2 <= W && local + L < target
    ensures RunAbandons(Build(peer, local, target, L, W), steps)
  {
    steps := [Issue, Issue, Receive(0, Delivered([]))];
    var s0 := Build(peer, local, target, L, W);
    ExecThree(s0, Issue, Issue, Receive(0, Delivered([])));
    var s1 := Next(s0, Issue);
    assert s1.inFlight == {0};
    var s2 := Next(s1, Issue);
    assert s2.inFlight == {0, 1};
    assert 1 in Next(s2, Receive(0, Delivered([]))).inFlight;
  }

  /** Some run of a sync abandons a request if and only if the sync spans more
      than one batch and may have two in flight. */
  lemma AbandonsIff(peer: nat, local: nat, target: nat, L: nat, W: nat)
    requires 1 <= L && 1 <= W
    ensures (exists steps :: RunAbandons(Build(peer, local, target, L, W), steps))
            <==> local + L < target && 2 <= W
  {
    var s0 := Build(peer, local, target, L, W);
    InvAtBuild(peer, local, target, L, W);
    if local + L < target && 2 <= W {
      var steps := SomeRunAbandons(peer, local, target, L, W);
    } else {
      forall steps
        ensures !RunAbandons(s0, steps)
      {
        ExecAtMostOneInFlight(s0, steps);
      }
    }
  }

  // ----- The object -----

  class SyncHeader {
    const peer: nat
    const target: nat
    const requestLimit: nat
    const maxConcurrent: nat
    var localHead: nat
    var inProgress: set<nat>
    var queued: seq<Header>
    var output: Output
    var issued: seq<HeadersRequest>  // what has been handed to the provider
    ghost const start: nat
    ghost var answers: seq<Answer>

    ghost function View(): Sync
      reads this
    {
      Sync(peer, start, target, requestLimit, maxConcurrent,
           localHead, issued, inProgress, answers, queued, output)
    }

    ghost predicate Valid()
      reads this
    {
      Inv(View())
    }

    constructor (peer: nat, localHead: nat, target: nat, requestLimit: nat, maxConcurrent: nat)
      ensures View() == Build(peer, localHead, target, requestLimit, maxConcurrent)
      ensures Valid() <==> 1 <= requestLimit && 1 <= maxConcurrent
    {
      this.peer, this.target := peer, target;
      this.requestLimit, this.maxConcurrent := requestLimit, maxConcurrent;
      this.localHead, this.start := localHead, localHead;
      inProgress, queued, output := {}, [], Running;
      issued, answers := [], [];
      new;
      if 1 <= requestLimit && 1 <= maxConcurrent {
        InvAtBuild(peer, localHead, target, requestLimit, maxConcurrent);
      }
    }

    /** Takes in one batch; an empty one ends the sync. */
    method OnHeaderResponse(id: nat, headers: seq<Header>)
      requires Valid() && output.Running? && id in inProgress
      modifies this
      ensures Valid()
      ensures View() == Next(old(View()), Receive(id, Delivered(headers)))
      ensures |inProgress| < |old(inProgress)|
      ensures headers == [] <==> output == EmptyResponse
      ensures headers != [] ==> output.Running? && queued == old(queued) + headers
    {
      NextKeepsInv(View(), Receive(id, Delivered(headers)));
      inProgress := inProgress - {id};
      if headers == [] {
        output := EmptyResponse;
        return;
      }
      queued := queued + headers;
      answers := answers + [Answer(id, headers)];
    }

    /** Issues the next batch. */
    method IssueRequest() returns (request: HeadersRequest)
      requires Valid() && output.Running?
      requires |inProgress| < maxConcurrent && localHead < target
      modifies this
      ensures Valid() && output.Running?
      ensures View() == Next(old(View()), Issue)
      ensures issued == old(issued) + [request]
      ensures old(localHead) < localHead <= target
    {
      NextKeepsInv(View(), Issue);
      var limit := Min(target - localHead, requestLimit);
      request := HeadersRequest(limit, localHead + 1);
      localHead := localHead + limit;
      inProgress := inProgress + {|issued|};
      issued := issued + [request];
    }

    /** Takes in whatever replies are ready, for every choice of which those are
        and what they say; ends early if one of them ends the sync. */
    method DrainReplies() returns (ghost steps: seq<Step>)
      requires Valid() && output.Running?
      modifies this
      ensures Valid()
      ensures View() == Exec(old(View()), steps)
      ensures localHead == old(localHead)
      ensures output.Running? || output.EmptyResponse? || output.RequestError?
    {
      steps := [];
      while inProgress != {}
        invariant Valid() && output.Running?
        invariant View() == Exec(old(View()), steps)
        invariant localHead == old(localHead)
        decreases |inProgress|
      {
        var arrived: bool := *;
        if !arrived {
          break;
        }
        var id :| id in inProgress;
        var reply: Reply := *;
        ExecSnoc(old(View()), steps, Receive(id, reply));
        steps := steps + [Receive(id, reply)];
        match reply
        case Delivered(headers) =>
          OnHeaderResponse(id, headers);
          if headers == [] {
            return;
          }
        case RequestFailed =>
          NextKeepsInv(View(), Receive(id, reply));
          inProgress := inProgress - {id};
          output := RequestError;
          return;
      }
    }

    /** Issues requests until the window is full or nothing is left to ask for. */
    method FillWindow() returns (progress: bool, ghost steps: seq<Step>)
      requires Valid() && output.Running?
      modifies this
      ensures Valid() && output.Running?
      ensures View() == Exec(old(View()), steps)
      ensures |inProgress| == maxConcurrent || target <= localHead
      ensures if progress then old(localHead) < localHead <= target else localHead == old(localHead)
    {
      progress, steps := false, [];
      while |inProgress| < maxConcurrent && localHead < target
        invariant Valid() && output.Running?
        invariant View() == Exec(old(View()), steps)
        invariant if progress then old(localHead) < localHead <= target else localHead == old(localHead)
        decreases target - localHead
      {
        ExecSnoc(old(View()), steps, Issue);
        steps := steps + [Issue];
        var _ := IssueRequest();
        progress := true;
      }
    }

    /** One poll. It terminates; it returns pending only with a request in flight
        and either a full window or nothing left to issue; it returns Ok only
        with every range issued and answered. */
    method Poll() returns (ready: bool, ghost steps: seq<Step>)
      requires Valid() && output.Running?
      modifies this
      ensures Valid()
      ensures View() == Exec(old(View()), steps)
      ensures ready <==> !output.Running?
      ensures !ready ==> inProgress != {} && (|inProgress| == maxConcurrent || target <= localHead)
      ensures output.Synced? ==> inProgress == {} && target <= localHead && output.headers == Flatten(answers)
    {
      steps := [];
      var progress := true;
      while progress
        invariant Valid() && output.Running?
        invariant View() == Exec(old(View()), steps)
        invariant progress || |inProgress| == maxConcurrent || target <= localHead
        decreases if localHead < target then target - localHead else 0, progress
      {
        ghost var drained, filled: seq<Step>;
        drained := DrainReplies();
        ExecConcat(old(View()), steps, drained);
        steps := steps + drained;
        if !output.Running? {
          return true, steps;
        }
        progress, filled := FillWindow();
        ExecConcat(old(View()), steps, filled);
        steps := steps + filled;
      }
      if inProgress == {} {
        NextKeepsInv(View(), Finish);
        ExecSnoc(old(View()), steps, Finish);
        steps := steps + [Finish];
        output := Synced(queued);
        return true, steps;
      }
      return false, steps;
    }
  }
}
