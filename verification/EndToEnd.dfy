// A whole sync against an honest peer: download in batches, then apply what
// came back, header by header (src/tasks/sync_header.rs, src/net/chain.rs:281-320).
module EndToEnd {
  import opened Interface
  import opened BlockTree
  import opened Serving
  import opened SyncHeaders
  import ChainRuns

  // ----- The apply loop -----

  /** The tables after applying downloaded headers up to the first refused one,
      and how many were taken. */
  function Apply(t: Tables, headers: seq<Header>): (Tables, nat)
    requires t.headers != map[]
    decreases |headers|
  {
    if headers == [] then (t, 0)
    else
      var (t', r) := TryAdd(t, headers[0]);
      if r.Err? then (t, 0)
      else
        var (t'', n) := Apply(t', headers[1..]);
        (t'', n + 1)
  }

  lemma ApplyUnfolds(t: Tables, headers: seq<Header>, i: nat)
    requires t.headers != map[] && i < |headers|
    ensures
      var (t', r) := TryAdd(t, headers[i]);
      Apply(t, headers[i..])
      == if r.Err? then (t, 0) else (Apply(t', headers[i + 1..]).0, Apply(t', headers[i + 1..]).1 + 1)
  {
    assert headers[i..][0] == headers[i];
    assert headers[i..][1..] == headers[i + 1..];
  }

  lemma {:induction false} ApplyKeepsWellFormed(t: Tables, headers: seq<Header>)
    requires WellFormed(t.headers)
    ensures WellFormed(Apply(t, headers).0.headers)
    ensures Last(t.headers) <= Last(Apply(t, headers).0.headers)
    decreases |headers|
  {
    if headers == [] {
    } else {
      TryAddTables(t, headers[0]);
      ApplyKeepsWellFormed(TryAdd(t, headers[0]).0, headers[1..]);
    }
  }

  /** The headers counted are tried one after another and all accepted; the next
      one, if there is one, is refused. */
  ghost predicate StopsAtFirstRefusal(t: Tables, headers: seq<Header>, t': Tables, n: nat)
    requires t.headers != map[] && t'.headers != map[]
  {
    && n <= |headers|
    && t' == ChainRuns.AddAll(t, headers[..n])
    && ChainRuns.Accepted(t, headers[..n]) == headers[..n]
    && (n < |headers| ==> TryAdd(t', headers[n]).1.Err?)
  }

  lemma {:induction false} ApplyStopsAtFirstRefusal(t: Tables, headers: seq<Header>)
    requires WellFormed(t.headers)
    ensures WellFormed(Apply(t, headers).0.headers)
    ensures StopsAtFirstRefusal(t, headers, Apply(t, headers).0, Apply(t, headers).1)
    decreases |headers|
  {
    if headers == [] {
      assert headers[..0] == [];
    } else {
      var (t1, r) := TryAdd(t, headers[0]);
      TryAddTables(t, headers[0]);
      if r.Err? {
        assert headers[..0] == [];
      } else {
        var n := Apply(t1, headers[1..]).1;
        ApplyStopsAtFirstRefusal(t1, headers[1..]);
        assert headers[..n + 1] == [headers[0]] + headers[1..][..n];
        assert headers[..n + 1][1..] == headers[1..][..n];
      }
    }
  }

  /** `after` is `before` with the peer's next blocks on top and nothing else
      changed. */
  ghost predicate Grafted(before: HeaderTable, peer: HeaderTable, after: HeaderTable)
    requires before != map[]
  {
    && WellFormed(after)
    && Last(before) <= Last(after)
    && (forall k: nat | k <= Last(before) :: k in before && after[k] == before[k])
    && (forall k: nat | Last(before) < k <= Last(after) :: k in peer && after[k] == peer[k])
  }

  /** The local tip is a block of the peer, as far as hashes can tell. */
  ghost predicate OnPeerChain(hs: HeaderTable, peer: HeaderTable)
    requires hs != map[]
  {
    Last(hs) in peer && hs[Last(hs)].hash == peer[Last(hs)].hash
  }

  lemma AddNextPeerBlock(t: Tables, peer: HeaderTable)
    requires WellFormed(t.headers) && WellFormed(peer) && Linked(peer)
    requires OnPeerChain(t.headers, peer) && Last(t.headers) < Last(peer)
    ensures
      var tip := Last(t.headers);
      var (t', r) := TryAdd(t, peer[tip + 1]);
      && r == Ok(ExtendTip)
      && Grafted(t.headers, peer, t'.headers)
      && Last(t'.headers) == tip + 1
      && OnPeerChain(t'.headers, peer)
  {
    var tip := Last(t.headers);
    assert LinkAt(peer, tip + 1);
    TryAddOutcome(t, peer[tip + 1]);
    TryAddTables(t, peer[tip + 1]);
  }

  lemma GraftedAgain(a: HeaderTable, b: HeaderTable, c: HeaderTable, peer: HeaderTable)
    requires WellFormed(a) && Grafted(a, peer, b) && Grafted(b, peer, c)
    ensures Grafted(a, peer, c)
  {
    forall k: nat | Last(a) < k <= Last(c)
      ensures k in peer && c[k] == peer[k]
    {
      if k <= Last(b) {
        assert c[k] == b[k];
      }
    }
  }

  lemma ApplyAccepted(t: Tables, h: Header, rest: seq<Header>)
    requires t.headers != map[] && TryAdd(t, h).1.Ok?
    ensures Apply(t, [h] + rest) == (Apply(TryAdd(t, h).0, rest).0, 1 + Apply(TryAdd(t, h).0, rest).1)
  {
    assert ([h] + rest)[1..] == rest;
  }

  /** When all of `first` is taken, applying goes on with the rest. */
  lemma {:induction false} ApplyConcat(t: Tables, first: seq<Header>, rest: seq<Header>)
    requires t.headers != map[] && Apply(t, first).1 == |first|
    ensures
      var t' := Apply(t, first).0;
      && t'.headers != map[]
      && Apply(t, first + rest) == (Apply(t', rest).0, |first| + Apply(t', rest).1)
    decreases |first|
  {
    if first == [] {
      assert first + rest == rest;
    } else {
      ApplyConcat(TryAdd(t, first[0]).0, first[1..], rest);
      ApplyAccepted(t, first[0], first[1..] + rest);
      assert first + rest == [first[0]] + (first[1..] + rest);
    }
  }

  /** `headers` are the peer's blocks from number `from` on. */
  ghost predicate PeerBlocks(peer: HeaderTable, from: nat, headers: seq<Header>) {
    forall k: nat | from <= k < from + |headers| :: k in peer && peer[k] == headers[k - from]
  }

  lemma PeerBlocksSplit(peer: HeaderTable, from: nat, headers: seq<Header>)
    requires PeerBlocks(peer, from, headers) && headers != []
    ensures from in peer && headers[0] == peer[from]
    ensures PeerBlocks(peer, from + 1, headers[1..])
  {
    assert from in peer;
  }

  /** The peer's next blocks, in order, are all taken. */
  lemma {:induction false} ApplyPeerBlocks(t: Tables, peer: HeaderTable, headers: seq<Header>)
    requires WellFormed(t.headers) && WellFormed(peer) && Linked(peer) && OnPeerChain(t.headers, peer)
    requires PeerBlocks(peer, Last(t.headers) + 1, headers)
    ensures Apply(t, headers).1 == |headers|
    ensures
      var hs' := Apply(t, headers).0.headers;
      && Grafted(t.headers, peer, hs')
      && Last(hs') == Last(t.headers) + |headers|
      && OnPeerChain(hs', peer)
    decreases |headers|
  {
    if headers == [] {
    } else {
      PeerBlocksSplit(peer, Last(t.headers) + 1, headers);
      AddNextPeerBlock(t, peer);
      var t1 := TryAdd(t, headers[0]).0;
      ApplyPeerBlocks(t1, peer, headers[1..]);
      GraftedAgain(t.headers, t1.headers, Apply(t1, headers[1..]).0.headers, peer);
      FirstThenRest(t, headers);
    }
  }

  lemma FirstThenRest(t: Tables, headers: seq<Header>)
    requires t.headers != map[] && headers != [] && TryAdd(t, headers[0]).1.Ok?
    ensures
      var (t', n) := Apply(TryAdd(t, headers[0]).0, headers[1..]);
      Apply(t, headers) == (t', n + 1)
  {
  }

  // ----- Runs in which every reply is the peer's honest answer -----

  function HonestAnswer(peer: HeaderTable, r: HeadersRequest): seq<Header> {
    Serve(peer, r.startBlock, r.limit)
  }

  ghost predicate HonestStep(peer: HeaderTable, s: Sync, step: Step) {
    step.Receive? && step.id < |s.issued| ==> step.reply == Delivered(HonestAnswer(peer, s.issued[step.id]))
  }

  ghost predicate HonestRun(peer: HeaderTable, s: Sync, steps: seq<Step>)
    decreases |steps|
  {
    steps != [] ==> HonestStep(peer, s, steps[0]) && HonestRun(peer, Next(s, steps[0]), steps[1..])
  }

  ghost predicate EmptyFor(peer: HeaderTable, s: Sync, id: nat) {
    id < |s.issued| && HonestAnswer(peer, s.issued[id]) == []
  }

  ghost predicate HonestInv(peer: HeaderTable, s: Sync) {
    && Inv(s)
    && (forall j | 0 <= j < |s.answers| :: s.answers[j].headers == HonestAnswer(peer, s.issued[s.answers[j].id]))
    && !s.output.RequestError?
    && (s.output.EmptyResponse? ==> exists id: nat :: EmptyFor(peer, s, id))
  }

  lemma NextKeepsHonestInv(peer: HeaderTable, s: Sync, step: Step)
    requires HonestInv(peer, s) && HonestStep(peer, s, step)
    ensures HonestInv(peer, Next(s, step))
  {
    var s' := Next(s, step);
    NextKeepsInv(s, step);
    if step.Receive? && s'.output.EmptyResponse? && s.output.Running? {
      assert EmptyFor(peer, s', step.id);
    } else if s.output.EmptyResponse? {
      assert s' == s;
    }
  }

  lemma {:induction false} ExecKeepsHonestInv(peer: HeaderTable, s: Sync, steps: seq<Step>)
    requires HonestInv(peer, s) && HonestRun(peer, s, steps)
    ensures HonestInv(peer, Exec(s, steps))
    decreases |steps|
  {
    if steps == [] {
    } else {
      NextKeepsHonestInv(peer, s, steps[0]);
      ExecKeepsHonestInv(peer, Next(s, steps[0]), steps[1..]);
    }
  }

  lemma HonestAnswerEmptyIff(peer: HeaderTable, s: Sync, id: nat)
    requires WellFormed(peer) && Inv(s) && id < |s.issued|
    ensures HonestAnswer(peer, s.issued[id]) == [] <==> Last(peer) < s.start + 1 + Span(id, s.requestLimit)
  {
    ServeIsSlice(peer, s.issued[id].startBlock, s.issued[id].limit);
    BatchAt(s, id);
  }

  /** The first block of the last batch. */
  function LastBatchStart(local: nat, target: nat, L: nat): nat
    requires 1 <= L && local < target
  {
    var n := Batches(target - local, L);
    BatchesBounds(target - local, L);
    assert 1 <= n;
    local + 1 + (n - 1) * L
  }

  lemma LastBatchAnswered(s: Sync) returns (j: nat)
    requires Inv(s) && s.start < s.target && s.output.Synced?
    ensures 1 <= |s.issued| == Batches(s.target - s.start, s.requestLimit)
    ensures j < |s.answers| && s.answers[j].id == |s.issued| - 1 && s.answers[j].headers != []
  {
    AllIssuedCount(s);
    BatchesBounds(s.target - s.start, s.requestLimit);
    assert Answered(s.answers, |s.issued| - 1);
    j :| 0 <= j < |s.answers| && s.answers[j].id == |s.issued| - 1;
  }

  lemma SyncedReachesLastBatch(peer: HeaderTable, s: Sync)
    requires WellFormed(peer) && HonestInv(peer, s) && s.start < s.target && s.output.Synced?
    ensures LastBatchStart(s.start, s.target, s.requestLimit) <= Last(peer)
  {
    var j := LastBatchAnswered(s);
    HonestAnswerEmptyIff(peer, s, |s.issued| - 1);
    SpanIsProduct(|s.issued| - 1, s.requestLimit);
  }

  lemma EmptyMeansShortPeer(peer: HeaderTable, s: Sync, k: nat)
    requires WellFormed(peer) && Inv(s) && s.start < s.target && EmptyFor(peer, s, k)
    ensures Last(peer) < LastBatchStart(s.start, s.target, s.requestLimit)
  {
    HonestAnswerEmptyIff(peer, s, k);
    BatchBeforeLast(s, k);
  }

  /** Whatever the order of replies, a sync against an honest peer that has
      ended returned Ok exactly when the peer's tip reaches into the last batch:
      p >= local + 1 + (ceil((target - local) / L) - 1) * L. */
  lemma HonestSyncSucceedsIff(
    peer: HeaderTable, id: nat, local: nat, target: nat, L: nat, W: nat, steps: seq<Step>)
    requires WellFormed(peer) && 1 <= L && 1 <= W && local < target
    requires HonestRun(peer, Build(id, local, target, L, W), steps)
    requires !Exec(Build(id, local, target, L, W), steps).output.Running?
    ensures Exec(Build(id, local, target, L, W), steps).output.Synced?
            <==> LastBatchStart(local, target, L) <= Last(peer)
    ensures Exec(Build(id, local, target, L, W), steps).output.EmptyResponse?
            <==> Last(peer) < LastBatchStart(local, target, L)
  {
    var s0 := Build(id, local, target, L, W);
    var s := Exec(s0, steps);
    InvAtBuild(id, local, target, L, W);
    ExecKeepsHonestInv(peer, s0, steps);
    ExecKeepsInv(s0, steps);
    if s.output.Synced? {
      SyncedReachesLastBatch(peer, s);
    } else {
      var k: nat :| EmptyFor(peer, s, k);
      EmptyMeansShortPeer(peer, s, k);
    }
  }

  lemma BatchBeforeLast(s: Sync, k: nat)
    requires Inv(s) && s.start < s.target && k < |s.issued|
    ensures s.start + 1 + Span(k, s.requestLimit) <= LastBatchStart(s.start, s.target, s.requestLimit)
  {
    var n, L := Batches(s.target - s.start, s.requestLimit), s.requestLimit;
    BatchesBounds(s.target - s.start, L);
    BatchAt(s, k);
    SpanIsProduct(n, L);
    SpanIsProduct(n - 1, L);
    if k < n - 1 {
      SpanGap(k, n - 1, L);
    }
  }

  // ----- Applying what came back, in whatever order it came -----

  /** The first batch that did not come in its turn, when `next` is due first:
      batches `next`, `next + 1`, ... before it came in issue order. */
  function InOrderUpTo(answers: seq<Answer>, next: nat): nat
    decreases |answers|
  {
    if answers != [] && answers[0].id == next then InOrderUpTo(answers[1..], next + 1) else next
  }

  /** The tip after the first `j` batches of an honest sync. */
  function TipAfter(local: nat, target: nat, L: nat, peerTip: nat, j: nat): nat {
    Min(peerTip, Min(target, local + Span(j, L)))
  }

  /** `a` is a non-empty answer to batch `a.id`, made of the peer's blocks. */
  ghost predicate PeerPart(peer: HeaderTable, start: nat, target: nat, L: nat, a: Answer)
    requires peer != map[]
  {
    var from := start + Span(a.id, L);
    && from == TipAfter(start, target, L, Last(peer), a.id)
    && 0 < |a.headers| == TipAfter(start, target, L, Last(peer), a.id + 1) - from
    && PeerBlocks(peer, from + 1, a.headers)
  }

  lemma {:induction false} ServedArePeerBlocks(peer: HeaderTable, from: nat, limit: nat)
    requires WellFormed(peer)
    ensures PeerBlocks(peer, from, Serve(peer, from, limit))
    decreases limit
  {
    if limit == 0 || from !in peer {
    } else {
      ServedArePeerBlocks(peer, from + 1, limit - 1);
    }
  }

  lemma ServedSize(peer: HeaderTable, from: nat, limit: nat)
    requires WellFormed(peer)
    ensures |Serve(peer, from, limit)| == ServedCount(peer, from, limit)
  {
    ServeIsSlice(peer, from, limit);
  }

  lemma HonestAnswerIsPeerPart(peer: HeaderTable, s: Sync, a: Answer)
    requires WellFormed(peer) && Tiled(s) && a.id < |s.issued|
    requires a.headers != [] && a.headers == HonestAnswer(peer, s.issued[a.id])
    ensures PeerPart(peer, s.start, s.target, s.requestLimit, a)
  {
    BatchAt(s, a.id);
    var from := s.start + Span(a.id, s.requestLimit);
    ServedArePeerBlocks(peer, from + 1, Min(s.requestLimit, s.target - from));
    ServedSize(peer, from + 1, Min(s.requestLimit, s.target - from));
    assert Span(a.id + 1, s.requestLimit) == Span(a.id, s.requestLimit) + s.requestLimit;
    assert from < Last(peer);
  }

  /** Applying `headers` puts the peer's blocks up to `tip` on top. */
  ghost predicate Reaches(t: Tables, headers: seq<Header>, peer: HeaderTable, tip: nat)
    requires t.headers != map[]
  {
    var (t', taken) := Apply(t, headers);
    && Grafted(t.headers, peer, t'.headers)
    && Last(t'.headers) == tip
    && taken == tip - Last(t.headers)
  }

  lemma ApplyPart(t: Tables, peer: HeaderTable, start: nat, target: nat, L: nat, a: Answer, next: nat)
    requires WellFormed(t.headers) && WellFormed(peer) && Linked(peer) && OnPeerChain(t.headers, peer)
    requires PeerPart(peer, start, target, L, a)
    requires Last(t.headers) == TipAfter(start, target, L, Last(peer), a.id)
    requires next == TipAfter(start, target, L, Last(peer), a.id + 1)
    ensures Apply(t, a.headers).1 == |a.headers|
    ensures Reaches(t, a.headers, peer, next)
    ensures OnPeerChain(Apply(t, a.headers).0.headers, peer)
  {
    assert next == Last(t.headers) + |a.headers|;
    ApplyPeerBlocks(t, peer, a.headers);
  }

  lemma ApplyRefusesFarHeader(t: Tables, headers: seq<Header>)
    requires WellFormed(t.headers) && headers != [] && Last(t.headers) + 1 < headers[0].number
    ensures Apply(t, headers) == (t, 0)
  {
    TryAddOutcome(t, headers[0]);
  }

  /** A batch that came before its turn is refused at its first header. */
  lemma StopsAtGap(t: Tables, peer: HeaderTable, start: nat, target: nat, L: nat, a: Answer, j: nat, rest: seq<Header>)
    requires WellFormed(t.headers) && WellFormed(peer)
    requires PeerPart(peer, start, target, L, a) && j < a.id && 1 <= L
    requires Last(t.headers) <= start + Span(j, L)
    ensures Apply(t, a.headers + rest) == (t, 0)
  {
    PeerBlocksSplit(peer, start + Span(a.id, L) + 1, a.headers);
    SpanGap(j, a.id, L);
    assert (a.headers + rest)[0] == a.headers[0];
    ApplyRefusesFarHeader(t, a.headers + rest);
  }

  lemma ApplyOnTop(t: Tables, first: seq<Header>, rest: seq<Header>, peer: HeaderTable, mid: nat, tip: nat)
    requires WellFormed(t.headers) && Apply(t, first).1 == |first|
    requires Reaches(t, first, peer, mid) && Reaches(Apply(t, first).0, rest, peer, tip)
    ensures Reaches(t, first + rest, peer, tip)
  {
    var t1 := Apply(t, first).0;
    ApplyConcat(t, first, rest);
    GraftedAgain(t.headers, t1.headers, Apply(t1, rest).0.headers, peer);
  }

  /** Each answer up to the first one out of order is made of peer blocks, and
      that one is ahead of its turn. */
  ghost predicate Deliverable(peer: HeaderTable, start: nat, target: nat, L: nat, answers: seq<Answer>, j: nat)
    requires peer != map[]
    decreases |answers|
  {
    answers != [] ==>
      && j <= answers[0].id
      && PeerPart(peer, start, target, L, answers[0])
      && (answers[0].id == j ==> Deliverable(peer, start, target, L, answers[1..], j + 1))
  }

  lemma {:induction false} DistinctPartsAreDeliverable(
    peer: HeaderTable, start: nat, target: nat, L: nat, answers: seq<Answer>, j: nat)
    requires peer != map[]
    requires forall i | 0 <= i < |answers| :: PeerPart(peer, start, target, L, answers[i])
    requires forall i | 0 <= i < |answers| :: j <= answers[i].id
    requires forall i, k | 0 <= i < k < |answers| :: answers[i].id != answers[k].id
    ensures Deliverable(peer, start, target, L, answers, j)
    decreases |answers|
  {
    if answers == [] {
    } else if answers[0].id == j {
      DistinctPartsAreDeliverable(peer, start, target, L, answers[1..], j + 1);
    }
  }

  /** The batch that is due, when it comes first. */
  lemma ApplyFirst(
    t: Tables, peer: HeaderTable, start: nat, target: nat, L: nat, answers: seq<Answer>, j: nat)
    requires WellFormed(t.headers) && WellFormed(peer) && Linked(peer) && OnPeerChain(t.headers, peer)
    requires Last(t.headers) == TipAfter(start, target, L, Last(peer), j)
    requires answers != [] && answers[0].id == j && Deliverable(peer, start, target, L, answers, j)
    ensures
      var (t', taken) := Apply(t, answers[0].headers);
      && taken == |answers[0].headers|
      && WellFormed(t'.headers) && OnPeerChain(t'.headers, peer)
      && Last(t'.headers) == TipAfter(start, target, L, Last(peer), j + 1)
    ensures Reaches(t, answers[0].headers, peer, TipAfter(start, target, L, Last(peer), j + 1))
    ensures Deliverable(peer, start, target, L, answers[1..], j + 1)
  {
    ApplyPart(t, peer, start, target, L, answers[0], TipAfter(start, target, L, Last(peer), j + 1));
  }

  /** `answers` is what is left after batches 0..j-1 came in order; applying it
      stops where the order first breaks. */
  lemma {:induction false} ApplyRemaining(
    t: Tables, peer: HeaderTable, start: nat, target: nat, L: nat, answers: seq<Answer>, j: nat)
    requires WellFormed(t.headers) && WellFormed(peer) && Linked(peer) && OnPeerChain(t.headers, peer)
    requires 1 <= L && Last(t.headers) == TipAfter(start, target, L, Last(peer), j)
    requires Deliverable(peer, start, target, L, answers, j)
    ensures Reaches(t, Flatten(answers), peer, TipAfter(start, target, L, Last(peer), InOrderUpTo(answers, j)))
    decreases |answers|
  {
    if answers == [] {
    } else if answers[0].id == j {
      var mid := TipAfter(start, target, L, Last(peer), j + 1);
      ApplyFirst(t, peer, start, target, L, answers, j);
      ApplyRemaining(Apply(t, answers[0].headers).0, peer, start, target, L, answers[1..], j + 1);
      ApplyInTurn(t, peer, answers, j, mid,
                  TipAfter(start, target, L, Last(peer), InOrderUpTo(answers[1..], j + 1)));
    } else {
      ApplyOutOfTurn(t, peer, start, target, L, answers, j);
    }
  }

  lemma ApplyInTurn(t: Tables, peer: HeaderTable, answers: seq<Answer>, j: nat, mid: nat, tip: nat)
    requires WellFormed(t.headers) && answers != [] && answers[0].id == j
    requires Apply(t, answers[0].headers).1 == |answers[0].headers| && Reaches(t, answers[0].headers, peer, mid)
    requires Reaches(Apply(t, answers[0].headers).0, Flatten(answers[1..]), peer, tip)
    ensures Reaches(t, Flatten(answers), peer, tip)
    ensures InOrderUpTo(answers, j) == InOrderUpTo(answers[1..], j + 1)
  {
    ApplyOnTop(t, answers[0].headers, Flatten(answers[1..]), peer, mid, tip);
  }

  lemma ApplyOutOfTurn(
    t: Tables, peer: HeaderTable, start: nat, target: nat, L: nat, answers: seq<Answer>, j: nat)
    requires WellFormed(t.headers) && WellFormed(peer)
    requires 1 <= L && Last(t.headers) == TipAfter(start, target, L, Last(peer), j)
    requires answers != [] && j < answers[0].id && PeerPart(peer, start, target, L, answers[0])
    ensures Reaches(t, Flatten(answers), peer, TipAfter(start, target, L, Last(peer), InOrderUpTo(answers, j)))
  {
    StopsAtGap(t, peer, start, target, L, answers[0], j, Flatten(answers[1..]));
  }

  lemma AnswersArePeerParts(peer: HeaderTable, s: Sync)
    requires WellFormed(peer) && HonestInv(peer, s)
    ensures forall i | 0 <= i < |s.answers| ::
              PeerPart(peer, s.start, s.target, s.requestLimit, s.answers[i])
  {
    forall i | 0 <= i < |s.answers|
      ensures PeerPart(peer, s.start, s.target, s.requestLimit, s.answers[i])
    {
      HonestAnswerIsPeerPart(peer, s, s.answers[i]);
    }
  }

  ghost predicate InIssueOrder(answers: seq<Answer>) {
    forall j | 0 <= j < |answers| :: answers[j].id == j
  }

  /** End to end. A finished sync from the local tip, against an honest linked
      peer, in any completion order, applied to a chain still at that tip: the
      blocks taken are exactly those of the longest initial run of batches that
      came in issue order, equal to the peer's, and the chain stays valid. The
      tip is then min(peer tip, target) if and only if all came in order. */
  lemma SyncThenApply(
    t: Tables, peer: HeaderTable, id: nat, target: nat, L: nat, W: nat, steps: seq<Step>)
    requires WellFormed(t.headers) && WellFormed(peer) && Linked(peer) && OnPeerChain(t.headers, peer)
    requires 1 <= L && 1 <= W && Last(t.headers) < target
    requires HonestRun(peer, Build(id, Last(t.headers), target, L, W), steps)
    requires Exec(Build(id, Last(t.headers), target, L, W), steps).output.Synced?
    ensures
      var local := Last(t.headers);
      var s := Exec(Build(id, local, target, L, W), steps);
      var tip := TipAfter(local, target, L, Last(peer), InOrderUpTo(s.answers, 0));
      && Reaches(t, s.output.headers, peer, tip)
      && (tip == Min(Last(peer), target) <==> InIssueOrder(s.answers))
  {
    var local := Last(t.headers);
    var s0 := Build(id, local, target, L, W);
    var s := Exec(s0, steps);
    InvAtBuild(id, local, target, L, W);
    ExecKeepsHonestInv(peer, s0, steps);
    ExecKeepsInv(s0, steps);
    AnswersArePeerParts(peer, s);
    DistinctPartsAreDeliverable(peer, local, target, L, s.answers, 0);
    ApplyRemaining(t, peer, local, target, L, s.answers, 0);
    if InIssueOrder(s.answers) {
      InOrderReachesTarget(s);
    } else {
      OutOfOrderFallsShort(peer, s);
    }
  }

  /** Where the order breaks, a later batch stands in the place of the one due. */
  lemma {:induction false} InOrderUpToIs(answers: seq<Answer>, from: nat)
    ensures
      var n := InOrderUpTo(answers, from);
      && from <= n <= from + |answers|
      && (forall j | 0 <= j < n - from :: answers[j].id == from + j)
      && (n < from + |answers| ==> answers[n - from].id != n)
    decreases |answers|
  {
    if answers != [] && answers[0].id == from {
      InOrderUpToIs(answers[1..], from + 1);
    }
  }

  lemma OutOfOrderFallsShort(peer: HeaderTable, s: Sync)
    requires WellFormed(peer) && HonestInv(peer, s) && s.output.Synced? && s.start < s.target
    requires !InIssueOrder(s.answers)
    ensures TipAfter(s.start, s.target, s.requestLimit, Last(peer), InOrderUpTo(s.answers, 0))
            < Min(Last(peer), s.target)
  {
    var L, m := s.requestLimit, InOrderUpTo(s.answers, 0);
    InOrderUpToIs(s.answers, 0);
    var k := s.answers[m].id;
    if 0 < m {
      var j := if k < m then k else 0;
      assert s.answers[j].id == j;
    }
    assert m < k < |s.issued|;
    SpanGap(m, k, L);
    BatchAt(s, k);
    HonestAnswerEmptyIff(peer, s, k);
  }

  lemma InOrderReachesTarget(s: Sync)
    requires Inv(s) && s.output.Synced? && s.start < s.target
    requires InIssueOrder(s.answers)
    ensures s.target <= s.start + Span(InOrderUpTo(s.answers, 0), s.requestLimit)
  {
    InOrderAll(s.answers, 0);
    EveryBatchAnsweredOnce(s);
  }

  lemma {:induction false} InOrderAll(answers: seq<Answer>, from: nat)
    requires forall j | 0 <= j < |answers| :: answers[j].id == from + j
    ensures InOrderUpTo(answers, from) == from + |answers|
    decreases |answers|
  {
    if answers == [] {
    } else {
      InOrderAll(answers[1..], from + 1);
    }
  }

  lemma EveryBatchAnsweredOnce(s: Sync)
    requires Inv(s) && s.output.Synced?
    requires InIssueOrder(s.answers)
    ensures |s.answers| == |s.issued|
  {
    assert |s.answers| < |s.issued| ==> Answered(s.answers, |s.answers|);
    assert s.answers != [] ==> s.answers[|s.answers| - 1].id < |s.issued|;
  }
}
