// The four tables of unanswered commands kept by the network manager
// (src/net/network.rs): who is waiting for what, and that nobody is forgotten.
module Ledger {
  import opened Interface

  // What a waiting command is filed under. `Unbound` is a listen command that
  // the swarm refused, which is answered without being filed.
  datatype Key = Listener(id: nat) | Peer(id: nat) | Query(id: nat) | Outbound(id: nat) | Unbound

  // `sender` is the one-shot channel the reply goes to.
  datatype Command = Command(sender: nat, key: Key)

  datatype State = State(
    pending: map<Key, nat>,
    handled: seq<Command>,
    answeredOk: seq<Command>,
    answeredErr: seq<Command>,
    dropped: seq<Command>)

  function Init(): State {
    State(map[], [], [], [], [])
  }

  // Commands carry the swarm's verdict or the id it handed out.
  datatype Step =
    | StartListening(sender: nat, bound: Option<nat>)
    | Dial(sender: nat, peer: nat, accepted: bool)
    | GetClosestPeers(sender: nat, query: nat)
    | GetHeaders(sender: nat, request: nat)
    | NewListenAddr(listener: nat)
    | ConnectionEstablished(peer: nat, asDialer: bool)
    | OutgoingConnectionError(peer: nat)
    | ClosestPeersResult(query: nat, found: bool)
    | HeadersResponse(request: nat)
    | OutboundFailure(request: nat)

  /** The command is filed to wait; an entry already under that key is lost. */
  function File(s: State, key: Key, sender: nat): State {
    s.(pending := s.pending[key := sender], handled := s.handled + [Command(sender, key)])
  }

  function Refuse(s: State, key: Key, sender: nat): State {
    s.(handled := s.handled + [Command(sender, key)], answeredErr := s.answeredErr + [Command(sender, key)])
  }

  function Drop(s: State, key: Key, sender: nat): State {
    s.(handled := s.handled + [Command(sender, key)], dropped := s.dropped + [Command(sender, key)])
  }

  /** Whoever waits under `key`, if anybody, gets the reply. */
  function Settle(s: State, key: Key, ok: bool): State {
    if key !in s.pending then s
    else
      var c := Command(s.pending[key], key);
      var s1 := s.(pending := s.pending - {key});
      if ok then s1.(answeredOk := s.answeredOk + [c]) else s1.(answeredErr := s.answeredErr + [c])
  }

  function Next(s: State, step: Step): State {
    match step
    case StartListening(sender, None) => Refuse(s, Unbound, sender)
    case StartListening(sender, Some(id)) => File(s, Listener(id), sender)
    case Dial(sender, peer, accepted) =>
      if Peer(peer) in s.pending then Drop(s, Peer(peer), sender)
      else if accepted then File(s, Peer(peer), sender)
      else Refuse(s, Peer(peer), sender)
    case GetClosestPeers(sender, query) => File(s, Query(query), sender)
    case GetHeaders(sender, request) => File(s, Outbound(request), sender)
    case NewListenAddr(id) => Settle(s, Listener(id), true)
    case ConnectionEstablished(peer, asDialer) => if asDialer then Settle(s, Peer(peer), true) else s
    case OutgoingConnectionError(peer) => Settle(s, Peer(peer), false)
    case ClosestPeersResult(query, found) => Settle(s, Query(query), found)
    case HeadersResponse(request) => Settle(s, Outbound(request), true)
    case OutboundFailure(request) => Settle(s, Outbound(request), false)
  }

  /** Whom the step sends a reply to. */
  function RepliesTo(s: State, step: Step): Option<nat> {
    match step
    case StartListening(sender, None) => Some(sender)
    case Dial(sender, peer, false) => if Peer(peer) in s.pending then None else Some(sender)
    case NewListenAddr(id) => WaitingUnder(s, Listener(id))
    case ConnectionEstablished(peer, true) => WaitingUnder(s, Peer(peer))
    case OutgoingConnectionError(peer) => WaitingUnder(s, Peer(peer))
    case ClosestPeersResult(query, _) => WaitingUnder(s, Query(query))
    case HeadersResponse(request) => WaitingUnder(s, Outbound(request))
    case OutboundFailure(request) => WaitingUnder(s, Outbound(request))
    case _ => None
  }

  function WaitingUnder(s: State, key: Key): Option<nat> {
    if key in s.pending then Some(s.pending[key]) else None
  }

  /** The reply finds its receiver dropped, which aborts the program; `open` are
      the channels whose receiver is still held. */
  predicate Aborts(s: State, step: Step, open: set<nat>) {
    var to := RepliesTo(s, step);
    to.Some? && to.value !in open
  }

  function Run(s: State, steps: seq<Step>): State
    decreases |steps|
  {
    if steps == [] then s else Run(Next(s, steps[0]), steps[1..])
  }

  /** A run takes one step after the other. */
  lemma {:induction false} RunSnoc(s: State, steps: seq<Step>, step: Step)
    ensures Run(s, steps + [step]) == Next(Run(s, steps), step)
    decreases |steps|
  {
    if steps == [] {
      assert steps + [step] == [step];
      assert Run(s, [step]) == Run(Next(s, step), []);
    } else {
      assert (steps + [step])[1..] == steps[1..] + [step];
      RunSnoc(Next(s, steps[0]), steps[1..], step);
    }
  }

  // ----- Conservation -----

  function Waiting(pending: map<Key, nat>): set<Command> {
    set k | k in pending :: Command(pending[k], k)
  }

  /** Every command handled is answered, waiting under its own key, or a dropped
      duplicate dial, and in one of these ways only, as often as it was handled. */
  ghost predicate Conserved(s: State) {
    multiset(s.handled)
    == multiset(s.answeredOk) + multiset(s.answeredErr) + multiset(Waiting(s.pending)) + multiset(s.dropped)
  }

  lemma Snoc(s: seq<Command>, c: Command)
    ensures multiset(s + [c]) == multiset(s) + multiset{c}
  {
  }

  lemma WaitingIff(pending: map<Key, nat>, c: Command)
    ensures c in Waiting(pending) <==> c.key in pending && pending[c.key] == c.sender
  {
    assert c == Command(c.sender, c.key);
  }

  lemma WaitingAfterFile(pending: map<Key, nat>, key: Key, sender: nat)
    requires key !in pending
    ensures multiset(Waiting(pending[key := sender])) == multiset(Waiting(pending)) + multiset{Command(sender, key)}
  {
    var c := Command(sender, key);
    forall x
      ensures x in Waiting(pending[key := sender]) <==> x in Waiting(pending) || x == c
    {
      WaitingIff(pending, x);
      WaitingIff(pending[key := sender], x);
    }
    WaitingIff(pending, c);
    assert Waiting(pending[key := sender]) == Waiting(pending) + {c};
  }

  lemma WaitingAfterSettle(pending: map<Key, nat>, key: Key)
    requires key in pending
    ensures multiset(Waiting(pending)) == multiset(Waiting(pending - {key})) + multiset{Command(pending[key], key)}
  {
    var rest := pending - {key};
    assert rest[key := pending[key]] == pending;
    WaitingAfterFile(rest, key, pending[key]);
  }

  lemma FileKeepsConserved(s: State, key: Key, sender: nat)
    requires Conserved(s) && key !in s.pending
    ensures Conserved(File(s, key, sender))
  {
    Snoc(s.handled, Command(sender, key));
    WaitingAfterFile(s.pending, key, sender);
  }

  lemma SettleKeepsConserved(s: State, key: Key, ok: bool)
    requires Conserved(s)
    ensures Conserved(Settle(s, key, ok))
  {
    if key in s.pending {
      var c := Command(s.pending[key], key);
      WaitingAfterSettle(s.pending, key);
      Snoc(s.answeredOk, c);
      Snoc(s.answeredErr, c);
    }
  }

  /** Filing under a key keeps the balance if and only if nobody waits there:
      the ids the swarm hands out have to be fresh. */
  lemma FileConservesIffFresh(s: State, key: Key, sender: nat)
    requires Conserved(s)
    ensures Conserved(File(s, key, sender)) <==> key !in s.pending
  {
    if key !in s.pending {
      FileKeepsConserved(s, key, sender);
    } else {
      Overwritten(s, key, sender);
    }
  }

  /** The command that waited under the key is in no account any more. */
  lemma Overwritten(s: State, key: Key, sender: nat)
    requires Conserved(s) && key in s.pending
    ensures !Conserved(File(s, key, sender))
  {
    var rest := s.pending - {key};
    var lost, c := Command(s.pending[key], key), Command(sender, key);
    assert rest[key := sender] == s.pending[key := sender];
    WaitingAfterSettle(s.pending, key);
    WaitingAfterFile(rest, key, sender);
    Snoc(s.handled, c);
    var others := multiset(s.answeredOk) + multiset(s.answeredErr) + multiset(s.dropped);
    assert multiset(File(s, key, sender).handled)[lost]
        == others[lost] + multiset(Waiting(rest))[lost] + 1 + multiset{c}[lost];
    assert multiset(Waiting(File(s, key, sender).pending))[lost]
        == multiset(Waiting(rest))[lost] + multiset{c}[lost];
  }

  /** The id in this step is not one somebody is still waiting under. */
  ghost predicate Fresh(s: State, step: Step) {
    match step
    case StartListening(_, Some(id)) => Listener(id) !in s.pending
    case GetClosestPeers(_, query) => Query(query) !in s.pending
    case GetHeaders(_, request) => Outbound(request) !in s.pending
    case _ => true
  }

  ghost predicate FreshRun(s: State, steps: seq<Step>)
    decreases |steps|
  {
    steps != [] ==> Fresh(s, steps[0]) && FreshRun(Next(s, steps[0]), steps[1..])
  }

  /** A command under this key is waiting or has been answered. */
  ghost predicate Attended(s: State, key: Key) {
    key in s.pending || exists c :: (c in s.answeredOk || c in s.answeredErr) && c.key == key
  }

  /** Only dials are dropped, and for each another dial of the same peer is
      waiting or has been answered. */
  ghost predicate DropsAttended(s: State) {
    forall i | 0 <= i < |s.dropped| :: s.dropped[i].key.Peer? && Attended(s, s.dropped[i].key)
  }

  lemma SettleKeepsAttended(s: State, key: Key, ok: bool, other: Key)
    requires Attended(s, other)
    ensures Attended(Settle(s, key, ok), other)
  {
    var s' := Settle(s, key, ok);
    if key in s.pending && key == other {
      var c := Command(s.pending[key], key);
      assert c in s'.answeredOk || c in s'.answeredErr;
    } else if other !in s.pending {
      var c :| (c in s.answeredOk || c in s.answeredErr) && c.key == other;
      assert c in s'.answeredOk || c in s'.answeredErr;
    }
  }

  lemma CommandKeepsAttended(s: State, key: Key, sender: nat, other: Key)
    requires Attended(s, other)
    ensures Attended(File(s, key, sender), other)
    ensures Attended(Refuse(s, key, sender), other)
    ensures Attended(Drop(s, key, sender), other)
  {
    if other !in s.pending {
      var c :| (c in s.answeredOk || c in s.answeredErr) && c.key == other;
      assert c in s.answeredErr ==> c in Refuse(s, key, sender).answeredErr;
    }
  }

  lemma NextKeepsAttended(s: State, step: Step, key: Key)
    requires Attended(s, key)
    ensures Attended(Next(s, step), key)
  {
    match step
    case StartListening(sender, None) => CommandKeepsAttended(s, Unbound, sender, key);
    case StartListening(sender, Some(id)) => CommandKeepsAttended(s, Listener(id), sender, key);
    case Dial(sender, peer, _) => CommandKeepsAttended(s, Peer(peer), sender, key);
    case GetClosestPeers(sender, query) => CommandKeepsAttended(s, Query(query), sender, key);
    case GetHeaders(sender, request) => CommandKeepsAttended(s, Outbound(request), sender, key);
    case NewListenAddr(id) => SettleKeepsAttended(s, Listener(id), true, key);
    case ConnectionEstablished(peer, _) => SettleKeepsAttended(s, Peer(peer), true, key);
    case OutgoingConnectionError(peer) => SettleKeepsAttended(s, Peer(peer), false, key);
    case ClosestPeersResult(query, found) => SettleKeepsAttended(s, Query(query), found, key);
    case HeadersResponse(request) => SettleKeepsAttended(s, Outbound(request), true, key);
    case OutboundFailure(request) => SettleKeepsAttended(s, Outbound(request), false, key);
  }

  /** A dial is dropped only while another dial of the same peer is waiting. */
  lemma DroppedOnlyBehindSamePeer(s: State, step: Step)
    ensures
      if step.Dial? && Peer(step.peer) in s.pending then
        Next(s, step).dropped == s.dropped + [Command(step.sender, Peer(step.peer))]
      else Next(s, step).dropped == s.dropped
  {
  }

  lemma NextKeepsDropsAttended(s: State, step: Step)
    requires DropsAttended(s)
    ensures DropsAttended(Next(s, step))
  {
    DroppedOnlyBehindSamePeer(s, step);
    var s' := Next(s, step);
    forall i | 0 <= i < |s'.dropped|
      ensures s'.dropped[i].key.Peer? && Attended(s', s'.dropped[i].key)
    {
      if i < |s.dropped| {
        NextKeepsAttended(s, step, s.dropped[i].key);
      }
    }
  }

  lemma RefuseKeepsConserved(s: State, key: Key, sender: nat)
    requires Conserved(s)
    ensures Conserved(Refuse(s, key, sender)) && Conserved(Drop(s, key, sender))
  {
    Snoc(s.handled, Command(sender, key));
    Snoc(s.answeredErr, Command(sender, key));
    Snoc(s.dropped, Command(sender, key));
  }

  lemma NextKeepsConserved(s: State, step: Step)
    requires Conserved(s) && Fresh(s, step)
    ensures Conserved(Next(s, step))
  {
    match step
    case StartListening(sender, None) => RefuseKeepsConserved(s, Unbound, sender);
    case StartListening(sender, Some(id)) => FileKeepsConserved(s, Listener(id), sender);
    case Dial(sender, peer, accepted) =>
      RefuseKeepsConserved(s, Peer(peer), sender);
      if Peer(peer) !in s.pending {
        FileKeepsConserved(s, Peer(peer), sender);
      }
    case GetClosestPeers(sender, query) => FileKeepsConserved(s, Query(query), sender);
    case GetHeaders(sender, request) => FileKeepsConserved(s, Outbound(request), sender);
    case NewListenAddr(id) => SettleKeepsConserved(s, Listener(id), true);
    case ConnectionEstablished(peer, asDialer) => SettleKeepsConserved(s, Peer(peer), true);
    case OutgoingConnectionError(peer) => SettleKeepsConserved(s, Peer(peer), false);
    case ClosestPeersResult(query, found) => SettleKeepsConserved(s, Query(query), found);
    case HeadersResponse(request) => SettleKeepsConserved(s, Outbound(request), true);
    case OutboundFailure(request) => SettleKeepsConserved(s, Outbound(request), false);
  }

  lemma {:induction false} RunKeepsConserved(s: State, steps: seq<Step>)
    requires Conserved(s) && DropsAttended(s) && FreshRun(s, steps)
    ensures Conserved(Run(s, steps)) && DropsAttended(Run(s, steps))
    decreases |steps|
  {
    if steps == [] {
    } else {
      NextKeepsConserved(s, steps[0]);
      NextKeepsDropsAttended(s, steps[0]);
      RunKeepsConserved(Next(s, steps[0]), steps[1..]);
    }
  }

  /** In every run with fresh ids the commands handled split exactly into
      answered Ok, answered Err, still waiting under their own key, and dropped;
      so a command handled once is in one of these. What is dropped are dials,
      each of a peer with another dial that is waiting or has been answered. */
  lemma EveryCommandAccountedFor(steps: seq<Step>, c: Command)
    requires FreshRun(Init(), steps)
    ensures
      var s := Run(Init(), steps);
      && DropsAttended(s)
      && multiset(s.handled)[c] == multiset(s.answeredOk)[c] + multiset(s.answeredErr)[c]
                                   + (if c.key in s.pending && s.pending[c.key] == c.sender then 1 else 0)
                                   + multiset(s.dropped)[c]
  {
    assert Conserved(Init());
    RunKeepsConserved(Init(), steps);
    var s := Run(Init(), steps);
    assert multiset(Waiting(s.pending))[c] == (if c in Waiting(s.pending) then 1 else 0);
    assert c in Waiting(s.pending) <==> c.key in s.pending && s.pending[c.key] == c.sender;
  }

  // ----- Who is answered what -----

  /** The events that bring a command under this key its success. */
  ghost predicate Success(step: Step, key: Key) {
    match key
    case Listener(id) => step == NewListenAddr(id)
    case Peer(id) => step == ConnectionEstablished(id, true)
    case Query(id) => step == ClosestPeersResult(id, true)
    case Outbound(id) => step == HeadersResponse(id)
    case Unbound => false
  }

  /** The events that bring it its failure. */
  ghost predicate Failure(step: Step, key: Key) {
    match key
    case Listener(_) => false
    case Peer(id) => step == OutgoingConnectionError(id)
    case Query(id) => step == ClosestPeersResult(id, false)
    case Outbound(id) => step == OutboundFailure(id)
    case Unbound => false
  }

  /** The command is refused on the spot. */
  ghost predicate Refusal(s: State, step: Step, c: Command) {
    || (c.key.Unbound? && step == StartListening(c.sender, None))
    || (c.key.Peer? && c.key !in s.pending && step == Dial(c.sender, c.key.id, false))
  }

  ghost predicate WaitsAs(s: State, c: Command) {
    c.key in s.pending && s.pending[c.key] == c.sender
  }

  ghost function OkTo(s: State, step: Step, c: Command): nat {
    if Success(step, c.key) && WaitsAs(s, c) then 1 else 0
  }

  ghost function ErrTo(s: State, step: Step, c: Command): nat {
    if (Failure(step, c.key) && WaitsAs(s, c)) || Refusal(s, step, c) then 1 else 0
  }

  lemma SettleAnswers(s: State, key: Key, ok: bool, c: Command)
    ensures
      var s', told := Settle(s, key, ok), if c.key == key && WaitsAs(s, c) then 1 else 0;
      && multiset(s'.answeredOk)[c] == multiset(s.answeredOk)[c] + (if ok then told else 0)
      && multiset(s'.answeredErr)[c] == multiset(s.answeredErr)[c] + (if ok then 0 else told)
  {
    if key in s.pending {
      Snoc(s.answeredOk, Command(s.pending[key], key));
      Snoc(s.answeredErr, Command(s.pending[key], key));
      assert c == Command(c.sender, c.key);
    }
  }

  lemma RefuseAnswers(s: State, key: Key, sender: nat, c: Command)
    ensures
      var s' := Refuse(s, key, sender);
      && s'.answeredOk == s.answeredOk
      && multiset(s'.answeredErr)[c] == multiset(s.answeredErr)[c] + (if c == Command(sender, key) then 1 else 0)
  {
    Snoc(s.answeredErr, Command(sender, key));
  }

  ghost predicate AnswersDue(s: State, step: Step, c: Command) {
    && multiset(Next(s, step).answeredOk)[c] == multiset(s.answeredOk)[c] + OkTo(s, step, c)
    && multiset(Next(s, step).answeredErr)[c] == multiset(s.answeredErr)[c] + ErrTo(s, step, c)
  }

  predicate IsCommand(step: Step) {
    step.StartListening? || step.Dial? || step.GetClosestPeers? || step.GetHeaders?
  }

  lemma CommandAnswers(s: State, step: Step, c: Command)
    requires IsCommand(step)
    ensures AnswersDue(s, step, c)
  {
    match step
    case StartListening(sender, None) => RefusedAsDue(s, step, Unbound, sender, c);
    case Dial(sender, peer, false) =>
      if Peer(peer) !in s.pending {
        RefusedAsDue(s, step, Peer(peer), sender, c);
      }
    case _ =>
  }

  lemma RefusedAsDue(s: State, step: Step, key: Key, sender: nat, c: Command)
    requires IsCommand(step) && Next(s, step) == Refuse(s, key, sender)
    requires Refusal(s, step, c) <==> c == Command(sender, key)
    ensures AnswersDue(s, step, c)
  {
    RefuseAnswers(s, key, sender, c);
  }

  lemma EventAnswers(s: State, step: Step, c: Command)
    requires !IsCommand(step)
    ensures AnswersDue(s, step, c)
  {
    match step
    case NewListenAddr(id) => SettledAsDue(s, step, Listener(id), true, c);
    case ConnectionEstablished(peer, dialer) =>
      if dialer {
        SettledAsDue(s, step, Peer(peer), true, c);
      }
    case OutgoingConnectionError(peer) => SettledAsDue(s, step, Peer(peer), false, c);
    case ClosestPeersResult(query, found) => SettledAsDue(s, step, Query(query), found, c);
    case HeadersResponse(request) => SettledAsDue(s, step, Outbound(request), true, c);
    case OutboundFailure(request) => SettledAsDue(s, step, Outbound(request), false, c);
  }

  lemma SettledAsDue(s: State, step: Step, key: Key, ok: bool, c: Command)
    requires !IsCommand(step) && Next(s, step) == Settle(s, key, ok)
    requires Success(step, c.key) <==> ok && c.key == key
    requires Failure(step, c.key) <==> !ok && c.key == key
    ensures AnswersDue(s, step, c)
  {
    SettleAnswers(s, key, ok, c);
  }

  /** Of the steps of the run, those at which the command is due an Ok. */
  ghost function OksDue(s: State, steps: seq<Step>, c: Command): nat
    decreases |steps|
  {
    if steps == [] then 0 else OkTo(s, steps[0], c) + OksDue(Next(s, steps[0]), steps[1..], c)
  }

  ghost function ErrsDue(s: State, steps: seq<Step>, c: Command): nat
    decreases |steps|
  {
    if steps == [] then 0 else ErrTo(s, steps[0], c) + ErrsDue(Next(s, steps[0]), steps[1..], c)
  }

  lemma {:induction false} RunAnswers(s: State, steps: seq<Step>, c: Command)
    ensures multiset(Run(s, steps).answeredOk)[c] == multiset(s.answeredOk)[c] + OksDue(s, steps, c)
    ensures multiset(Run(s, steps).answeredErr)[c] == multiset(s.answeredErr)[c] + ErrsDue(s, steps, c)
    decreases |steps|
  {
    if steps == [] {
    } else {
      if IsCommand(steps[0]) {
        CommandAnswers(s, steps[0], c);
      } else {
        EventAnswers(s, steps[0], c);
      }
      RunAnswers(Next(s, steps[0]), steps[1..], c);
    }
  }

  /** In every run a command is answered Ok exactly as often as a success event for
      its own key finds it waiting, and Err exactly as often as a failure does or
      it is refused on the spot. */
  lemma AnsweredAsDue(steps: seq<Step>, c: Command)
    ensures multiset(Run(Init(), steps).answeredOk)[c] == OksDue(Init(), steps, c)
    ensures multiset(Run(Init(), steps).answeredErr)[c] == ErrsDue(Init(), steps, c)
  {
    RunAnswers(Init(), steps, c);
  }

  /** `pending` is the four tables read as one. */
  ghost predicate Mirrors(
    pending: map<Key, nat>,
    listening: map<nat, nat>, dial: map<nat, nat>, closestPeers: map<nat, nat>, headers: map<nat, nat>)
  {
    forall key: Key ::
      match key
      case Listener(i) => (key in pending <==> i in listening) && (i in listening ==> pending[key] == listening[i])
      case Peer(i) => (key in pending <==> i in dial) && (i in dial ==> pending[key] == dial[i])
      case Query(i) =>
        (key in pending <==> i in closestPeers) && (i in closestPeers ==> pending[key] == closestPeers[i])
      case Outbound(i) => (key in pending <==> i in headers) && (i in headers ==> pending[key] == headers[i])
      case Unbound => key !in pending
  }

  /** The command that waits under `id` of one table, if any. */
  function Told(table: map<nat, nat>, id: nat, key: Key): seq<Command> {
    if id in table then [Command(table[id], key)] else []
  }

  // ----- The object -----

  class NetworkManager {
    var pendingListening: map<nat, nat>
    var pendingDial: map<nat, nat>
    var pendingGetClosestPeers: map<nat, nat>
    var pendingRequestHeaders: map<nat, nat>
    var handled: seq<Command>
    var answeredOk: seq<Command>
    var answeredErr: seq<Command>
    var dropped: seq<Command>

    ghost var pending: map<Key, nat>

    ghost predicate Valid()
      reads this
    {
      Mirrors(pending, pendingListening, pendingDial, pendingGetClosestPeers, pendingRequestHeaders)
    }

    ghost function View(): State
      reads this
    {
      State(pending, handled, answeredOk, answeredErr, dropped)
    }

    constructor ()
      ensures Valid() && View() == Init()
    {
      pendingListening, pendingDial, pendingGetClosestPeers, pendingRequestHeaders := map[], map[], map[], map[];
      handled, answeredOk, answeredErr, dropped := [], [], [], [];
      pending := map[];
    }

    /** Takes a command from the provider. `aborted`: the refusal found its
        receiver dropped. */
    method HandleCommand(step: Step, open: set<nat>) returns (aborted: bool)
      requires IsCommand(step)
      requires Valid()
      modifies this
      ensures Valid()
      ensures aborted <==> Aborts(old(View()), step, open)
      ensures aborted <==>
                match step
                case StartListening(sender, None) => sender !in open
                case Dial(sender, peer, false) => peer !in old(pendingDial) && sender !in open
                case _ => false
      ensures !aborted ==> View() == Next(old(View()), step)
      ensures pendingListening ==
              match step
              case StartListening(sender, Some(id)) => old(pendingListening)[id := sender]
              case _ => old(pendingListening)
      ensures pendingDial ==
              match step
              case Dial(sender, peer, true) =>
                if peer in old(pendingDial) then old(pendingDial) else old(pendingDial)[peer := sender]
              case _ => old(pendingDial)
      ensures pendingGetClosestPeers ==
              match step
              case GetClosestPeers(sender, query) => old(pendingGetClosestPeers)[query := sender]
              case _ => old(pendingGetClosestPeers)
      ensures pendingRequestHeaders ==
              match step
              case GetHeaders(sender, request) => old(pendingRequestHeaders)[request := sender]
              case _ => old(pendingRequestHeaders)
      ensures handled == old(handled) +
              match step
              case StartListening(sender, None) => [Command(sender, Unbound)]
              case StartListening(sender, Some(id)) => [Command(sender, Listener(id))]
              case Dial(sender, peer, _) => [Command(sender, Peer(peer))]
              case GetClosestPeers(sender, query) => [Command(sender, Query(query))]
              case GetHeaders(sender, request) => [Command(sender, Outbound(request))]
              case _ => []
      ensures answeredOk == old(answeredOk)
      ensures !aborted ==>
                answeredErr == old(answeredErr) +
                match step
                case StartListening(sender, None) => [Command(sender, Unbound)]
                case Dial(sender, peer, false) =>
                  if peer in old(pendingDial) then [] else [Command(sender, Peer(peer))]
                case _ => []
      ensures !aborted ==>
                dropped == old(dropped) +
                match step
                case Dial(sender, peer, _) => if peer in old(pendingDial) then [Command(sender, Peer(peer))] else []
                case _ => []
    {
      aborted := false;
      match step
      case StartListening(sender, bound) =>
        aborted := OnStartListening(sender, bound, open);
      case Dial(sender, peer, accepted) =>
        aborted := OnDial(sender, peer, accepted, open);
      case GetClosestPeers(sender, query) => FileQuery(sender, query);
      case GetHeaders(sender, request) => FileRequest(sender, request);
    }

    method FileQuery(sender: nat, query: nat)
      requires Valid()
      modifies this
      ensures Valid()
      ensures View() == File(old(View()), Query(query), sender)
      ensures pendingGetClosestPeers == old(pendingGetClosestPeers)[query := sender]
      ensures unchanged(`pendingListening, `pendingDial, `pendingRequestHeaders)
    {
      handled := handled + [Command(sender, Query(query))];
      pendingGetClosestPeers := pendingGetClosestPeers[query := sender];
      pending := pending[Query(query) := sender];
    }

    method FileRequest(sender: nat, request: nat)
      requires Valid()
      modifies this
      ensures Valid()
      ensures View() == File(old(View()), Outbound(request), sender)
      ensures pendingRequestHeaders == old(pendingRequestHeaders)[request := sender]
      ensures unchanged(`pendingListening, `pendingDial, `pendingGetClosestPeers)
    {
      handled := handled + [Command(sender, Outbound(request))];
      pendingRequestHeaders := pendingRequestHeaders[request := sender];
      pending := pending[Outbound(request) := sender];
    }

    method OnStartListening(sender: nat, bound: Option<nat>, open: set<nat>) returns (aborted: bool)
      requires Valid()
      modifies this
      ensures Valid()
      ensures aborted <==> bound.None? && sender !in open
      ensures !aborted ==> View() == Next(old(View()), StartListening(sender, bound))
      ensures pendingListening ==
              if bound.Some? then old(pendingListening)[bound.value := sender] else old(pendingListening)
      ensures unchanged(`pendingDial, `pendingGetClosestPeers, `pendingRequestHeaders, `answeredOk)
      ensures handled == old(handled) + [Command(sender, if bound.Some? then Listener(bound.value) else Unbound)]
    {
      if bound.Some? {
        FileListening(sender, bound.value);
        return false;
      }
      handled := handled + [Command(sender, Unbound)];
      if sender !in open {
        return true;
      }
      answeredErr := answeredErr + [Command(sender, Unbound)];
      return false;
    }

    method FileListening(sender: nat, listener: nat)
      requires Valid()
      modifies this
      ensures Valid()
      ensures View() == File(old(View()), Listener(listener), sender)
      ensures pendingListening == old(pendingListening)[listener := sender]
      ensures unchanged(`pendingDial, `pendingGetClosestPeers, `pendingRequestHeaders)
    {
      handled := handled + [Command(sender, Listener(listener))];
      pendingListening := pendingListening[listener := sender];
      pending := pending[Listener(listener) := sender];
    }

    method OnDial(sender: nat, peer: nat, accepted: bool, open: set<nat>) returns (aborted: bool)
      requires Valid()
      modifies this
      ensures Valid()
      ensures aborted <==> peer !in old(pendingDial) && !accepted && sender !in open
      ensures !aborted ==> View() == Next(old(View()), Dial(sender, peer, accepted))
      ensures pendingDial ==
              if accepted && peer !in old(pendingDial) then old(pendingDial)[peer := sender] else old(pendingDial)
      ensures unchanged(`pendingListening, `pendingGetClosestPeers, `pendingRequestHeaders, `answeredOk)
      ensures handled == old(handled) + [Command(sender, Peer(peer))]
    {
      handled := handled + [Command(sender, Peer(peer))];
      if peer in pendingDial {
        dropped := dropped + [Command(sender, Peer(peer))];
      } else if accepted {
        pendingDial := pendingDial[peer := sender];
        pending := pending[Peer(peer) := sender];
      } else if sender !in open {
        return true;
      } else {
        answeredErr := answeredErr + [Command(sender, Peer(peer))];
      }
      return false;
    }

    /** A dial ends: connected as the dialer, or failed. */
    method SettleDial(peer: nat, ok: bool, open: set<nat>) returns (aborted: bool)
      requires Valid()
      modifies this
      ensures Valid()
      ensures aborted <==> peer in old(pendingDial) && old(pendingDial)[peer] !in open
      ensures !aborted ==> View() == Settle(old(View()), Peer(peer), ok)
      ensures pendingDial == old(pendingDial) - {peer}
      ensures unchanged(`pendingListening, `pendingGetClosestPeers, `pendingRequestHeaders, `handled, `dropped)
      ensures !aborted ==>
                var told := Told(old(pendingDial), peer, Peer(peer));
                if ok then answeredOk == old(answeredOk) + told && answeredErr == old(answeredErr)
                else answeredErr == old(answeredErr) + told && answeredOk == old(answeredOk)
    {
      aborted := false;
      if peer in pendingDial {
        var sender := pendingDial[peer];
        pendingDial := pendingDial - {peer};
        pending := pending - {Peer(peer)};
        aborted := sender !in open;
        if aborted {
          return;
        }
        if ok {
          answeredOk := answeredOk + [Command(sender, Peer(peer))];
        } else {
          answeredErr := answeredErr + [Command(sender, Peer(peer))];
        }
      }
    }

    method SettleListening(listener: nat, open: set<nat>) returns (aborted: bool)
      requires Valid()
      modifies this
      ensures Valid()
      ensures aborted <==> listener in old(pendingListening) && old(pendingListening)[listener] !in open
      ensures !aborted ==> View() == Settle(old(View()), Listener(listener), true)
      ensures pendingListening == old(pendingListening) - {listener}
      ensures unchanged(`pendingDial, `pendingGetClosestPeers, `pendingRequestHeaders, `handled, `dropped)
      ensures !aborted ==>
                && answeredOk == old(answeredOk) + Told(old(pendingListening), listener, Listener(listener))
                && answeredErr == old(answeredErr)
    {
      aborted := false;
      if listener in pendingListening {
        var sender := pendingListening[listener];
        pendingListening := pendingListening - {listener};
        pending := pending - {Listener(listener)};
        aborted := sender !in open;
        if aborted {
          return;
        }
        answeredOk := answeredOk + [Command(sender, Listener(listener))];
      }
    }

    method HandleKadEvent(query: nat, found: bool, open: set<nat>) returns (aborted: bool)
      requires Valid()
      modifies this
      ensures Valid()
      ensures aborted <==> query in old(pendingGetClosestPeers) && old(pendingGetClosestPeers)[query] !in open
      ensures !aborted ==> View() == Settle(old(View()), Query(query), found)
      ensures pendingGetClosestPeers == old(pendingGetClosestPeers) - {query}
      ensures unchanged(`pendingListening, `pendingDial, `pendingRequestHeaders, `handled, `dropped)
      ensures !aborted ==>
                var told := Told(old(pendingGetClosestPeers), query, Query(query));
                if found then answeredOk == old(answeredOk) + told && answeredErr == old(answeredErr)
                else answeredErr == old(answeredErr) + told && answeredOk == old(answeredOk)
    {
      aborted := false;
      if query in pendingGetClosestPeers {
        var sender := pendingGetClosestPeers[query];
        pendingGetClosestPeers := pendingGetClosestPeers - {query};
        pending := pending - {Query(query)};
        aborted := sender !in open;
        if aborted {
          return;
        }
        if found {
          answeredOk := answeredOk + [Command(sender, Query(query))];
        } else {
          answeredErr := answeredErr + [Command(sender, Query(query))];
        }
      }
    }

    /** A response or failure goes to the sender of the request; when the sync
        that asked has ended meanwhile, nobody holds the receiver any more and the
        program aborts. Replies says when that can happen. */
    method HandleRequestResponseEvent(request: nat, ok: bool, open: set<nat>) returns (aborted: bool)
      requires Valid()
      modifies this
      ensures Valid()
      ensures aborted <==> request in old(pendingRequestHeaders) && old(pendingRequestHeaders)[request] !in open
      ensures !aborted ==> View() == Settle(old(View()), Outbound(request), ok)
      ensures pendingRequestHeaders == old(pendingRequestHeaders) - {request}
      ensures unchanged(`pendingListening, `pendingDial, `pendingGetClosestPeers, `handled, `dropped)
      ensures !aborted ==>
                var told := Told(old(pendingRequestHeaders), request, Outbound(request));
                if ok then answeredOk == old(answeredOk) + told && answeredErr == old(answeredErr)
                else answeredErr == old(answeredErr) + told && answeredOk == old(answeredOk)
    {
      aborted := false;
      if request in pendingRequestHeaders {
        var sender := pendingRequestHeaders[request];
        pendingRequestHeaders := pendingRequestHeaders - {request};
        pending := pending - {Outbound(request)};
        aborted := sender !in open;
        if aborted {
          return;
        }
        if ok {
          answeredOk := answeredOk + [Command(sender, Outbound(request))];
        } else {
          answeredErr := answeredErr + [Command(sender, Outbound(request))];
        }
      }
    }

    method HandleEvent(step: Step, open: set<nat>) returns (aborted: bool)
      requires !IsCommand(step)
      requires Valid()
      modifies this
      ensures Valid()
      ensures aborted <==> Aborts(old(View()), step, open)
      ensures aborted <==>
                match step
                case NewListenAddr(id) => id in old(pendingListening) && old(pendingListening)[id] !in open
                case ConnectionEstablished(id, dialer) =>
                  dialer && id in old(pendingDial) && old(pendingDial)[id] !in open
                case OutgoingConnectionError(id) => id in old(pendingDial) && old(pendingDial)[id] !in open
                case ClosestPeersResult(id, _) =>
                  id in old(pendingGetClosestPeers) && old(pendingGetClosestPeers)[id] !in open
                case HeadersResponse(id) =>
                  id in old(pendingRequestHeaders) && old(pendingRequestHeaders)[id] !in open
                case OutboundFailure(id) =>
                  id in old(pendingRequestHeaders) && old(pendingRequestHeaders)[id] !in open
                case _ => false
      ensures !aborted ==> View() == Next(old(View()), step)
      ensures !aborted ==>
                answeredOk == old(answeredOk) +
                match step
                case NewListenAddr(id) => Told(old(pendingListening), id, Listener(id))
                case ConnectionEstablished(id, true) => Told(old(pendingDial), id, Peer(id))
                case ClosestPeersResult(id, true) => Told(old(pendingGetClosestPeers), id, Query(id))
                case HeadersResponse(id) => Told(old(pendingRequestHeaders), id, Outbound(id))
                case _ => []
      ensures !aborted ==>
                answeredErr == old(answeredErr) +
                match step
                case OutgoingConnectionError(id) => Told(old(pendingDial), id, Peer(id))
                case ClosestPeersResult(id, false) => Told(old(pendingGetClosestPeers), id, Query(id))
                case OutboundFailure(id) => Told(old(pendingRequestHeaders), id, Outbound(id))
                case _ => []
      ensures unchanged(`handled, `dropped)
      ensures pendingListening ==
              old(pendingListening) - match step case NewListenAddr(id) => {id} case _ => {}
      ensures pendingDial ==
              old(pendingDial) -
              match step
              case ConnectionEstablished(id, true) => {id}
              case OutgoingConnectionError(id) => {id}
              case _ => {}
      ensures pendingGetClosestPeers ==
              old(pendingGetClosestPeers) - match step case ClosestPeersResult(id, _) => {id} case _ => {}
      ensures pendingRequestHeaders ==
              old(pendingRequestHeaders) -
              match step
              case HeadersResponse(id) => {id}
              case OutboundFailure(id) => {id}
              case _ => {}
    {
      aborted := false;
      match step
      case NewListenAddr(listener) => aborted := SettleListening(listener, open);
      case ConnectionEstablished(peer, asDialer) =>
        if asDialer {
          aborted := SettleDial(peer, true, open);
        }
      case OutgoingConnectionError(peer) => aborted := SettleDial(peer, false, open);
      case ClosestPeersResult(query, found) => aborted := HandleKadEvent(query, found, open);
      case HeadersResponse(request) => aborted := HandleRequestResponseEvent(request, true, open);
      case OutboundFailure(request) => aborted := HandleRequestResponseEvent(request, false, open);
      case _ =>
    }
  }
}
