# Verified model of the simb header-chain node

simb is a small header-chain node: one miner, many followers, gossip for new
headers and a batched download for the headers a node has missed. This project
models its stateful core in Dafny and proves what that core guarantees over
every run, and where it falls short of what its comments say.

| file | what it models |
|---|---|
| `Interface.dfy` | the values shared by all components |
| `BlockTree.dfy` | the header table, the hash index, `try_add_block_header`, `mine_block`; class `Chain` |
| `ChainRuns.dfy` | runs of adds of arbitrary headers: parent links, the hash index |
| `SharedChain.dfy` | one chain used by many threads, with every add and every mining attempt in its separately locked steps |
| `SharedLinks.dfy` | parent links and the hash index on that chain |
| `Miners.dfy` | several mining threads on that chain |
| `Serving.dfy` | the loop that answers a header request |
| `SyncHeaders.dfy` | the windowed batch downloader; class `SyncHeader` |
| `EndToEnd.dfy` | a download from an honest peer and the loop that applies it |
| `CompletionOrder.dfy` | runs of a download in which replies come in, or out of, issue order |
| `ChainManager.dfy` | the event-driven manager; class `ChainNetworkManager` |
| `ManagerRuns.dfy` | runs of one manager: broadcasts, gating, the pending flag, catching up |
| `MiningNode.dfy` | one manager, its adds in their locked steps, beside mining threads on the same chain |
| `BroadcastRaces.dfy` | when such a node broadcasts what it should not |
| `NodeRefinement.dfy` | the manager with atomic adds as one way such a node can run |
| `Network.dfy` | many nodes, one of them mining, over a network that loses, duplicates and reorders |
| `Convergence.dfy` | what such a network can still reach from any state, by gossip and mining |
| `DownloadRoute.dfy` | the same by lookup, requests, answers and the collected sync |
| `Pool.dfy` | the transaction pool; class `PoolTx` |
| `Ledger.dfy` | the network manager's four tables of unanswered commands; class `NetworkManager` |
| `Replies.dfy` | a download, the network manager and the reply channels between them |
| `HonestReplies.dfy` | the same with an honest peer |

Each stateful component appears twice: as a state machine on values, whose runs
are all sequences of steps (a step that is not enabled does nothing), and as a
class with the program's fields and loops, whose methods are proved to move the
state exactly as the machine does. The theorems over runs are about the machine.

The main results:

- `Network.NetworkSafety`: with any number of nodes and any loss, duplication and
  reordering, every node holds a prefix of the miner's linked chain, everything in
  flight belongs to it, and every mining attempt succeeds. `Convergence.CanConverge`:
  from every state so reached, all nodes can still get to the miner's whole chain;
  `DownloadRoute.CanDownload`: an idle node behind can get there by the download.
- `SharedChain.InterleavedAdds` and `Miners.MiningSafeIff`: the same chain object
  under every interleaving of its users; every mining attempt succeeds, and none
  aborts the program, exactly when at most one thread mines.
- `SharedLinks.LinkedInEveryStateIff` and `SharedLinks.ConflictFreeThreadsStayLinked`:
  exactly which interleavings keep every parent link.
- `ManagerRuns.BroadcastsExactly`: what a manager broadcasts after any run, from the
  chain and the steps alone. `BroadcastRaces.OnlyAheadIffNobodyMines` and `MiningNode.BroadcastsBoundedByRaces`: what it broadcasts while it mines.
- `ManagerRuns.CatchesUp`: from hearing of a block far ahead to being caught up, or
  stuck, through event, lookup, download and apply, and exactly when which.
- `EndToEnd.HonestSyncSucceedsIff`, `EndToEnd.SyncThenApply` and
  `CompletionOrder.EveryRunBringsAllIff`: exactly when a download ends well, what is
  applied for every order of replies, and which downloads always bring everything.
- `SharedLinks.AgreesInEveryStateIff`, `ManagerRuns.OneSyncAtATime`,
  `ManagerRuns.HealthyIffNeverStranded`, `Replies.ReplyAbortsIff`,
  `HonestReplies.HonestReplyAbortsIff`, `Ledger.FileConservesIffFresh`: exact conditions for
  promises that do not hold always.

Conventions. Block numbers are `nat`; they stay below 2^64 - 1 and storage does
not fail. `header.number - 1` on a header numbered 0 that is not genesis wraps,
as in a build without overflow checks, to a number that is never stored, so the
parent is not found; a build with overflow checks aborts there. Hashes are opaque
strings: no theorem needs them to be distinct unless it says so. Nonce and hash of
a mined block are parameters, and so are the swarm's verdicts and ids, the
peers found, the order of replies and what they say, and, for the network manager
alone, which reply channels still have a receiver. `request_limit` and
`max_concurrent_limit` are at least 1, as in the defaults 1000 and 10.

Where code and text disagree, the code is modelled:

- src/net/chain.rs:285 calls a download "in preserve order". Batches come back in
  completion order. Against an honest peer that has all the batches, a download
  with batch size L and window W from tip t to target T always brings the tip to
  min(peer tip, T) if and only if T <= t + L or W = 1
  (`CompletionOrder.EveryRunBringsAllIff`); otherwise some run ends well with
  nothing applied, yet counts as a success (`ManagerRuns.SuccessMayApplyNothing`).
  With the default limits that is every gap above 1000
  (`ManagerRuns.AlwaysCatchesUpFullyIff`).
- README.md:40 says an incomplete batch leaves the node synced to the last valid
  header. One empty batch throws the whole download away; that happens if and only
  if the peer's tip is below the first block of the last batch
  (`EndToEnd.HonestSyncSucceedsIff`, `ManagerRuns.CatchesUp`).
- src/net/chain.rs:171 says headers are never synced more than one at a time. That
  holds over a run if and only if no open lookup comes back with two peers or more
  (`ManagerRuns.OneSyncAtATime`); `ManagerRuns.TwoPeersBreakTheGate` is a run in
  which it fails.
- src/net/chain.rs:318 clears the pending flag only after a successful sync: it
  comes to be set with nothing in flight, and then for ever, exactly in the cases
  of `ManagerRuns.StaysHealthyIff`.
- README.md:26 says only headers ahead of the local chain are broadcast, and
  src/net/chain.rs:160 that a mined block is never broadcast twice. With adds that
  nobody interrupts a header numbered 0 is the one exception to the first
  (`ManagerRuns.BroadcastIsAhead`). On a node that mines, a header at or below the
  tip is broadcast if and only if a miner's write comes between the two tip reads of
  its add (`MiningNode.SentIff`); in all runs every header whose add is told
  `ExtendTip` is next to the tip if and only if nobody mines on the node, and
  exactly then the number of broadcasts of the node's own first block is bounded
  (`BroadcastRaces.OnlyAheadIffNobodyMines`).
- src/blocktree.rs:75 says a block that fell behind is not added. It has been
  written: `SharedLinks.FellBehindWasWritten`.
- src/blocktree.rs:135-137 aborts on a refused block as if that could not happen.
  Among threads that otherwise add stored blocks it cannot if and only if at most
  one of them mines (`Miners.MiningSafeIff`);
  `Miners.MiningPanicsIff` says which attempts are refused.
- `AlreadyInChain` may replace a stored block. An add that nobody interrupts breaks
  a link exactly under the guard of `ChainRuns.AcceptKeepsChainLinkedIff`. Between
  threads a write breaks one exactly when it undercuts or its own parent has been
  replaced since it was validated (`SharedLinks.NextKeepsLinkedIff`;
  `SharedLinks.LateWriteUnlinks` is the second case alone). A write breaks the
  lookup by hash exactly when it misleads the index (`SharedLinks.AgreesInEveryStateIff`).
- src/net/network.rs:407 and :417 expect the receiver of a reply to be there. It can
  be gone if and only if a download spans several batches and its window is at
  least 2 (`Replies.ReplyAbortsIff`); with an honest peer, if and only if moreover
  the peer's tip is below the first block of the last batch
  (`HonestReplies.HonestReplyAbortsIff`).

## Model

| member | source | states |
|---|---|---|
| BlockTree.InitialTables | src/blocktree.rs:163-195 | a fresh chain holds genesis alone, well formed and linked |
| BlockTree.Last | src/blocktree.rs:283-296 | the tip is the entry with the greatest number |
| BlockTree.TryAddOutcome | src/blocktree.rs:199-258 | which of the four outcomes an add has, each if and only if a condition on number, parent hash and tip |
| BlockTree.TryAddTables | src/blocktree.rs:232-258 | an add keeps numbers contiguous and each header under its own number, moves the tip by one exactly on `ExtendTip`, writes one slot and one index entry, and nothing on an error |
| BlockTree.Chain.constructor | src/blocktree.rs:163-195 | a new database holds genesis only; one left by an earlier run keeps all its blocks and links, and its index but for genesis |
| BlockTree.Chain.GetHeaderByBlockNumber | src/blocktree.rs:260-270 | returns the header stored under the number, or not found; in a valid chain succeeds exactly up to the tip, with the header carrying that number |
| BlockTree.Chain.GetHeaderByHash | src/blocktree.rs:272-280 | succeeds exactly for a hash indexed at a stored number; while the index is that of the topmost hashes, exactly for the stored hashes, with the topmost block carrying the hash |
| BlockTree.Chain.Tip | src/blocktree.rs:283-296 | no stored header has a greater number |
| BlockTree.Chain.ValidateAdjacentBlockHeader | src/blocktree.rs:199-216 | acceptance means genesis or a stored parent with the named hash |
| BlockTree.Chain.TryAddBlockHeader | src/blocktree.rs:232-258 | the object's add is the specified one and keeps the chain valid; `ExtendTip` exactly for the linked next block |
| BlockTree.Chain.MineBlock | src/blocktree.rs:107-142 | undisturbed mining returns `Mined` with a header on the tip carrying the given nonce and hash and no state root or timestamp, raises the tip by one and keeps the chain linked |
| ChainRuns.OneMoreAdd | src/blocktree.rs:232-258 | a run of adds tries each header on what the ones before left, refused or not |
| ChainRuns.AcceptAndLinks | src/blocktree.rs:199-258 | an accept establishes the link to its parent and can change only the link above it, which then holds iff the hash matches |
| ChainRuns.AcceptKeepsChainLinkedIff | src/blocktree.rs:232-258 | a linked chain stays linked over an add that nobody interrupts iff it does not put another hash below an existing block |
| ChainRuns.LinkedThroughoutIff | src/blocktree.rs:232-258 | a whole run of arbitrary adds, one after another, is linked after every add iff none of its accepts undercuts |
| ChainRuns.ConflictFreeRunStaysLinked | src/blocktree.rs:199-258 | if no two accepted headers disagree on the hash of a number, every adjacent pair is linked back to genesis |
| ChainRuns.ReplacingABlockCanUnlink | src/blocktree.rs:238-257 | a run in which an add reported `AlreadyInChain` replaces a block and unlinks the next |
| ChainRuns.AcceptedHashesStayResolvable | src/blocktree.rs:247-248 | every hash ever accepted resolves at the end of the run |
| ChainRuns.AgreesIffTopIndex | src/blocktree.rs:260-280 | lookup by hash is a scan from the tip, for every hash, iff the index holds exactly the stored hashes at their greatest numbers |
| ChainRuns.AcceptKeepsAgreementIff | src/blocktree.rs:232-280 | an accept keeps that agreement iff it neither takes the slot its old hash is indexed at nor pulls an index entry down from a higher block |
| ChainRuns.FreshIndexAgreesIff | src/blocktree.rs:232-280 | a whole run of arbitrary adds from a fresh chain agrees with the scan after every add iff none of its accepts misleads |
| ChainRuns.IndexAgreesWithScan | src/blocktree.rs:260-280 | accepted headers that pair number and hash one-to-one never mislead, so lookup by hash is the scan throughout |
| ChainRuns.ReplacedHashResolvesToReplacement | src/blocktree.rs:238-280 | a run after which the index answers with a header of another hash |
| SharedChain.InterleavedAdds | src/blocktree.rs:199-258 | any threads, any headers, any interleaving: numbers exactly 0..tip, own numbers, a raising write reported `ExtendTip`, `ExtendTip` only if the tip rose between the two reads, tip = number of raising writes |
| SharedChain.TipNeverFalls | src/blocktree.rs:232-258 | the tip of a later state is never lower |
| SharedChain.MiningIsSafe | src/blocktree.rs:107-142 | one miner among adds of stored blocks: every attempt returns `Mined`, raises the tip by exactly one, never panics; the chain stays linked |
| SharedChain.UninterruptedAddIsTryAdd | src/blocktree.rs:232-258 | the four locked steps without interference are the atomic add |
| SharedChain.ExtendTipIff | src/blocktree.rs:236-257 | under any interleaving an add is told `ExtendTip` iff its own write or another thread's, between its two tip reads, raised the tip |
| Miners.MiningSafeIff | src/blocktree.rs:107-142 | n threads, some mining, the others adding stored blocks: every attempt of every run returns `Mined` iff at most one thread mines, and none panics iff so |
| Miners.MiningPanicsIff | src/blocktree.rs:135-137 | in any run, whatever the others add, an attempt panics iff the block below it has another hash at validation than the one it read |
| Miners.SecondMinerCanPanic | src/blocktree.rs:107-142 | wherever two miners have begun on one tip with different hashes, a continuation panics after both were told `ExtendTip` |
| Miners.SlowerReplacesFaster | src/blocktree.rs:236-257 | wherever two threads have begun on one tip and then add one after the other, the second is told `AlreadyInChain` and has replaced the first one's block |
| Miners.SecondMinerReplacesMinedBlock | src/blocktree.rs:135-141 | so with any two miners of n, from a fresh chain, the one told `BlockFallingBehind` has replaced the mined block |
| Miners.NewBlockMakesMinerFallBehind | src/blocktree.rs:107-142 | a foreign add of a block that is not stored makes a mining attempt fall behind |
| SharedChain.TwoAddersBothToldExtendTip | src/blocktree.rs:236-257 | two threads can both be told `ExtendTip` for one raise of the tip |
| SharedLinks.WriteKeepsLinkedIff | src/blocktree.rs:238-252 | a write keeps a linked chain linked iff the parent slot still holds the named hash at that moment and it does not undercut |
| SharedLinks.LinkedInEveryStateIff | src/blocktree.rs:232-258 | any threads, any headers, any interleaving: linked in every state iff no write breaks that guard |
| SharedLinks.ConflictFreeThreadsStayLinked | src/blocktree.rs:199-258 | if no two headers written disagree on the hash of a number, linked in every state of every interleaving |
| SharedLinks.LateWriteUnlinks | src/blocktree.rs:199-258 | from any linked chain above genesis, two writes that do not undercut and yet unlink it, one having been validated before the other |
| SharedLinks.AgreesInEveryStateIff | src/blocktree.rs:232-280 | under any interleaving lookup by hash is a scan in every state iff no write misleads the index |
| SharedLinks.ReportedWasWritten | src/blocktree.rs:232-258 | in every run an add that was reported, either way, has been written |
| SharedLinks.FellBehindWasWritten | src/blocktree.rs:135-141 | in every run a mining attempt told `BlockFallingBehind` has written its block |
| Serving.ServeIsSlice | src/net/chain.rs:219-243 | the answer is the ordered slice from start_block of length min(limit, max(0, tip+1-start_block)) |
| Serving.ServedHeadersAreLinked | src/net/chain.rs:218-243 | linked chains give linked answers |
| SyncHeaders.RequestTiling | src/tasks/sync_header.rs:169-195 | requests are consecutive disjoint ranges of 1..L blocks, at most W in flight, the counter never passes the target, and issuing all covers exactly (local, target] in ceil((target-local)/L) requests |
| SyncHeaders.SyncedMeansAllAnswered | src/tasks/sync_header.rs:127-143 | Ok means every range issued and answered once, non-empty, and the result is the answers concatenated in completion order |
| SyncHeaders.EndsAsItShould | src/tasks/sync_header.rs:127-208 | over every run: EmptyResponse iff a request came back with no headers, RequestError iff one failed, Ok iff it finished with nothing left to ask or wait for |
| SyncHeaders.RunningSyncCanMove | src/tasks/sync_header.rs:153-208 | a running sync is never stuck |
| SyncHeaders.MovesAreBounded | src/tasks/sync_header.rs:153-208 | no run makes more effective moves than a bound fixed at its start |
| SyncHeaders.AbandonsIff | src/tasks/sync_header.rs:153-208 | some run ends with a request in flight iff the sync spans more than one batch and W >= 2 |
| SyncHeaders.SyncHeader.constructor | src/tasks/sync_header.rs:86-97 | a built sync has issued, received and queued nothing; its run invariant holds iff both limits are positive |
| SyncHeaders.SyncHeader.OnHeaderResponse | src/tasks/sync_header.rs:127-143 | an empty batch ends the sync, any other is appended |
| SyncHeaders.SyncHeader.IssueRequest | src/tasks/sync_header.rs:171-191 | issues the next batch and advances the counter, not beyond the target |
| SyncHeaders.SyncHeader.DrainReplies | src/tasks/sync_header.rs:156-163 | takes ready replies in any order, issues nothing |
| SyncHeaders.SyncHeader.FillWindow | src/tasks/sync_header.rs:169-195 | fills the window or issues everything, reporting whether it issued |
| SyncHeaders.SyncHeader.Poll | src/tasks/sync_header.rs:153-208 | terminates; pending only with a request in flight and a full window or nothing left to issue; Ok only when everything was issued and answered |
| EndToEnd.HonestSyncSucceedsIff | src/tasks/sync_header.rs:153-208 | against an honest peer with tip p, an ended sync is Ok iff p >= local+1+(ceil((target-local)/L)-1)*L, else it is EmptyResponse |
| EndToEnd.ApplyStopsAtFirstRefusal | src/net/chain.rs:288-308 | the headers counted are those before the first refused one, tried in order and all accepted, `AlreadyInChain` included |
| EndToEnd.ApplyPeerBlocks | src/net/chain.rs:289-308 | the peer's next blocks in order are all taken |
| EndToEnd.StopsAtGap | src/net/chain.rs:289-308 | a batch ahead of its turn is refused at its first header and ends the loop |
| EndToEnd.SyncThenApply | src/net/chain.rs:281-308 | for every completion order exactly the longest initial run of in-order batches is applied, equal to the peer's; the tip is min(p, target) iff all came in order |
| CompletionOrder.EveryRunBringsAllIff | src/net/chain.rs:281-308 | against an honest peer reaching the last batch, every run that ends well brings the tip to min(p, target) iff target <= local + L or W = 1 |
| CompletionOrder.MayBringNothing | src/tasks/sync_header.rs:153-208 | otherwise some run ends well with its first batch out of turn and nothing applied |
| ChainManager.NextKeepsChain | src/net/chain.rs:129-336 | every manager step keeps the chain well formed and its tip from falling |
| ChainManager.ChainNetworkManager.constructor | src/net/chain.rs:88-105 | a new manager has nothing in flight and has sent nothing |
| ChainManager.ChainNetworkManager.SendSyncRequests | src/net/chain.rs:108-127 | the loop starts the syncs OneSyncPerPeer describes |
| ChainManager.ChainNetworkManager.OnNewBlockHeader | src/net/chain.rs:131-195 | adds the header and reacts to the result; what it then broadcasts is settled by BroadcastsExactly, what it looks up by CatchesUp |
| ChainManager.ChainNetworkManager.OnEvent | src/net/chain.rs:129-216 | a request is answered with the blocks from the one asked for, cut at the limit and the tip; a transaction batch is sent on whole and put in the pool, the last of each hash kept; neither changes anything else; a header is tried on the chain |
| ChainManager.ChainNetworkManager.HandleGetBlockHeadersRequest | src/net/chain.rs:219-243 | the serving loop returns the blocks from the one asked for, cut at the limit and the tip |
| ChainManager.ChainNetworkManager.ApplyHeaders | src/net/chain.rs:288-308 | the apply loop stops at the first refused header and counts those before it |
| ChainManager.ChainNetworkManager.OnSyncReady | src/net/chain.rs:281-325 | a finished sync leaves the set; only a successful one is applied and clears the flag |
| ChainManager.ChainNetworkManager.Poll | src/net/chain.rs:253-336 | every event, then the lookup, then every finished sync is handled once, in that order; one finished sync alone leaves the set and, if Ok, is applied and clears the flag |
| ManagerRuns.BroadcastsExactly | src/net/chain.rs:136-166 | with atomic adds, after any run from a new manager: a step broadcasts exactly the header it tells of, if that links on top of the tip or is ahead of it (or numbered 0, not genesis) and no earlier step told of one with its hash that was; nothing otherwise |
| ManagerRuns.BroadcastIsAhead | src/net/chain.rs:136-166 | with atomic adds: a header broadcast is strictly ahead of the tip iff its number is not 0 |
| ManagerRuns.NeverBroadcastAgain | src/net/chain.rs:136-166 | with atomic adds: a header at or below the tip is never broadcast in any later state |
| ManagerRuns.BroadcastAtMostTwice | src/net/chain.rs:136-166 | with atomic adds: no header is broadcast more than twice in a whole run, one numbered 0 at most once |
| MiningNode.SentIff | src/blocktree.rs:236-257 | in every run beside miners a header that is written is broadcast iff it came by gossip and its own write or a miner's between the two tip reads raised the tip; at or below the first read, iff a miner's did |
| BroadcastRaces.OnlyAheadIffNobodyMines | src/net/chain.rs:136-144 | every add of the manager told `ExtendTip`, in every run, is of the block next to the tip it read iff nobody mines; likewise "no broadcast is a race" and "the node's first block is broadcast boundedly often" |
| MiningNode.BroadcastsBoundedByRaces | src/net/chain.rs:136-166 | in every run beside miners broadcasts of a header <= 2 (1 if numbered 0) + its races, and races <= raises of the tip by miners |
| MiningNode.PastTheTipOnlyRaces | src/net/chain.rs:136-166 | once a header is at or below the tip its later broadcasts are exactly its later races |
| BroadcastRaces.RoundSendsAgain | src/net/chain.rs:136-144 | wherever the manager and a miner are idle, a continuation broadcasts a stored block once more |
| MiningNode.UninterruptedHearIsOnHeader | src/net/chain.rs:131-187 | an add nobody interrupts is the manager's atomic step |
| MiningNode.UninterruptedApplyIsTryAdd | src/net/chain.rs:288-308 | so is one of the apply loop, which broadcasts nothing |
| NodeRefinement.ManagerRunIsNodeRun | src/net/chain.rs:253-336 | every run of the manager with atomic adds is a run of the node in locked steps, with any miners beside it |
| ManagerRuns.LookupsAreGated | src/net/chain.rs:175-184 | lookups started <= 1 + successful syncs |
| ManagerRuns.StaysSingleIff | src/net/chain.rs:171-184 | "at most one lookup or sync in flight, none while the flag is clear" is kept by a step iff it is not an open lookup that comes back with several peers |
| ManagerRuns.OneSyncAtATime | src/net/chain.rs:171-184 | so over a whole run from a new manager it holds throughout iff no such step occurs |
| ManagerRuns.TwoPeersBreakTheGate | src/net/chain.rs:171-319 | from a new manager: gap, lookup with two peers, first success; the flag is clear with a sync running, and the next gap starts a lookup beside it |
| ManagerRuns.StaysHealthyIff | src/net/chain.rs:265-325 | "pending implies work in flight" is kept by every step except exactly the three that end the last work without success |
| ManagerRuns.StrandedForEver | src/net/chain.rs:175-184 | once lost, no run starts another lookup or sync |
| ManagerRuns.HealthyIffNeverStranded | src/net/chain.rs:265-325 | a run ends healthy iff none of its steps stranded the flag |
| ManagerRuns.StrandedStillExtends | src/net/chain.rs:137-144 | a stranded node still takes and passes on the next block |
| ManagerRuns.OneSyncPerPeer | src/net/chain.rs:108-127 | one sync per peer, in order, from the tip to the header, with the default limits |
| ManagerRuns.CatchesUp | src/net/chain.rs:129-325 | gap, lookup, honest sync run to its end and apply: the flag is freed iff the peer's tip reaches the last batch; if so the peer's blocks are on top, up to min(peer tip, heard block) iff in order; if not nothing changed and the node, with no other sync, is stranded |
| ManagerRuns.AlwaysCatchesUpFullyIff | src/net/chain.rs:108-325 | with the default limits every honest run that ends well reaches min(peer tip, heard block) iff the gap is at most 1000 |
| ManagerRuns.SuccessMayApplyNothing | src/net/chain.rs:281-319 | above that some honest run applies no block, counts as a success and clears the flag |
| ManagerRuns.ShortPeerStrands | src/tasks/sync_header.rs:127-130 | an honest peer short of the last batch yields nothing and leaves the node stranded |
| Network.OtherDeliveries | src/net/chain.rs:136-205 | delivered transactions reach pool and broadcasts, a failed request ends its sync, a raced header is sent again |
| Network.NodeStepKeepsInv | src/net/chain.rs:129-336 | a manager step fed with blocks of the chain keeps the network invariant |
| Network.RaceKeepsInv | src/net/chain.rs:136-144 | so does the miner node's add that raced with its own mining |
| Network.MineKeepsInv | src/blocktree.rs:107-142 | so does every step of a mining attempt, and what it announces is stored |
| Network.ServeKeepsInv | src/net/chain.rs:206-214 | so does answering any request, old or new |
| Network.NetworkSafety | src/net/chain.rs:129-336 | in every reachable state each node holds a prefix of the miner's linked chain, everything in flight or queued belongs to it, and every mining attempt succeeded |
| Network.NodesAgree | src/net/chain.rs:129-336 | any two nodes agree wherever both have a block |
| Convergence.CanConverge | src/net/chain.rs:131-144 | from every reachable state, with any nodes stranded, some continuation brings every node to the miner's whole chain and every announced block |
| Convergence.CanMine | src/blocktree.rs:107-142 | from every reachable state some continuation mines and announces a block of any given nonce and hash |
| DownloadRoute.CanDownload | src/net/chain.rs:131-325 | from every reachable state an idle node told of a block with a gap below can be brought to it by lookup, requests, answers and the collected sync, and is then free for the next |
| Pool.AddAllMeaning | src/pool.rs:33-43 | the returned hashes are exactly the new ones, without repetition, in first-occurrence order; the pool grows by their number; the last transaction per hash is stored |
| Pool.BeforeIffDecided | src/pool.rs:74-81 | the key order is the dictionary's: at the end of the common prefix the shorter key, or the one with the smaller character, comes first |
| Pool.BroadcastKeepsExactlyNew | src/pool.rs:62-69 | what is sent are the entries the pool did not have before, in batch order, each as often as in the batch |
| Pool.ListingIsUnique | src/pool.rs:74-81 | a pool has only one listing in strictly ascending hash order |
| Pool.PoolTx.AddTransactions | src/pool.rs:33-43 | the loop stores the last transaction of each hash, keeps the rest, and reports the new hashes in order of first occurrence |
| Pool.PoolTx.AddTransaction | src/pool.rs:45-53 | stores the transaction, reports the hash only if it was new |
| Pool.PoolTx.AddTransactionsAndBroadcast | src/pool.rs:58-72 | stores and reports the batch and sends exactly the entries whose hash the pool did not have, in order and as often as in the batch |
| Pool.PoolTx.Next | src/pool.rs:100-103 | removes and returns the transaction with the first hash |
| Pool.PoolTx.GetAll | src/pool.rs:74-81 | returns every transaction once in ascending hash order |
| Pool.PoolTx.Drain | src/pool.rs:100-103 | repeated `next` yields exactly what `get_all` would have, then None |
| Ledger.EveryCommandAccountedFor | src/net/network.rs:188-301 | with fresh ids every command handled is answered, waiting under its own key, or dropped, exactly as often as it was handled; only dials are dropped, each with another dial of the same peer waiting or answered |
| Ledger.FileConservesIffFresh | src/net/network.rs:292-299 | filing under a key keeps that balance iff nobody waits there |
| Ledger.AnsweredAsDue | src/net/network.rs:188-472 | in every run a command is answered Ok as often as a success event for its key finds it waiting, Err as often as a failure does or it is refused on the spot |
| Ledger.NetworkManager.HandleCommand | src/net/network.rs:188-301 | each command enters its own table, is refused with an Err, or is dropped behind a dial of its peer; aborts exactly when a refusal finds its receiver dropped |
| Ledger.NetworkManager.SettleDial | src/net/network.rs:456-472 | a dial's end removes the entry and answers its sender, aborting exactly when the receiver is dropped |
| Ledger.NetworkManager.HandleKadEvent | src/net/network.rs:348-361 | a closest-peers result answers its own query, aborting exactly when the receiver is dropped |
| Ledger.NetworkManager.HandleRequestResponseEvent | src/net/network.rs:400-421 | a response or failure answers its own request, aborting exactly when the receiver is dropped |
| Ledger.NetworkManager.HandleEvent | src/net/network.rs:427-485 | each of the six events answers whoever waits under its id, Ok for the successes and Err for the failures, and nobody else; aborts exactly when the receiver is dropped |
| Replies.ReplyAbortsIff | src/net/network.rs:400-421 | some run in which a reply to a download finds its receiver dropped exists iff the download spans more than one batch and W >= 2 |
| Replies.EndedAbortsIff | src/net/network.rs:400-421 | once a download has ended, some continuation aborts iff one of its requests is still unanswered |
| Replies.SameSyncsReached | src/net/provider.rs:67-79 | behind the network manager a download reaches exactly the states it reaches with arbitrary replies |
| HonestReplies.HonestReplyAbortsIff | src/net/network.rs:400-421 | with only the peer's own answers some run aborts iff the download spans more than one batch, W >= 2 and the peer's tip is below the first block of the last batch |

## Left out

- The libp2p swarm, Kademlia, gossipsub, mDNS and connections: foreign code; only fresh ids and an arbitrary network are kept.
- RLP, JSON and redb encodings, and database errors: the tables are maps and storage succeeds.
- SHA-256, nonces, timestamps and `get_balance`: random or mocked in the program; hashes are opaque.
- Timers, wakers and intervals: mining and polling may happen at any moment.
- src/rpc.rs, src/main.rs, src/client.rs, src/net/provider.rs: plumbing without state of its own.
- Completion of broadcasts: it only logs, so the manager keeps what it sent instead of what is still being sent.
- `ListenAddrs` and the two broadcast commands of the network manager: answered on the spot, never filed.
- Network.NetworkSafety: the manager's own adds are one step each; on the miner's node, where mining can interleave with them, the one visible difference is a step of its own, and SharedChain.MiningIsSafe shows there is no other; MiningNode takes the adds of one such node apart.
- ChainManager.ChainNetworkManager.Poll: running syncs are values whose readiness and result are parameters of the poll, not objects it polls; SyncHeaders.SyncHeader is that object.
- SyncHeaders.SyncHeader.Poll: assumes limits of at least 1; with no request allowed in flight the program returns at once with nothing, and with a batch size of 0 it asks for empty ranges for as long as they are answered.
- Replies.ReplyAbortsIff: one download; the requests of several share the ledger but no ids.
