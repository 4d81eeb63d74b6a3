# Protocols of a Peerster node

A model, in Dafny, of the protocols that a peer node of this repository stacks in `peer/impl`, and proofs of
what they keep over whole runs. Handlers that hold a lock are atomic steps. Each protocol has pure step
functions, classes whose methods change fields as the source's methods do and are proved equal to those
functions, and theorems about every run of many nodes.

- **PBFT vote** (`PbftNode`, `PbftRun`, `PbftVotes`, `PbftStore`, `PbftHonest`, `PbftLimits`): the three-phase vote
  per id under any behaviour of some peers. Two honest peers never store blocks of one id over different logged
  digests exactly when `N + f < 2 * (N / 3 * 2 + 1)`. An id moves on exactly when its quorum is complete, and the
  blocks of an HR form one chain. With all peers honest, every block holds the request that its id's owner announced.
- **Paxos and the threshold clock** (`PaxosNode`, `PaxosRun`, `PaxosLimits`, `PaxosCounts`, `PaxosSteps`, `Tlc`,
  `PaxosLedger`):
  ballot safety over every run in which a peer attempts once per step and before it takes part in it, and exactly
  which looser runs keep one value a step; exactly when accepts counted over all ids settle every peer on one value;
  that TLC messages close the same steps and build the same chain in whatever order they arrive; and, all together,
  exactly when the chains of all peers agree in every run.
- **Block store** (`Chain`, `Bytes`): the walk of `GetBlockchain` is the inverse of appending blocks.
- **Gossip** (`RumorTable`, `PlumTree`, `Gossip`, `AntiEntropy`, `GossipNode`, `GossipSends`): rumor logs, the reorder
  buffer, status exchange and broadcast trees, in one network run over packets that may be lost, repeated and
  reordered; what is kept, and what every handler sends.
- **Resend queues** (`MsgLists`, `ListIndex`, `RumorQueue`, `SearchQueue`): a sentinel linked list that refines a
  sequence, the two queues over it with their maps, and the expanding ring.
- **Search flood** (`Flood`), **file sharing** (`FileShare`), **encrypted files** (`Padding`, `SecureFile`).

## Hypotheses

- PBFT: every source name is authentic and among the N peers, and a pre-prepare for an id comes from the id's
  owner. The source's signature covers only the digest, not the id, the kind of message or the sender's name, so
  this is an assumption, not a consequence of the code. Digests are never empty, and for block contents no two
  requests share one. Calls of `Tag` at one node are sequential.
- Paxos: calls of `Tag` at one peer are sequential and each draws a new value, a call starts at round 0 and a timeout
  goes on to the next round with the same value, as in the code; there are two peers or more, since `Tag` bypasses
  Paxos for one. On top of that a rule says when a peer may begin (`PaxosRun.Rule`): `Early`, once a step and before it
  handles a message of the step; `Once`, once a step at any time; `Free`, always. Each broadcast is handled once. The
  Paxos handlers of one peer and its calls of `Propose` do not interleave: no lock spans the counting of an accept and
  the building of its block, nor a reset and the reading of the step. TLC messages are arbitrary, except that
  confluence asks for one block per step, and the agreement of chains for messages that peers sent.
- Gossip: only its origin creates a rumor. A broadcast appends to the log and updates the tree in one step.
- Queues: packet ids are new and the clock does not go back.
- Hashes: no collision among the inputs that the statement itself hashes; a block hash is never zero.
- Ciphers and JSON: an abstract pair of functions, one undoing the other.
- Clock readings, random choices, chosen neighbors, initialization vectors and the answers of other peers are
  parameters. Addresses, packet ids and requests of a search are numbers.

## Where the code differs from what it is meant to do

- `N / 3 * 2` counts fewer than two thirds of the peers for `N % 3 == 2`: for those N the vote does not stand
  the `(N - 1) / 3` faulty peers that PBFT is meant to (`PbftRun.ToleratesAThird`, `PbftLimits.AgreementIff`).
- The commit that completes the count decides which request goes into the block, not the logged digest: one
  faulty peer of four can make an honest one store an empty request (`PbftLimits.OneFaultyEmptiesABlock`).
- A pre-prepare for an id that is logged with another digest returns with the lock held; the node then takes no
  further step. That never happens exactly when no peer is faulty: any faulty peer can do it to any honest one with two
  announcements (`PbftHonest.NeverLockedIff`).
- `Propose` resets the acceptor of its own peer on every round, and a first call may come after the peer voted. With
  retries a step can have two values chosen; with one attempt a step, however late, exactly when a quorum is not
  everybody (`PaxosLimits.OneChoiceIff`).
- Accepts are counted by value over all ids, so two peers can announce different values for one step: even when
  everybody begins once and early, unless a quorum is everybody, and when peers may begin late, unless there are only
  two (`PaxosCounts.CountsAgreeIff`). Since a closed step stores the first block heard for it, the chains fork in
  exactly the same cases (`PaxosLedger.ChainsAgreeIff`).
- `ExecRumorMessage` defers the release of each tree lock to its end. With `usePlumTree` a message with two
  acceptable rumors of one origin waits for a lock it holds, and the one goroutine that processes messages stops
  (`AntiEntropy.AnswerCompletesIff`, `AntiEntropy.BehindIsStuck`).
- `Broadcast` marks its rumor received without closing the channel of a graft; that is sound only because nobody
  can have announced the rumor before (`PlumTree.PublishKeepsIff`, `PlumTree.EarlyIHaveNeverCloses`).
- `TryToAccept` indexes past its table once all of its 1000 slots are filled without a gap, and on a sequence
  number of 0 or above 1000 (`RumorTable.Reorders`).
- Pushing a packet id twice breaks the agreement of a resend queue with its maps (`RumorQueue.PushKeepsIff`,
  `RumorQueue.TwiceThenRemoved`).
- The search queue looks at its head alone although each request has its own timeout: a due request can wait behind one
  that is not due, exactly when requests have different timeouts, not all of them zero or less
  (`SearchQueue.HeadSufficesIff`). A `Retry` of 0 wraps around.
- An empty file can be uploaded but not downloaded again (`FileShare.RoundTripIff`,
  `SecureFile.SecureRoundTripIff`).

## Model

| member | source | states |
|---|---|---|
| PbftNode.SafePbft.constructor | peer/impl/safe_pbft.go:47-69 | a new peer has empty logs, role 0 and its own first id |
| PbftNode.SafePbft.AssignPbftID | peer/impl/safe_pbft.go:403-406 | the id grows by the number of peers and its state is 0 |
| PbftNode.SafePbft.TagRound | peer/impl/mod.go:513-548 | a round logs the request under a fresh id, or the same id again, and announces it; the new state is that of the step function |
| PbftNode.SafePbft.ExecPrePrepareMessage | peer/impl/safe_pbft.go:72-154 | own messages are ignored, a false digest is an error, a conflicting one is an error that keeps the lock, any other is logged and voted for |
| PbftNode.SafePbft.Count | peer/impl/safe_pbft.go:191-198 | the loop counts exactly the sources whose entry for the id is the logged digest |
| PbftNode.SafePbft.ExecPrepareMessage | peer/impl/safe_pbft.go:157-247 | a prepare is logged; the count reaching the threshold in state 0 moves the id to 1 and casts the commit, as in the step function |
| PbftNode.SafePbft.GetPbftBlock | peer/impl/safe_pbft.go:375-400 | the block points to the last hash stored for the request's HR |
| PbftNode.SafePbft.ExecCommitMessage | peer/impl/safe_pbft.go:250-324 | a commit is logged; the count exceeding the threshold in state 1 moves the id to 2 and stores the block, as in the step function |
| PbftRun.RunKeeps | peer/impl/safe_pbft.go:72-324 | every run with arbitrary faulty peers keeps the invariant: at most one commit per id and honest peer, blocks only on quorums of logged commits |
| PbftRun.ToleratesAThird | peer/impl/safe_pbft.go:296 | (N-1)/3 faulty peers are within what the thresholds stand exactly for N % 3 != 2 |
| PbftRun.CommitAgreement | peer/impl/safe_pbft.go:201-302 | in every run, two honest peers that stored a block for one id had the same digest logged for it |
| PbftRun.OneBlockPerID | peer/impl/safe_pbft.go:294-317 | in every run an honest peer stores at most one block per id |
| PbftRun.StateMovesUp | peer/impl/safe_pbft.go:201-298 | in every run the state of an id stays or moves on by one, up to 2 |
| PbftVotes.CommitsArePrepared | peer/impl/safe_pbft.go:201-238 | in every run an honest peer has an id past state 0 if and only if it sent a commit for it, and then N/3*2 peers stand behind its logged digest, the honest ones with a prepare they sent |
| PbftVotes.PrePrepareMovesIff | peer/impl/safe_pbft.go:81-153 | in every run a pre-prepare of another peer with the right digest is logged, voted for and answered, unless it is at odds with the log, which keeps the lock |
| PbftVotes.PrepareMovesIff | peer/impl/safe_pbft.go:184-238 | in every run a prepare of another peer moves its id to 1 and sends the commit if and only if the id was in state 0 and N/3*2 sources now hold the logged digest |
| PbftVotes.CommitMovesIff | peer/impl/safe_pbft.go:277-317 | in every run a commit of another peer moves its id to 2 and stores one block if and only if the id was in state 1 and more than N/3*2 sources now hold the logged digest |
| PbftVotes.AnswersUnder | peer/impl/safe_pbft.go:130-142 | a peer answers with one vote of the next kind, under the id heard or, with role 1, the next one |
| PbftStore.StoreIsChain | peer/impl/safe_pbft.go:294-317 | in every run, for every peer and HR: one block per decision in order, with index id/N, the first on 32 zero bytes, each other on the hash before, exactly these under their hashes without collisions, the last hash, and each name with its last metahash |
| PbftStore.BlocksDiffer | peer/impl/safe_pbft.go:375-400 | without collisions the blocks of one HR have pairwise different hashes |
| PbftLimits.AgreementIff | peer/impl/safe_pbft.go:203-296 | for every N of 3 or more and every faulty set that leaves two honest peers, agreement holds over all runs if and only if two commit quorums always share an honest peer; otherwise a run that disagrees is built |
| PbftLimits.BlockContentsIff | peer/impl/safe_pbft.go:296-302 | a stored request has the logged digest if and only if the commit that completed the count carried it, an empty request aside |
| PbftLimits.OneFaultyEmptiesABlock | peer/impl/safe_pbft.go:300-302 | a run of four peers, one faulty, in which an honest one stores an empty request for an id that an honest owner announced |
| PbftHonest.HonestRun | peer/impl/safe_pbft.go:72-324 | with honest peers there is always one announced request per id that every log, message and block follows |
| PbftHonest.NextID | peer/impl/safe_pbft.go:403-406 | the next id of a peer stays in its own residue class and is not logged yet |
| PbftHonest.BlocksAreAnnounced | peer/impl/safe_pbft.go:294-317 | with honest peers every block holds the request its id's owner announced, the only one announced under that id |
| PbftHonest.NeverLocked | peer/impl/safe_pbft.go:102-110 | with honest peers the path that keeps the lock is never taken |
| PbftHonest.NeverLockedIff | peer/impl/safe_pbft.go:102-110 | for every honest peer and every set of faulty ones, it never keeps its lock in any run if and only if no peer is faulty |
| PbftHonest.TwoAnnouncementsLock | peer/impl/safe_pbft.go:102-110 | for every honest peer and every faulty one, a run in which two announcements under one id leave the honest one locked |
| Common.OwnerIsResidue | peer/impl/safe_pbft.go:403-406 | two ids have one owner exactly when they agree modulo the number of peers |
| Common.QuorumsMeet | peer/impl/safe_pbft.go:289-296 | two quorums larger than N plus the faulty in sum share a peer that is not faulty |
| PaxosNode.SafePaxos.ResetFor | peer/impl/safe_paxos.go:40-49 | acceptor, promises and accepts are cleared, the prepared flags are not |
| PaxosNode.SafePaxos.ReceivePrepare | peer/impl/safe_paxos.go:51-67 | a new highest id of the step is promised with the last accepted value, zero counting as none |
| PaxosNode.SafePaxos.ReceivePropose | peer/impl/safe_paxos.go:69-86 | only a proposal under exactly the promised id is accepted |
| PaxosNode.SafePaxos.ReceivePromise | peer/impl/safe_paxos.go:94-113 | promises of the step are kept and a threshold of them sets the flag |
| PaxosNode.SafePaxos.GetPromiseValue | peer/impl/safe_paxos.go:134-153 | the loop yields the first promise value with the highest accepted id, or the proposer's own |
| PaxosNode.BestIsHighest | peer/impl/safe_paxos.go:144-151 | the value chosen was reported by a promise and none reports a higher accepted id; with no report it is the default |
| PaxosNode.SafePaxos.ReceiveAccept | peer/impl/safe_paxos.go:115-132 | accepts of the step are counted by value and the first to reach the threshold is kept |
| PaxosNode.SafePaxos.ReceiveTLC | peer/impl/safe_paxos.go:162-171 | late messages are dropped, others kept, and a threshold of them decides the step |
| PaxosNode.SafePaxos.GetBlockAndAdvance | peer/impl/safe_paxos.go:173-199 | only a decided current step closes; the next opens with everything but logs and decisions cleared |
| PaxosRun.RunKeeps | peer/impl/paxos_utils.go:69-171 | every run of peers that attempt at most once per step, early or late, keeps the invariant on promises, proposals, votes and acceptors |
| PaxosRun.PromiseIsTruthful | peer/impl/safe_paxos.go:40-67 | a promise tells of its sender's last vote below the promised id, and of none in between, except for what the sender's reset made it forget |
| PaxosRun.InboxBacks | peer/impl/safe_paxos.go:94-113 | the promises a proposer holds are for its one id and from distinct peers |
| PaxosRun.ValueJustified | peer/impl/safe_paxos.go:134-153 | the value a proposer settles on is the highest reported, or free if none is, and never zero |
| PaxosRun.RunOrdered | peer/impl/paxos_utils.go:69-98 | in every such run no peer heard of its own attempt before it, and of two peers not each heard the other's before its own |
| PaxosRun.ReportsVote | peer/impl/safe_paxos.go:134-153 | a proposal backed by a peer that recalls its vote carries the value of a vote at or above that vote's id |
| PaxosRun.VotesStay | peer/impl/safe_paxos.go:51-153 | when peers begin early, once peers that meet every quorum voted for a value under an id, every proposal at or above it is for that value |
| PaxosRun.EveryVoteStays | peer/impl/safe_paxos.go:40-153 | when peers begin once a step but at any time, the same once everybody voted for it and a quorum is everybody |
| PaxosRun.ChosenStays | peer/impl/safe_paxos.go:51-153 | in every run of peers that begin early, once a quorum voted for a value under an id, every proposal of the step under that or a higher id is for it |
| PaxosRun.ChosenUnique | peer/impl/safe_paxos.go:51-153 | in no run are two values chosen in one step, under whatever ids, if peers begin early, or once a step and a quorum is everybody |
| PaxosLimits.OneChoiceIff | peer/impl/paxos_utils.go:69-98 | for any number of peers from 2 on and any majority threshold, one value per step is chosen in every run if and only if peers begin early, or once a step and a quorum is everybody |
| PaxosLimits.LateChoice | peer/impl/mod.go:591-612 | a run in which everybody begins at most once, some after they voted, and two values are chosen, for any threshold short of all peers |
| PaxosLimits.RetriedChoice | peer/impl/paxos_utils.go:74-87 | a run in which everybody begins with a value of its own and retries, and quorums accept two values, for any threshold |
| PaxosCounts.CountsAgreeIff | peer/impl/safe_paxos.go:115-132 | for any number of peers and any majority threshold, the peers' counts of accepts settle on one value in every run if and only if a quorum is everybody and peers begin early, or once a step and are two |
| PaxosCounts.TwoPiles | peer/impl/safe_paxos.go:126 | in all other cases a run, by calls with values of their own, that leaves a threshold of accepts for each of two values |
| PaxosCounts.Disagreement | peer/impl/safe_paxos.go:115-132 | after it peers 0 and 1 settle on different values |
| PaxosCounts.RunTallied | peer/impl/safe_paxos.go:126-130 | in every run a count is at most the number of distinct accepts handled, and what a peer settled on had a threshold of them |
| PaxosCounts.TwoPeersAgree | peer/impl/safe_paxos.go:115-132 | two peers that begin once a step never settle on different values |
| PaxosSteps.StateIsHistory | peer/impl/safe_paxos.go:40-49 | in every run under every rule: counts are exactly the accepts handled in the step since the last attempt, a value is held exactly if the step was attempted, and a step is decided exactly by enough blocks, for the last one's value |
| Tlc.Learner.TLCProcess | peer/impl/paxos_utils.go:213-243 | the recursion stores, names and announces each closed step as the step function says, and terminates |
| Tlc.Learner.ExecTLCMessage | peer/impl/message_handler.go:521-532 | a TLC message is counted, then the current step and all decided ones after it close |
| Tlc.Learner.ExecPaxosAcceptMessage | peer/impl/message_handler.go:501-519 | an accept that reaches the threshold announces a block built on the last hash |
| Tlc.DeliveredState | peer/impl/paxos_utils.go:213-243 | after any messages the clock is the length of the longest run of full steps and the stores hold exactly their blocks |
| Tlc.HearAnnounces | peer/impl/paxos_utils.go:213-243 | a TLC message closes the current step if and only if it decides it; then, if no value was accepted for the step, its first block is announced once and accepted; nothing else ever is |
| Tlc.AcceptAnnounces | peer/impl/message_handler.go:501-519 | an accept announces a block of the settled value on top of the store if and only if its step is current and settled by it or before |
| Tlc.HearDecides | peer/impl/safe_paxos.go:162-171 | a step is decided if and only if it has enough blocks, for the value of the last one received |
| Tlc.Confluent | peer/impl/paxos_utils.go:213-243 | the same messages in any order, with one block per step, give the same clock, chain and names |
| Tlc.DeliveryRebuildsChain | peer/impl/paxos_utils.go:173-226 | blocks of one chain delivered in any order rebuild the store of the values up to the clock |
| PaxosLedger.LedgerKeeps | peer/impl/safe_paxos.go:115-199 | in every run in which TLC messages are those that peers sent, one value a step makes every peer's stores, kept blocks and announcements those of one chain |
| PaxosLedger.OneChain | peer/impl/paxos_utils.go:173-243 | where counts settle on one value, in every such run there is one value a step and each peer's store is what appending the values of its closed steps builds |
| PaxosLedger.Diverge | peer/impl/safe_paxos.go:126-197 | in all other cases such a run after which peers 0 and 1 closed one step each with different blocks |
| PaxosLedger.ChainsAgreeIff | peer/impl/safe_paxos.go:115-199 | for any number of peers and any majority threshold, equally long chains are equal in every such run if and only if a quorum is everybody and peers begin early, or once a step and are two |
| Chain.BlocksChained | peer/impl/paxos_utils.go:173-192 | each block made from the store holds its value and points to the block before it |
| Chain.HashesDiffer | peer/impl/paxos_utils.go:173-192 | without collisions the blocks of a chain have pairwise distinct hashes |
| Chain.InputCoversParts | peer/impl/paxos_utils.go:173-192 | of two blocks with parts of equal lengths, equal hashed inputs have equal numbers, values and previous hashes |
| Chain.BuiltIsCells | peer/impl/paxos_utils.go:219-226 | the store holds the chain's blocks under their hashes and the last hash under its key, and no more |
| Chain.GetBlockchain | peer/impl/mod.go:170-191 | the walk from the last hash ends and yields the values in index order |
| Bytes.SplitJoin | peer/impl/mod.go:473 | splitting joined keys that lack the separator gives the keys back |
| RumorTable.SafeRumorTable.TryToAcceptOrigin | peer/impl/safe_rumor_table.go:26-39 | the next rumor of its origin is appended, an older one pruned, a later one left |
| RumorTable.SafeRumorTable.NewRumorsMessage | peer/impl/safe_rumor_table.go:113-126 | a new rumor takes the next number of its origin and is appended |
| RumorTable.SafeRumorTable.GetStatusMsg | peer/impl/safe_rumor_table.go:71-79 | the status maps each origin to the length of its log |
| RumorTable.SafeRumorTable.GetInterval | peer/impl/safe_rumor_table.go:91-97 | the rumors between two places of a log |
| RumorTable.SafeRumorTable.TryToAccept | peer/impl/safe_rumor_table.go:42-69 | one arrival changes its origin's buffer alone and hands on what became contiguous, or runs out of bounds, as the step function says |
| RumorTable.Reorders | peer/impl/safe_rumor_table.go:42-69 | for any arrivals every index is in bounds if and only if all numbers are from 1 to 1000 and one of these has not come; then what was handed on is the longest contiguous run received, once each and in order |
| PlumTree.Broadcaster.constructor | peer/impl/plumTree.go:207-216 | a new tree has all neighbors eager |
| PlumTree.Broadcaster.ComputeIfAbsent | peer/impl/plumTree.go:158-169 | the status of a rumor, entered as new if there was none |
| PlumTree.Broadcaster.ExecPrune | peer/impl/message_handler.go:44-57 | the sender of a prune becomes lazy |
| PlumTree.Broadcaster.ExecGraft | peer/impl/message_handler.go:106-108 | the sender of a graft becomes eager |
| PlumTree.Broadcaster.ExecIHave | peer/impl/message_handler.go:71-82 | an announcement of a missing rumor adds its sender to those to ask and starts asking once |
| PlumTree.Broadcaster.ExecRumor | peer/impl/message_handler.go:158-201 | the first arrival closes a wanted channel and goes to the other eager peers, a later one prunes its sender |
| PlumTree.Broadcaster.Broadcast | peer/impl/mod.go:299-315 | an own rumor is marked received and goes to the eager peers |
| PlumTree.Broadcaster.GraftTick | peer/impl/plumTree.go:121-127 | one turn asks the lazy peer at the index modulo their number and makes it eager |
| PlumTree.MovesKeep | peer/impl/plumTree.go:231-239 | a prune or graft moves its sender and nobody else, keeps eager and lazy apart and loses no peer |
| PlumTree.RumorKeeps | peer/impl/message_handler.go:158-201 | a rumor is pushed if and only if it was not received before, to all eager peers but its sender; no known peer changes sides and the tree stays coherent |
| PlumTree.IHaveKeeps | peer/impl/message_handler.go:71-82 | the announcer of a missing rumor is put last among those to ask and asking goes on; of a received one nothing changes |
| PlumTree.PublishKeepsIff | peer/impl/mod.go:299-301 | a broadcast keeps the tree coherent if and only if its rumor was neither asked for nor received |
| PlumTree.TickKeeps | peer/impl/plumTree.go:121-127 | while a graft is wanted there is somebody to ask, so the modulo is safe; the one asked becomes eager |
| PlumTree.TickTurns | peer/impl/plumTree.go:114-127 | ticks ask the lazy peers in turn, round and round |
| PlumTree.FinishKeeps | peer/impl/plumTree.go:114-139 | the loop that ends with its channel closed asks nobody any more and moves nobody |
| PlumTree.EarlyIHaveNeverCloses | peer/impl/mod.go:299-301 | an announcement that comes before the broadcast of its rumor leaves a channel that is never closed |
| Gossip.RunKeeps | peer/impl/message_handler.go:44-321 | every run with or without trees keeps prefix logs, genuine packets, processing in order and coherent trees |
| Gossip.PrefixInOrder | peer/impl/message_handler.go:127-151 | in every run a peer's log of an origin is a prefix of the origin's own, and it processed exactly that log, once each and in order |
| Gossip.InFlightGenuine | peer/impl/message_handler.go:127-151 | in every run each rumor in flight is its origin's entry under its number |
| Gossip.TreesCoherent | peer/impl/plumTree.go:114-139 | in every run eager and lazy peers are apart, a graft has somebody to ask, a channel is closed once and exactly when the rumor asked for came, and a rumor is pushed at most once |
| Gossip.GraftInBounds | peer/impl/message_handler.go:110-112 | in every run a graft asks only a peer that has the rumor, so the interval it reads exists |
| GossipSends.RumorLeaves | peer/impl/message_handler.go:153-201 | a rumor not too early that finds its tree unlocked goes to all that were eager but its source, and to nobody else, if it was not received; else its sender alone gets a prune |
| GossipSends.BroadcastLeaves | peer/impl/mod.go:283-333 | a broadcast appends the next rumor and sends it to all that are eager in the own tree but itself, or to the chosen neighbor |
| GossipSends.FirstBroadcast | peer/impl/mod.go:298-315 | with its own tree untouched a peer broadcasts to all neighbors |
| GossipSends.PushedIsSent | peer/impl/message_handler.go:153-190 | in every run a rumor counted as pushed came in some event from a message or a broadcast, and all that were eager just before, but the source, have a packet with it in the network |
| GossipSends.MessageAnswered | peer/impl/message_handler.go:205-246 | a message with something new is acknowledged with all log lengths, and passed to the chosen neighbor without trees; one without is not |
| GossipSends.StatusAnswered | peer/impl/message_handler.go:267-321 | a status is answered with what it lacks, asked back if it is ahead, and passed on with neither; nothing else is sent |
| GossipSends.TreeMessages | peer/impl/message_handler.go:44-124 | prunes, grafts and announcements change the named tree as they say and no other |
| GossipSends.AnnounceLeaves | peer/impl/plumTree.go:73-112 | an announcement goes to all lazy peers and to nobody else |
| GossipSends.TickLeaves | peer/impl/plumTree.go:114-139 | a turn of the graft loop asks exactly one peer that announced the rumor, which becomes eager |
| GossipSends.GraftAnswered | peer/impl/message_handler.go:97-124 | in every run a graft is answered with the rumor of the origin and number asked for |
| GossipSends.GraftStaysOver | peer/impl/plumTree.go:114-139 | in every run a graft loop that ended after its rumor came does not start again |
| GossipNode.Gossiper.ExecRumorMessage | peer/impl/message_handler.go:127-246 | the loop over a message is the fold of the one-rumor step, up to the lock it may wait for; then the acknowledgement and the forwarding |
| GossipNode.Gossiper.ExecStatusMessage | peer/impl/message_handler.go:267-321 | a status is answered with what it lacks, with this peer's own if that one is ahead, and passed on only if neither has anything new |
| GossipNode.Gossiper.Broadcast | peer/impl/mod.go:283-329 | a broadcast appends its rumor and sends it to the eager peers, or to one neighbor |
| AntiEntropy.FindMyNew | peer/impl/rumor_utils.go:85-97 | in whatever order it visits origins, the answer holds for each origin exactly the part of the log past the other's status, in order |
| AntiEntropy.FindRemoteNew | peer/impl/rumor_utils.go:99-112 | true if and only if the other status names more of some origin |
| AntiEntropy.NothingNewIff | peer/impl/rumor_utils.go:85-112 | in every run neither side has anything new if and only if the two tables are equal |
| AntiEntropy.GapCloses | peer/impl/message_handler.go:267-301 | whatever both heard in between, once the handler got through the answer the other peer has all that this one had when it answered |
| AntiEntropy.GapClosesWithoutTrees | peer/impl/message_handler.go:267-301 | without trees every answer closes the gap |
| AntiEntropy.AnswerCompletesIff | peer/impl/message_handler.go:153-156 | with trees the handler gets through an answer if and only if the sender was at most one rumor ahead for every origin |
| AntiEntropy.BehindIsStuck | peer/impl/message_handler.go:127-156 | for any gap of two or more, a run in which a new peer asks, is answered, takes two rumors and is stuck |
| MsgLists.MsgList.Forward | peer/impl/message_list.go:3-23 | k steps along next from the head reach the k-th node |
| MsgLists.MsgList.Backward | peer/impl/message_list.go:3-23 | k steps along prev from the tail reach the k-th node from the end |
| MsgLists.MsgList.Push | peer/impl/message_list.go:25-30 | any node not in the list is appended |
| MsgLists.MsgList.Poll | peer/impl/message_list.go:32-40 | the first node is taken off, if there is one |
| MsgLists.MsgList.Remove | peer/impl/message_list.go:42-47 | exactly the given node is taken out, wherever it is |
| MsgLists.MsgList.GetFirst | peer/impl/message_list.go:49-54 | the first node, if there is one |
| RumorQueue.SafeRumorsQueue.PushRumor | peer/impl/safe_rumor_queue.go:35-50 | a rumor goes last in the list and into both maps, which then agree with the list if and only if its id is new |
| RumorQueue.SafeRumorsQueue.GetRumor | peer/impl/safe_rumor_queue.go:52-80 | a due head is put last with a new time, and returned unless a neighbor is needed and missing |
| RumorQueue.SafeRumorsQueue.RemoveId | peer/impl/safe_rumor_queue.go:82-92 | an acknowledged id leaves the list and both maps |
| RumorQueue.SafeRumorsQueue.ValidAgrees | peer/impl/safe_rumor_queue.go:19-25 | the ids of the list and the keys of both maps are the same set, each once in the list |
| RumorQueue.HeadIsEnough | peer/impl/safe_rumor_queue.go:52-81 | the check of the head finds a due rumor if and only if a scan of all would, the one longest waiting; it goes last, to its destination with trees and to the new neighbor, from then on its destination, without |
| RumorQueue.PushKeepsIff | peer/impl/safe_rumor_queue.go:35-50 | a push keeps list and maps in agreement if and only if its id is new |
| RumorQueue.TwiceThenRemoved | peer/impl/safe_rumor_queue.go:82-92 | an id pushed twice and removed stays in the list without an entry in the maps |
| RumorQueue.CallsKeep | peer/impl/safe_rumor_queue.go:35-92 | over any calls with new ids and a clock that does not go back, list and maps agree, the list is in order of sending, and the head is always in the map |
| RumorQueue.WaitingIsPushed | peer/impl/safe_rumor_queue.go:35-81 | over all calls a waiting rumor is the one pushed under its id, and its destination that of the push or the neighbor of a later turn without trees |
| SearchQueue.SafeSearchRequestQueue.PushRequest | peer/impl/safe_search_request_queue.go:36-53 | a request goes last with one retry less than its ring has, in 64-bit arithmetic; the maps agree with the list if and only if its id is new |
| SearchQueue.SafeSearchRequestQueue.GetSearchRequest | peer/impl/safe_search_request_queue.go:55-80 | a due head is sent again with its budget times the factor, or given up and taken out of list and maps |
| SearchQueue.RingTheorem | peer/impl/safe_search_request_queue.go:36-80 | over any calls with new ids, sends and retries left make up the ring's retries, the k-th budget is the first times factor to the k modulo 2^64, and a request that left was sent exactly Retry times |
| SearchQueue.ResendsAsk | peer/impl/safe_search_request_queue.go:36-76 | over all calls every send of a search asks for what it was pushed with, and so does its waiting entry |
| SearchQueue.GetUsesUp | peer/impl/safe_search_request_queue.go:65-77 | every send or surrender lowers the sum of the retries left by one, and nothing else changes it |
| SearchQueue.HeadSufficesIff | peer/impl/safe_search_request_queue.go:58-65 | looking at the head alone never misses a due request, in any run with these timeouts, if and only if they are all the same or none is positive |
| SearchQueue.CallsInOrder | peer/impl/safe_search_request_queue.go:36-80 | over all calls the list is in order of sending, whatever the timeouts |
| SearchQueue.LateHeadHidesDue | peer/impl/safe_search_request_queue.go:58-65 | for any two timeouts of which the longer is positive, a run in which a due request waits behind one that is not |
| Flood.GetNeighborsAndBudgets | peer/impl/file_utils.go:81-110 | the budget is dealt out evenly among the neighbors, at least one each, to as many as it reaches, with nothing lost |
| Flood.StepConserves | peer/impl/message_handler.go:388-395 | handling or losing a request keeps handled, in flight and dropped equal to the first budget in sum, and every request has some |
| Flood.NeverBack | peer/impl/file_utils.go:81-88 | a request goes on only to direct neighbors, never to itself nor back to where it came from, with a smaller budget |
| Flood.FloodBounded | peer/impl/message_handler.go:388-395 | over any routing tables, requests handled and in flight never exceed the first budget, nor do all events together, so the flood ends |
| FileShare.Sharer.Upload | peer/impl/mod.go:386-453 | the loop stores the chunks, then the metafile under the hash of their hashes |
| FileShare.Sharer.Download | peer/impl/mod.go:466-485 | the chunks named in the metafile are joined; a missing one is an error |
| FileShare.ChunksMakeUp | peer/impl/mod.go:417-428 | the chunks make up the data, all but the last of full size, the last not empty |
| FileShare.RoundTrip | peer/impl/mod.go:386-485 | without collisions a download returns the uploaded bytes, whatever other peers hold |
| FileShare.RoundTripIff | peer/impl/mod.go:386-485 | where no other peer helps, it does so if and only if the data is not empty |
| Padding.Pkcs7Pad | peer/impl/encryption.go:80-92 | the new buffer is the data and its padding, or the error |
| Padding.Pkcs7Unpad | peer/impl/encryption.go:97-118 | the loop accepts exactly what ends in its own count |
| Padding.PadLength | peer/impl/encryption.go:87-91 | the padded length is the next strictly larger multiple of the block size |
| Padding.UnpadPad | peer/impl/encryption.go:80-118 | for block sizes up to 255 unpadding undoes padding |
| Padding.RoundTripIff | peer/impl/encryption.go:80-118 | for any block size it does so if and only if no more than 255 bytes were added |
| Padding.UnpadIsPadded | peer/impl/encryption.go:97-118 | whatever unpads is its result with that padding, and was padded by this function if the padding fits a block |
| Padding.UnpadErrors | peer/impl/encryption.go:97-118 | which error is given, if and only if what is wrong with the data |
| SecureFile.AESEncrypt | peer/impl/encryption.go:21-39 | the vector, then the padded text encrypted |
| SecureFile.AESDecrypt | peer/impl/encryption.go:52-64 | the text behind the vector decrypted in place and unpadded |
| SecureFile.DecryptEncrypt | peer/impl/encryption.go:21-64 | decryption undoes encryption for every text, the empty one included |
| SecureFile.DecryptOutcome | peer/impl/encryption.go:52-64 | what decryption gives for every text, well formed or not |
| SecureFile.SentInOrder | peer/impl/applicant.go:66-118 | chunks, information and metafile in order, named by their hashes, each under a vector of its own |
| SecureFile.Applicant.Upload | peer/impl/applicant.go:48-124 | the loop sends each chunk encrypted under its hash, then the information on the file and the metafile |
| SecureFile.HR.ReconstructFile | peer/impl/hr.go:89-127 | information, metafile and chunks are fetched and decrypted in turn; a missing one is an error |
| SecureFile.SecureRoundTripIff | peer/impl/hr.go:89-127 | with the same key and all sent chunks found, the file comes back if and only if it is not empty, nothing being stored under the empty name |

## Left out

- Transports, packet headers and relaying, the registry, JSON, HTTP, the web interface: plumbing.
- Signatures, keys, the distributed key and its shares: authenticity and a shared key are hypotheses.
- Checkpoints, view numbers and the PbftTLC messages of PBFT: the view stays 0 and nothing starts the others.
- Peers whose role is 1, which vote under the next id: the step functions do so, the runs count such peers among the faulty.
- Unsigned 64-bit wrap-around of ids, clocks and counters, except in the search queue.
- PbftNode.SafePbft.TagRound: the checkpoint message that a round also sends.
- Tlc.Learner.ExecPaxosAcceptMessage: counting the accept and building the block are one step.
- PaxosRun.ChosenStays: says nothing of liveness; timeouts are steps that may or may not happen.
- A broadcast that is interrupted between appending its rumor and locking its tree.
- GossipNode.Gossiper.ExecRumorMessage: routing table entries and errors of the embedded message's own handler.
- GossipNode.Gossiper.Broadcast: handling the broadcast message at the peer itself.
- The queue that resends announcements to lazy peers: an announcement may arrive at any time, any number of times.
- `NewRumorsMessageNew`, `GetStatusMsgNew` and `GetIntervalNew`, the companions of the reorder buffer; nothing calls them, nor the buffer itself.
- MsgLists.MsgList.Remove: a node that is in no list, whose old neighbors would be rewired.
- The back reference from a queue entry to its node, which nothing reads.
- The retry bound of the data request queue: its counter wraps around, so there is none.
- FileShare.Sharer.Download: an answer of another peer is also stored; the model only returns it.
- Matching of names and patterns in a search, and its replies: the flood is about the requests.
- SecureFile.Applicant.Upload: a name and a file name are encoded with the entry key; the codec stands for all three.
- Hash chains per HR compared across peers: peers may commit ids in different orders.
- Plain set and map accessors, routing, catalog, index and share tables: easy members.
