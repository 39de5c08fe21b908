# Verified model of the peer

A peer runs three things on one gossip log: a multi-step Paxos that agrees on name bindings and
appends them to a blockchain, content-addressed file sharing, and a budgeted search. This project
models `peer/impl`, the in-memory store and the blockchain page in Dafny, and proves what a run of
many peers guarantees.

The handlers are modelled as they are written, not as "Paxos Made Simple" would have them. The
acceptor keeps its first accepted pair and still answers later proposals; promises are counted
without comparing their ID with the current ballot; `bestID` takes the ID of the promise instead of
its `AcceptedID`; accepts are counted per value only; a retry keeps the old promise channel. The
comments at `peer/impl/paxosHandler.go:191` and `:226` describe other comparisons than the code
makes; the model follows the code.

## How the model is built

| module | file | contents |
|---|---|---|
| `Common`, `Text` | `common.dfy`, `text.dfy` | peers, missing values; bytes, hexadecimal, `strings.Fields`, `strings.Split` |
| `Blockchain` | `blockchain.dfy` | blocks, the blockchain and naming stores as folds of the chain, the backwards walks |
| `PaxosSpec`, `PaxosHandler` | `paxos_spec.dfy`, `paxos_handler.dfy` | each lock-held method as a function of the handler's fields, and the class that implements them in place |
| `PaxosSystem` | `paxos_system.dfy` | N nodes, the goroutine that runs `Tag`, messages in flight |
| `PaxosInvariants`, `PaxosSteps` | `paxos_invariants.dfy`, `paxos_steps.dfy` | ballots and acceptor discipline, kept by every action |
| `PaxosAgreement` | `paxos_agreement.dfy` | agreement of disciplined runs with unanimous thresholds |
| `PaxosEvidence`, `PaxosLearner`, `PaxosHistory` | `paxos_evidence.dfy`, `paxos_learner.dfy`, `paxos_history.dfy` | justified commits; exactly when a node leaves a step, and how far it catches up; a handler's state and its answers, told from what it handled |
| `PaxosBlocks`, `PaxosChains`, `PaxosValidity` | `paxos_blocks.dfy`, `paxos_chains.dfy`, `paxos_validity.dfy` | stored blocks, chain agreement, validity |
| `PaxosRuns` | `paxos_runs.dfy` | the runs the program has, and two kinds of discipline it does not enforce |
| `PaxosMail`, `PaxosStage`, `PaxosMoves` | `paxos_mail.dfy`, `paxos_stage.dfy`, `paxos_moves.dfy` | scripted runs for any number of peers: queues of messages, two proposers and the other members, the moves they make |
| `PaxosFork`, `PaxosLeftover`, `PaxosLinks`, `PaxosBroken` | `paxos_fork.dfy`, `paxos_leftover.dfy`, `paxos_links.dfy`, `paxos_broken.dfy` | runs in which chains differ, below and at the unanimous threshold; exactly when the peers agree; exactly when stored chains link |
| `Rumors`, `Network`, `Gossip`, `GossipDelivery`, `AntiEntropy` | `rumors.dfy`, `network.dfy`, `gossip.dfy`, `gossip_delivery.dfy`, `antientropy.dfy` | the rumor log, what it offers to the layer above, what it delivers, the status loop |
| `Stack`, `StackLift` | `stack.dfy`, `stack_lift.dfy` | a Paxos handler over a rumor log over packets, its projection to `PaxosSystem`, and the way back |
| `Messaging` | `messaging.dfy` | the sends of one packet until it is acknowledged |
| `Storage`, `DataSharing` | `storage.dfy`, `datasharing.dfy` | the in-memory store, `Upload` and `Download` |
| `Search`, `Flood` | `search.dfy`, `flood.dfy` | budget splitting, answers, the local search; the flood and the expanding ring |

A class method that updates state is proved equal to a function of the old state; the results over
runs are lemmas about those functions. A run is a sequence of actions, each enabled where it is
taken: timeouts and deliveries may happen whenever the code allows them. In `PaxosSystem` every
lock-held method is one action, a message is in the network as soon as a handler has produced it, and
each node handles each message at most once, in any order. In `Stack` the broadcast of a message, the
receipt of its rumor and its handling are sections of their own, and packets are reordered, duplicated
and lost; `StackRefinesPaxos` proves that each of its runs is a run of `PaxosSystem`, and
`StackRealises` that each proper run of `PaxosSystem` is one of them, which carries the results, and
the counterexamples, down to packets.

A *proper* run (`PaxosRuns.Proper`) is one the program has. Packets are handled one at a time
(`peer/impl/service.go:51-79`) and `Broadcast` handles its own rumor before it returns
(`peer/impl/messaging.go:60`), so a node handles a packet only when it has handled its own messages,
except those of the broadcast its Tag goroutine is in the middle of, and TLC messages, which change
nothing at their sender; the messages of another origin are handled in order; the promise channel
holds one value; every attempt makes a new value. The runs of the counterexamples are proper; the
results that hold of all runs do not need this.

## Hypotheses

They appear as `requires` clauses where they are needed.

- All nodes run this code with the same `TotalPeers` and threshold, which is at least 1; PaxosIDs
  are distinct and in 1..N; no node is its own neighbour; at most one `Tag` runs at a time per node
  (`PaxosSystem.GoodConfig`, `PaxosSystem.Enabled`, the shape of `Gossip.Action`).
- SHA-256 is an arbitrary function. Absence of collisions, 32-byte results and non-zero results are
  asked only of the preimages a run really hashes (`PaxosBlocks.RunHashes`, `Blockchain.NoClash`,
  `DataSharing.NoCollision`).
- Agreement with unanimous thresholds assumes a disciplined run (`PaxosAgreement.Disciplined`,
  `PaxosRuns.TIDY`): a promise that is counted carries the proposer's current ID
  (`PaxosRuns.Timely`), and a proposal carries the value its own attempt put on the promise channel
  (`PaxosRuns.Offered`). The handlers check neither, and with only one of them agreement fails
  (`PaxosLeftover.AgreementNeedsDiscipline`).
- Marshalling is lossless, a promise is a snapshot of the accepted pair, counters do not wrap (the
  search budget is a 64-bit `uint` and is proved not to underflow).

## Results

- **Agreement.** With both kinds of discipline the peers agree on their chains in every proper run if
  and only if the threshold asks for all of them (`AgreementExactly`): then at most one value is ever
  accepted in a step of a disciplined run, in any order of delivery (`UnanimousAgreement`,
  `UnanimousChains`), and below it, majorities included, two peers may hold any two values as their
  first blocks (`FewerFork`). With none or only one kind, two peers may do so even when the threshold
  asks for all of them (`UnanimousFork`), so that agreement is certain only where there are no two
  peers (`AgreementNeedsDiscipline`): a value stays on the promise channel and is proposed on a later
  ballot without regard to the promises of that ballot. With majority thresholds agreement holds in
  the steps where no acceptor sends two accepts (`MajorityDecidesOnce`).
- **Chains.** If at most one value per step reaches the accept threshold, all nodes store the same
  blocks, however they left each step (`ChainAgreement`, `NodeHoldsChain`).
- **Stored blocks.** In every run each stored block has the index and the hash of its own fields
  (`StoredBlocksAreSealed`), and the page that walks the store shows the whole chain exactly when each
  block links to the one before it, and an error otherwise (`BlockchainGet`, for every store a run can
  reach by `StoredChainIsTraceable`). All stored chains link after every proper run, disciplined or
  not, if and only if the threshold asks for all peers (`LinksExactly`): then nobody ever leaves a
  step by the TLC messages of others, and each peer builds its whole chain itself
  (`UnanimousBuilds`), while below it a peer can learn a block that was built on the other branch of a
  fork (`FewerBreak`).
- **Steps.** In every run a node has counted and filed exactly what it has handled since it entered
  its step (`CountersAreExact`). It leaves the step exactly with the message that completes it, passes
  the later steps that are full by then, in whatever order their TLC messages came, and stops in the
  first that is not (`LeavesExactly`, `LateMessagesCatchUp`). Its naming store binds each name to the
  metahash of the last block that carries it (`NamesResolve`).
- **Evidence.** Every committed step is backed by threshold accepts the node handled, or by TLC
  messages it handled of threshold other peers that are past the step (`CommitsAreJustified`,
  `NeverAheadOfTheEvidence`).
- **Stack.** Over a lossy packet network the chains of a run agree if at most one value per step
  reaches the accept threshold in it (`StackChainAgreement`), and those of a disciplined run if the
  threshold is unanimous (`StackAgrees`). The three if-and-only-ifs hold there, too
  (`StackAgreementExactly`, `StackNeedsDiscipline`, `StackLinksExactly`).
- **Gossip.** Logs are prefixes of their origin's log, which holds what the origin broadcast, rumors are
  handed over once and in order (`PrefixConsistency`, `LogsAreBroadcasts`). From every reachable state
  one answer gives a node all that another knows of an origin (`CatchesUp`). A push brings a node to at least the pusher's log whatever else runs on it
  meanwhile (`Push`), and a push each way synchronises two undisturbed nodes (`Synchronise`).
- **Files.** A download returns the uploaded bytes, from any mix of peers, exactly if each key that is
  missing here is held by the peer that is asked for it (`DownloadExactly`), and then the file stays
  (`DownloadKeepsTheFile`, `SecondDownload`). Blob keys agree exactly when no chunk is, byte for byte, the list of
  chunk hashes of an uploaded file (`KeysAgreeExactly`).
- **Search.** Each neighbour gets exactly its part of the budget (`SentExactly`). No topology lets a
  search be handled more often than the budgets it issued (`FloodBound`), and no budget is lost where
  there is a neighbour (`HandleConserves`). A name that is returned was fully known by one peer
  (`SearchIsSound`); the first complete answer ends a search (`AnswerEnds`, `KnownNameIsFound`), and
  without one it gives up after max(1, Retry) attempts (`UnansweredGivesUp`). The callback at
  `peer/impl/datasharing.go:492-493` returns false on a name that does not match, which ends the
  visit: the local search is complete exactly when all stored names match
  (`LocalSearchDependsOnOrder`).

## Model

| member | source | states |
|---|---|---|
| PaxosHandler.PaxosNode.constructor | peer/impl/paxosHandler.go:21-43 | a new handler is idle in step 0 with empty maps and the configured ballot and threshold |
| PaxosHandler.PaxosNode.InitPaxosInstance | peer/impl/paxosHandler.go:69-82 | reports a running instance and otherwise only takes it |
| PaxosHandler.PaxosNode.ClearInstance | peer/impl/paxosHandler.go:85-106 | the ballot, the accepted pair, all counters and all filed TLC messages are reset, the promise channel is new, the step, the final value and the stores are kept |
| PaxosHandler.PaxosNode.NextID | peer/impl/paxosHandler.go:141-146 | only the ballot changes |
| PaxosHandler.PaxosNode.CreatePrepareMessage | peer/impl/paxosHandler.go:149-165 | the prepare of the current step and ballot; phase 1 starts again without promises, bestID, bestValue and the promise channel stay |
| PaxosHandler.PaxosNode.CreateProposeMessage | peer/impl/paxosHandler.go:168-179 | the proposal of the current step and ballot, with no change of state |
| PaxosHandler.PaxosNode.RespondToPrepareMsg | peer/impl/paxosHandler.go:182-214 | new state and reply are those of the function the run results are about: a promise only of this step and of a ballot above maxID, reporting the accepted pair |
| PaxosHandler.PaxosNode.RespondToProposeMsg | peer/impl/paxosHandler.go:217-247 | likewise: an accept exactly for ballot maxID of this step; the accepted pair is written only when empty, the reply carries the proposal all the same |
| PaxosHandler.PaxosNode.RespondToPromiseMsg | peer/impl/paxosHandler.go:250-282 | likewise, with what is put on the promise channel; needs that the nil accepted value is not dereferenced, which NoNilDereference proves of every run |
| PaxosHandler.PaxosNode.RespondToAcceptMsg | peer/impl/paxosHandler.go:285-330 | likewise, with the TLC message exactly when the value's counter reaches the threshold; then the step is left |
| PaxosHandler.PaxosNode.RespondToTLCMsg | peer/impl/paxosHandler.go:333-374 | likewise: a message of an earlier step is dropped, one of this step or a later one is filed, and it is broadcast again exactly when it completes the current step; LateMessagesCatchUp says what the filed ones lead to |
| PaxosHandler.PaxosNode.BuildBlock | peer/impl/paxosHandler.go:377-409 | the block of the current step on top of the last stored hash, or on 32 zero bytes; only the final value changes |
| PaxosHandler.PaxosNode.StoreBlock | peer/impl/paxosHandler.go:412-433 | block, last-hash entry and name binding are written, nothing else changes; NamesAreLastWrites says what the bindings amount to |
| PaxosHandler.PaxosNode.CatchUp | peer/impl/paxosHandler.go:436-451 | the loop computes the recursive catch-up function, whose meaning CatchUpExact gives |
| PaxosInvariants.BallotForm | peer/impl/paxosHandler.go:141-146 | every ballot a node can reach is PaxosID + k * TotalPeers |
| PaxosInvariants.BallotsNeverCollide | peer/mod.go:75-78 | two peers with distinct PaxosIDs in 1..N share no ballot, through any retries and resets |
| PaxosSteps.StepKeepsBase | peer/impl/paxosHandler.go:149-374 | every action keeps the base invariant: each message is backed by the messages that caused it, each node's messages respect the acceptor discipline, no attempt reuses a ballot, no node crashes |
| PaxosSteps.ReachableBase | peer/impl/paxosHandler.go:149-374 | hence it holds in every state of every run, for any number of nodes and any scheduling |
| PaxosValidity.AcceptorDiscipline | peer/impl/paxosHandler.go:182-247 | over all messages of one node in one step: promised IDs strictly increase, no accept is below an earlier promise, a promise after an accept reports an accepted pair below its own ID, at most one TLC |
| PaxosValidity.AcceptedPairIsWrittenOnce | peer/impl/paxosHandler.go:234-237 | no action changes a non-empty accepted pair within a step, lowers maxID or the step, or leaves acceptedID above maxID |
| PaxosValidity.AttemptsAreFresh | peer/impl/datasharing.go:154-191 | no two prepares of a run share step and ID, across nodes, retries and Tags carried into a later step |
| PaxosValidity.NoNilDereference | peer/impl/paxosHandler.go:268-271 | in no run is a promise with a nil accepted value dereferenced |
| PaxosValidity.Validity | peer/impl/datasharing.go:157-191 | every value proposed, accepted, promised, sent in a TLC message or stored was created by some PaxosPhase1 and is not empty, and a promise has a value exactly when its AcceptedID is positive |
| PaxosAgreement.EveryPeerVoted | peer/impl/paxosHandler.go:250-282 | with a unanimous threshold, a ballot whose counted promises reach it has a promise from every node |
| PaxosAgreement.EarlierAccept | peer/impl/paxosHandler.go:182-247 | the induction step over ballots: an accept on a lower ballot was sent before its node's promise of the higher one, so that promise reports an accepted value and the higher proposal carries the value of an accept on a lower ballot |
| PaxosAgreement.Agree | peer/impl/paxosHandler.go:149-283 | two accepts of one step carry the same value, by induction over ballots, under the invariant kept by disciplined runs |
| PaxosAgreement.StepKeepsUnanimous | peer/impl/paxosHandler.go:250-282 | every disciplined action keeps what is known of promise counters, best values and offered values |
| PaxosAgreement.UnanimousAgreement | peer/tests/unit/HW3_test.go:1204 | in a disciplined run with unanimous thresholds at most one value is ever accepted in a step, with any number of competing and retrying proposers |
| PaxosEvidence.CatchUpExact | peer/impl/paxosHandler.go:436-451 | catch-up passes exactly the steps with threshold TLC messages, takes the block of the threshold-th one of each, and stops at the first step that has fewer |
| PaxosEvidence.CatchUpStores | peer/impl/paxosHandler.go:412-451 | afterwards both stores are the folds of the chain extended by the blocks caught |
| PaxosEvidence.LeaveStores | peer/impl/paxosHandler.go:300-326 | leaving a step makes both stores the folds of the extended chain, as long as the step says |
| PaxosEvidence.TLCFiled | peer/impl/paxosHandler.go:333-343 | a TLC message that is filed comes from another node, and the number filed for a step is at most the number of such messages handled |
| PaxosEvidence.StepKeepsEvidence | peer/impl/paxosHandler.go:285-451 | every action keeps: counters below threshold, nothing filed below the step, no counter above the messages handled, every block justified, stores equal to the folds of the chain |
| PaxosEvidence.CommitsAreJustified | peer/impl/paxosHandler.go:285-374 | every committed step is backed by threshold accepts of the stored value the node handled, or by the stored block's TLC and TLC messages the node handled from threshold distinct other peers, all past the step |
| PaxosEvidence.NeverAheadOfTheEvidence | peer/impl/paxosHandler.go:333-374 | a node leaves a step without threshold accepts only after handling TLC messages of threshold other peers that had left it before, by catch-up too |
| PaxosLearner.LateMessagesCatchUp | peer/impl/paxosHandler.go:333-374 | for any sequence of TLC messages of this and later steps of which the last one is the threshold-th of this step: all are kept until then, and the node ends in the first step with fewer than threshold of them, having stored for each step passed the block of the threshold-th one |
| PaxosLearner.LeavesThus | peer/impl/paxosHandler.go:285-451 | after leaving a step the handler is a new one, but for the step, the stores and the final value, which is that of the block stored for the step it left |
| PaxosLearner.CountersAreExact | peer/impl/paxosHandler.go:285-343 | in every run, the accept counter of a value is the number of accepts of it handled for the current step since the step was entered, and the TLC messages filed for a step are those handled for it since then, in order, for this step and all later ones |
| PaxosLearner.LeavesExactly | peer/impl/paxosHandler.go:285-451 | in every run, a node leaves its step exactly with the message that brings the accepts of one value or the TLC messages of that step to threshold; chain, next step and final value are then determined by what it handled since it entered the step, and nothing else changes them |
| PaxosLearner.NamesResolve | peer/impl/paxosHandler.go:427-430 | in every run, a name is in a node's naming store exactly if some stored block carries it, bound to the metahash of the last one that does |
| PaxosHistory.StateIsHistory | peer/impl/paxosHandler.go:85-374 | in every run maxID is the highest ballot of the prepares handled in the step, the accepted pair that of the first proposal handled on the highest ballot there, the promise counter, phase, bestID and bestValue what the promises counted since the last attempt, or in the step, make of them, the ballot PaxosID plus TotalPeers for each nextID in the step; and the instance runs exactly if Tag took it or a message of the step was not dropped |
| PaxosHistory.AnswersExactly | peer/impl/paxosHandler.go:149-374 | so every message sent is determined: a promise exactly for a prepare above all prepares handled in the step, with the first vote's pair or none, an accept exactly for a proposal on the highest ballot, a TLC message exactly with the message that completes the step, a prepare or proposal with the ballot of the attempt |
| PaxosHistory.OffersExactly | peer/impl/paxosHandler.go:250-282 | a value is put on the promise channel exactly with the promise that is the threshold-th for the attempt: the best reported one, or the attempt's own if none was reported; a proposal takes the first value off, and leaving the step empties the channel |
| PaxosBlocks.StepKeepsBlocks | peer/impl/paxosHandler.go:285-451 | every action keeps: each announced block has the right index and hash and points at an announced block of the step before, and every stored block was announced |
| PaxosBlocks.StoredBlocksAreSealed | internal/testing/mod.go:683-693 | in every run, with no hypothesis on agreement or hashes, block t of every stored chain has index t and the hash of its own fields |
| PaxosBlocks.HashFixesHeight | peer/impl/paxosHandler.go:388-398 | without collisions two announced blocks of a run with one hash have one height, whichever branches they are on, although no field is delimited |
| PaxosBlocks.StoredChainIsTraceable | peer/impl/paxosHandler.go:411-433 | the stored chain of every node of every run meets what the two walks ask for, and its store has k+1 keys for k > 0 blocks |
| PaxosEvidence.StoresHoldTheChain | peer/impl/paxosHandler.go:285-451 | in every run, between handlers: the stores are the folds of a chain of `step` blocks, names by last writer; every TLCMap key is at least the step; the current TLC count and every accept count are below threshold |
| PaxosChains.BlockFits | peer/impl/paxosHandler.go:377-409 | two nodes that build the block of a step from the same value on agreeing chains build the same block |
| PaxosChains.StoredFits | peer/impl/paxosHandler.go:436-451 | what a node stores on its way out of a step, catch-up included, continues the common chain |
| PaxosChains.StepKeepsCanonical | peer/impl/callbacks.go:471-526 | every action keeps one chain of which all nodes hold prefixes and all TLC messages carry blocks |
| PaxosChains.ChainAgreement | peer/impl/paxosHandler.go:285-451 | if at most one value per step reaches the accept threshold anywhere, any two chains are prefixes of one another and all TLC messages of a step carry the same block |
| PaxosChains.NodeHoldsChain | peer/impl/paxosHandler.go:285-451 | if at most one value per step is decided, a node at step k holds exactly blocks 0..k-1, each built on its predecessor, with the hash of block k-1 under LastBlockKey, and k+1 keys when k > 0 and no hashes clash |
| PaxosChains.UnanimousDecidesOnce | peer/impl/paxosHandler.go:285-330 | in a disciplined run with unanimous thresholds no two values reach the accept threshold in a step |
| PaxosChains.UnanimousChains | peer/tests/unit/HW3_test.go:1278 | all chains of a disciplined run with unanimous thresholds agree |
| PaxosChains.QuorumsMeet | gui/mod.go:221-223 | two sets of peers that together outnumber the peers share one |
| PaxosChains.MajorityDecidesOnce | peer/impl/paxosHandler.go:285-327 | with majority thresholds, in a step where no acceptor sends two accepts, no two nodes reach the threshold on different values |
| PaxosChains.MajorityChains | gui/mod.go:221-223 | if that holds of all steps, all chains agree |
| PaxosRuns.TidyIsDisciplined | peer/impl/paxosHandler.go:250-282 | the two kinds of discipline together are the hypothesis of UnanimousAgreement, over whole runs |
| PaxosMail.Hear | peer/impl/callbacks.go:397-526 | in a scripted run a peer may handle the next message of another origin when it has handled its own but for those of its Tag goroutine's broadcast, or any of its own, with the effect of its handler |
| PaxosMail.Act | peer/impl/datasharing.go:154-237 | and its Tag goroutine may take its next step when it has handled all its own messages |
| PaxosFork.FewerFork | peer/impl/paxosHandler.go:234-297 | for every configuration with a threshold below the number of peers, any discipline and any two values there is a proper run after which two peers hold them as first blocks |
| PaxosLeftover.UnanimousFork | peer/impl/paxosHandler.go:264-280 | likewise with a threshold that asks for all of at least two peers, when either kind of discipline is missing |
| PaxosLeftover.AgreementExactly | gui/mod.go:221-223 | chains agree at the end of every proper run with both kinds of discipline if and only if the threshold is at least the number of peers |
| PaxosLeftover.AgreementNeedsDiscipline | peer/impl/datasharing.go:165-187 | with less discipline and any threshold up to the number of peers, if and only if there are not two peers |
| PaxosLinks.FewTLCs | peer/impl/paxosHandler.go:333-343 | a node has handled fewer TLC messages of others for a step than there are peers |
| PaxosLinks.UnanimousBuilds | peer/impl/paxosHandler.go:333-409 | with a threshold that asks for all peers, in every run, every stored chain was built by its own node, block upon block, and links |
| PaxosBroken.FewerBreak | peer/impl/paxosHandler.go:333-374 | for every configuration with a threshold below the number of peers and any discipline there is a proper run after which a peer's second block was built on another first block than it stores |
| PaxosBroken.LinksExactly | gui/httpnode/controller/blockchain.go:52-61 | all stored chains link at the end of every proper run of any discipline if and only if the threshold is at least the number of peers, for a hash that tells two first blocks apart |
| Blockchain.PreimageEndsInPrevHash | peer/impl/paxosHandler.go:389-393 | equal preimages have equal previous hashes, although no field is delimited |
| Blockchain.PreimageFields | peer/impl/paxosHandler.go:388-393 | step, unique ID, file name, metahash and previous hash follow one another in this order, whole |
| Blockchain.PreimageFixesFields | peer/impl/paxosHandler.go:388-393 | for fields of given lengths equal preimages have equal steps, values and previous hashes |
| Blockchain.BoundNames | peer/impl/paxosHandler.go:428-430 | the names bound by storing a chain are exactly those its blocks carry |
| Blockchain.NamesAreLastWrites | peer/impl/paxosHandler.go:428-430 | each is bound to the metahash of the last block that carries it |
| Blockchain.HashesDiffer | peer/impl/paxosHandler.go:388-398 | blocks at different heights never share a hash |
| Blockchain.BlockIsStored | peer/impl/paxosHandler.go:412-426 | no later write hides a block: each is found under the hexadecimal form of its hash |
| Blockchain.StoreSize | peer/impl/paxosHandler.go:412-426 | the store of k > 0 blocks has k+1 keys |
| Blockchain.BuiltIsSealedAndLinked | peer/impl/paxosHandler.go:377-409 | a chain is built block upon block exactly if each block's index and hash are right and it links to its predecessor |
| Blockchain.BlockchainGet | gui/httpnode/controller/blockchain.go:38-73 | on every traceable chain's store: a page exactly when each block links to the one before it, showing the whole chain newest first, and the read error otherwise |
| Blockchain.ValidateBlockchain | internal/testing/mod.go:671-699 | on the store of sealed blocks, hashing the fields one after the other, it accepts exactly when there is a block and the blocks link |
| Blockchain.ViewLinks | gui/httpnode/controller/blockchain.go:63-72 | a page shows newest first the unique ID, the name, the metahash and both printed hashes of each block; indices count down to 0, each block links to the next one shown, the oldest to the zero sentinel |
| Rumors.RumorsHandler.CreateRumorsMsg | peer/impl/rumorsHandler.go:28-51 | the new rumor has the next sequence number of its origin and is appended to that log only |
| Rumors.RumorsHandler.Admit | peer/impl/rumorsHandler.go:76-85 | a rumor is taken exactly when it is the next of its origin |
| Rumors.RumorsHandler.ProcessRumors | peer/impl/rumorsHandler.go:70-98 | log, rumors handed over, result and error are those of the loop specification, whatever other sections run while the lock is released |
| Rumors.ProcessReports | peer/impl/rumorsHandler.go:70-98 | without failing handlers the result is true exactly if a rumor was handed over, and the log of those handed over only grows |
| Rumors.FailingHandlerEnds | peer/impl/rumorsHandler.go:87-93 | the first rumor taken whose handler fails ends the packet with false and an error, the rumor staying in the log |
| Rumors.RumorsHandler.GetSequenceMap | peer/impl/rumorsHandler.go:54-67 | a copy of the sequence map |
| Rumors.RumorsHandler.IsLocalMissingRumors | peer/impl/rumorsHandler.go:116-129 | true exactly when the status names a sequence this node lacks |
| Rumors.RumorsHandler.GetRemoteMissingRumors | peer/impl/rumorsHandler.go:132-145 | empty exactly when the remote node lacks nothing, otherwise the missing tail of one deficient origin; the slice is in bounds on every gap-free log |
| Rumors.AppendKeepsGapFree | peer/impl/rumorsHandler.go:84-85 | taking the next rumor keeps all logs gap-free and touches one origin |
| Rumors.ExactSyncDetection | peer/impl/callbacks.go:117-141 | "not locally missing and nothing remotely missing" holds exactly when the two sequence maps are equal |
| Gossip.ProcessIsTurns | peer/impl/rumorsHandler.go:76-95 | despite the unlock in the loop, a packet has the effect of lock-held turns, its own and others', one after the other |
| Gossip.StepKeeps | peer/impl/callbacks.go:48-171 | broadcasts, local handling, receipt of any packet and resends keep the log invariant |
| Gossip.PrefixConsistency | peer/impl/rumorsHandler.go:28-98 | in every run a node's log of an origin is a gap-free prefix of the origin's own, as long as the sequence map says, and what its handlers got from others is exactly that log, once and in order |
| Gossip.GossipRefinesNetwork | peer/impl/messaging.go:38-66 | every step of the gossip system is a broadcast, a first delivery of a broadcast message to a node, or nothing, for the layer above |
| GossipDelivery.LogsAreBroadcasts | peer/impl/messaging.go:38-66 | in every run, a node's log of an origin holds the first messages that origin broadcast, in order, and the origin's own log all of them |
| GossipDelivery.BroadcastArrives | peer/impl/messaging.go:38-66 | from every reachable state, a broadcast and its receipt by a node with all earlier messages of the origin are a run that ends with the new message in that node's log |
| GossipDelivery.CatchesUp | peer/impl/rumorsHandler.go:131-146 | from every reachable state, one answer to a node's status by a node that knows more of an origin, and the receipt of its rumors, are a run that leaves the former with all the latter has of that origin |
| Stack.HandedOnce | peer/impl/rumorsHandler.go:76-95 | a rumor handed to a handler was not handed over before, from packets or locally |
| Stack.StepProjects | peer/impl/callbacks.go:397-526 | each section of a peer (a Paxos callback, a step of Tag, createRumorsMsg, receipt, local handling, resend) is one action of the Paxos system or none, and keeps the correspondence of rumors and messages |
| Stack.StackRefinesPaxos | peer/impl/messaging.go:38-66 | every run of the peers over a network that reorders, duplicates and loses packets projects to a run of the Paxos system |
| Stack.StackChainAgreement | peer/impl/paxosHandler.go:285-451 | so chains agree in it if at most one value per step reaches the accept threshold |
| Stack.StackAgrees | peer/tests/unit/HW3_test.go:1278 | and in every disciplined run of it with unanimous thresholds |
| StackLift.InOrderIsNext | peer/impl/rumorsHandler.go:76-85 | when the messages of an origin are handled in order, the next one is the next rumor of that origin's log |
| StackLift.StackRealises | peer/impl/messaging.go:38-66 | every proper run of the Paxos system is the projection of a run of the peers over packets that keeps the same discipline |
| StackLift.StackAgreementExactly | gui/mod.go:221-223 | down to packets, and whether or not only runs of the program are asked for: chains agree in all runs with both kinds of discipline if and only if the threshold is at least the number of peers |
| StackLift.StackNeedsDiscipline | peer/impl/datasharing.go:165-187 | with less discipline and any threshold up to the number of peers, if and only if there are not two peers |
| StackLift.StackLinksExactly | gui/httpnode/controller/blockchain.go:52-61 | stored chains link in all runs if and only if the threshold is at least the number of peers, for a hash that tells two first blocks apart |
| AntiEntropy.LogsAreCompatible | peer/impl/rumorsHandler.go:28-98 | in every run, of any two nodes' logs of an origin one is a prefix of the other |
| AntiEntropy.ProcessLearns | peer/impl/rumorsHandler.go:76-95 | whatever sections run while the lock is released, a packet with the tail of a log leaves the node with the whole of it, and with every other log continued |
| AntiEntropy.AnswerStep | peer/impl/callbacks.go:129-138 | one answer, to a fresh or stale status, brings one deficient origin up to date, loses nothing and strictly shrinks the set of deficient origins |
| AntiEntropy.Push | peer/impl/callbacks.go:48-171 | the rumors, ack with status, missing rumors loop terminates, for any successful handlers and anything run meanwhile, with a log that continues the old one and is at least the sender's for every origin; undisturbed, it is the longer of the two |
| AntiEntropy.Synchronise | peer/impl/callbacks.go:48-171 | after one push each way each node covers what the other had; undisturbed, both have the pointwise longest logs and equal sequence maps, which the status test recognises |
| Messaging.UnsentIsTheRest | peer/impl/messaging.go:134-141 | the neighbours still to be tried are exactly the unmarked ones, each once |
| Messaging.SentTo.SearchNeighbourAndSend | peer/impl/messaging.go:130-156 | the first unmarked neighbour is tried and marked; stops when there is none or the send fails |
| Messaging.SentTo.WaitAck | peer/impl/messaging.go:88-127 | the packet goes, in order, to as many of the remaining neighbours as timeouts expire before the acknowledgement, up to a send that fails, never twice to one; without a timeout to none |
| Messaging.TriesExactly | peer/impl/messaging.go:88-127 | that number: one send for each timeout before the acknowledgement or the end of the polls, and a send that fails is the last |
| Storage.Store.Get | storage/inmemory/mod.go:58-63 | nil exactly for a missing key |
| Storage.Store.Set | storage/inmemory/mod.go:66-71 | one key is written |
| Text.HexInjective | peer/impl/datasharing.go:44-46 | hexadecimal keys are equal only for equal hashes |
| Text.HexReads | peer/impl/datasharing.go:44-46 | the printed form has two hexadecimal digits for each byte, the high one first |
| Text.ItoaReads | peer/impl/paxosHandler.go:389 | the decimal form denotes the number and has no leading zero |
| Text.SplittersInvertJoin | peer/datasharing.go:10 | both strings.Fields and strings.Split on newline read back newline-joined parts that are non-empty and free of white space |
| DataSharing.Upload | peer/impl/datasharing.go:22-63 | the metahash, and every chunk and the metafile under their keys; a read error leaves the chunks read so far and no metafile |
| DataSharing.FetchInto | peer/impl/datasharing.go:333-413 | a key missing locally is asked of a peer, and a non-nil reply is stored before it is read; FetchExactly says when this succeeds |
| DataSharing.Download | peer/impl/datasharing.go:66-96 | store and result are those of fetching the metafile and then every listed key in order, stopping at the first failure; DownloadExactly says when there is none |
| DataSharing.FetchExactly | peer/impl/datasharing.go:333-413 | a read succeeds exactly if the key is held locally or by the peer that is asked; its value is then in the store, and nothing stored before is lost |
| DataSharing.FetchAllExactly | peer/impl/datasharing.go:83-93 | reading a list of keys succeeds exactly if the i-th peer asked holds the i-th missing key, and leaves all of them in the store |
| DataSharing.DownloadExactly | peer/impl/datasharing.go:66-96 | a download of an upload's metahash returns the uploaded bytes exactly if each key missing locally is held by the peer asked for it, and fails otherwise |
| DataSharing.DownloadKeepsTheFile | peer/impl/callbacks.go:207-210 | after one that succeeds, the metafile and every chunk are stored under their keys, and nothing stored before is lost |
| DataSharing.SecondDownload | peer/impl/datasharing.go:66-96 | so a second one returns the same bytes without any request |
| DataSharing.DownloadFromPeers | peer/impl/datasharing.go:66-96 | from an empty store it succeeds with as many peers that hold the file as it has keys |
| DataSharing.AnswerAndKeep | peer/impl/callbacks.go:199-242 | a request that is answered and its reply give a peer what the answering one has under the key, and change nothing else |
| DataSharing.HashListAt | peer/impl/datasharing.go:48-57 | bytes 32 i to 32 i + 32 of the hash list are the hash of chunk i |
| DataSharing.ConcatAt | peer/impl/datasharing.go:92 | the data has each chunk after the chunks before it |
| DataSharing.HashListInjective | peer/impl/datasharing.go:48-57 | equal lists of 32-byte hashes come from equal chunk keys |
| DataSharing.KeysAgreeExactly | peer/impl/datasharing.go:43-60 | without hash collisions no key is ever written with two values if and only if no chunk of an upload equals the hash list of an uploaded file |
| DataSharing.MetafileRoundTrip | peer/impl/datasharing.go:50-81 | both ways of reading a metafile return the chunk keys that were written |
| DataSharing.DownloadReturnsTheUpload | peer/impl/datasharing.go:66-96 | every download of an upload's metahash that succeeds returns the original bytes, from any mix of local and fetched blobs of the run |
| DataSharing.UploadIsWrites | peer/impl/datasharing.go:49-60 | an upload writes nothing but its chunks and metafile under their keys |
| DataSharing.UploadStores | peer/impl/datasharing.go:22-63 | after an upload, interrupted or not, each chunk that was read is under its key, after a complete one the metafile is under the metahash, nothing else is added and what was stored before stays |
| DataSharing.UploadThenDownload | peer/impl/datasharing.go:22-96 | right after an upload the same peer's download succeeds without any request |
| DataSharing.StoresAgree | peer/impl/callbacks.go:199-242 | in every run of uploads, requests and replies, all peers' blob stores agree on shared keys and hold only uploaded blobs |
| Search.Distribute | peer/impl/datasharing.go:423-435 | the nested round-robin loop ends and gives each neighbour the share of the recursive specification |
| Search.ShareIsDivision | peer/impl/datasharing.go:423-435 | that share is budget / n, and one more for the first budget mod n neighbours |
| Search.SharesSum | peer/impl/datasharing.go:423-435 | the shares sum to the budget |
| Search.SendSearchReq | peer/impl/datasharing.go:416-457 | request i goes to neighbour i and carries its part of the budget, for as many neighbours as have a part, up to the first send that fails, which is reported |
| Search.SentExactly | peer/impl/datasharing.go:416-457 | the requests, one by one: to neighbour i budget / n and one more for the first budget mod n, to the first min(n, budget) neighbours; a failure exactly if the broken neighbour is one of them |
| Search.SentBudget | peer/impl/datasharing.go:416-457 | the requests sent carry at most the budget, and all of it if there is a neighbour and no send fails; each carries a positive budget to a neighbour |
| Search.BuildReply | peer/impl/callbacks.go:315-394 | the answer lists the selected names in the order visited, with their chunks |
| Search.ResponsesAre | peer/impl/callbacks.go:327-336 | an entry is in an answer exactly if its name is visited, matches and has its metafile stored, and it is the description of that name |
| Search.AnswerDescribes | peer/impl/callbacks.go:358-394 | an answer has one entry for each selected name, in the order of the visit, with the metahash it is bound to and, for each key of its metafile, the key if the chunk is stored and nil if not |
| Search.FirstCompleteWins | peer/impl/callbacks.go:287-311 | of several complete responses the first gives the name |
| Search.CheckAvailability | peer/impl/callbacks.go:279-312 | the name of the first response without a missing chunk |
| Search.AnswerIsSoundAndComplete | peer/impl/callbacks.go:279-394 | an answer triggers the search with a matching name whose metafile and chunks the answering peer holds, and triggers it whenever there is such a name |
| Search.LocalFullyKnowsFile | peer/impl/datasharing.go:488-516 | the loops compute the visit that the next two rows are about |
| Search.LocalSearchSound | peer/impl/datasharing.go:488-516 | a non-empty result matches and is fully known locally |
| Search.LocalSearchFinds | peer/impl/datasharing.go:488-516 | the first name that is fully known is the result if all names visited before it match |
| Search.LocalSearchDependsOnOrder | peer/impl/datasharing.go:491-494 | when some name is fully known, the local search finds one in every visit order if and only if every stored name matches |
| Flood.SearchFirst | peer/impl/datasharing.go:278-330 | state and requests sent are those of following the same events step by step, the search being decided by the first of local result, complete answer, closed channel, failed send and exhausted trials |
| Flood.LocalNameEnds | peer/impl/datasharing.go:279-283 | a name fully known locally is returned without any request |
| Flood.AnswerEnds | peer/impl/callbacks.go:306-311 | the first answer with a complete response to reach a waiting search ends it with the name of the first such response, and no request goes out any more |
| Flood.UnansweredGivesUp | peer/impl/datasharing.go:302-328 | without a complete answer and with sends that do not fail, each tick makes one attempt more, with all its requests, until max(1, Retry) have been made; the next one gives up |
| Flood.FailedTickEnds | peer/impl/datasharing.go:322-325 | a send that fails ends the search without a name |
| Flood.BudgetForm | peer/impl/datasharing.go:319 | the k-th attempt has budget Initial * Factor^k |
| Flood.HandleKeepsRequests | peer/impl/callbacks.go:315-356 | handling a request, whatever its forwards, does not raise the sum of requests handled and budgets in flight, and forwards only positive budgets |
| Flood.HandleConserves | peer/impl/callbacks.go:315-356 | where there is a neighbour to forward to and no send fails, handling a request uses up exactly one unit of budget |
| Flood.FloodBound | peer/impl/callbacks.go:315-356 | requests handled plus budgets in flight never exceed the sum of Initial * Factor^k over the attempts made, at most max(1, Retry), on any topology and with any losses; Budget - 1 never underflows |
| Flood.FloodStops | peer/impl/callbacks.go:315-356 | between attempts there are at most as many deliveries and losses as budget in flight |
| Flood.SearchIsSound | peer/impl/datasharing.go:278-330 | a non-empty name returned in any run matches the pattern, and at some moment of that run one peer held its metafile and every chunk |
| Flood.KnownNameIsFound | peer/impl/callbacks.go:279-394 | if a request reaches a peer that fully knows a matching name and its answer reaches the search while it waits, the search ends with a matching name that this peer fully knew |

## Left out

- Agreement with thresholds below the number of peers, or without discipline: false of these handlers
  (`PaxosLeftover.AgreementExactly`, `PaxosLeftover.AgreementNeedsDiscipline`); `MajorityDecidesOnce`
  gives a sufficient condition on a run. Thresholds above the number of peers are covered for
  disciplined runs only.
- Name uniqueness across Tags: a proposal can be carried into a later step without checking the name
  again; only the last-writer fold of the chain is proved of the naming store.
- Order-independence of TLC delivery: `clearInstance` drops TLC messages filed for later steps, so only
  the direction "never ahead of the evidence" holds.
- PaxosHandler.PaxosNode.ClearInstance: does not model `valueChannel` and `instanceChannel`; what they
  wake up is the choice of the next action of the goroutine that runs `Tag`.
- PaxosHandler.PaxosNode.RespondToPromiseMsg: the value sent is a result and the promise channel a list
  of `PaxosSystem`; its capacity of one is kept by proper runs (`PaxosRuns.ChannelHeld`), and a
  handler that blocks on a full channel is not modelled.
- PaxosHandler.PaxosNode.StoreBlock: the error path of a block that cannot be marshalled is not modelled.
- PaxosValidity.NoNilDereference: a promise is taken to be a snapshot; in Go it holds a pointer to a
  field of the handler until it is marshalled.
- AntiEntropy.Push: the sender's log stays as it is while it answers, and the handlers of the rumors
  succeed; a failing handler ends the exchange without an acknowledgement.
- Stack.StackRefinesPaxos: errors of marshalling and of broadcasts are not modelled, and a panic stops
  the Paxos sections of a node only.
- Search.BuildReply: a peer's naming store and blob store are read in one snapshot, in `Flood`, too; the
  source reads each name, metafile and chunk in a lock section of its own
  (`peer/impl/callbacks.go:331-376`).
- Which neighbours a search request is forwarded to (all but its sender and its origin,
  `peer/impl/callbacks.go:348-352`): in `Flood` any list of peers.
- DataSharing.Upload: an empty upload, on which Go panics, and a reader that returns data together
  with end of file are outside the model.
- Messaging.SentTo.WaitAck: acknowledgements are matched by the ID of the acknowledging packet itself;
  the model takes any poll result.
- `Delete`, `Len` and `ForEach` of the in-memory store: nothing modelled uses the first two, and the
  visits of `ForEach` are the `order` parameters of `Search`.
- `Tag` with `TotalPeers <= 1`, which writes the naming store directly, and the names written by search
  replies: the naming store of the Paxos system is written by `storeBlock` alone.
- Timers, goroutine scheduling and `Stop`: any enabled action may come next.
- JSON, regular expressions, xid and SHA-256 are abstract functions; white space is ASCII.
- `retrieveFilenames` and the catalog, routing table, request and channel tables: thin maps.
- Transports, the HTTP node and web GUI apart from the blockchain page, traffic graphs, file storage,
  publication reactors and malicious nodes: plumbing around the peer.
