# A verified model of the vehicular BFT engine

This Dafny project models the consensus engine and the dynamic clustering of the vehicular BFT
repository and proves what they guarantee, and, where a documented guarantee fails, exactly when it
holds. `dafny verify dfyconfig.toml` checks everything.

## What is modelled

**Consensus.** A vehicle is a class (`Node.dfy`) whose handlers, tallies, votes and reputation
updates change its fields; each method is proved equal to a function on node values
(`NodeModel.dfy`, `Weights.dfy`, `VoteTally.dfy`). A cluster's engine is a class
(`PbftInstance.dfy`, with the inner loops in `Engine.dfy`) with both of the repository's drivers:

- `RunPBFT`, the synchronous round with its nested delivery loops, self-counting, three cancellation
  points, count quorums and reputation-weighted quorums. The loops are proved to perform a round
  that is described node by node without loops (`Round.dfy`, `Epochs.dfy`). `QuorumSets.dfy` shows
  that such a round computes three nested sets of nodes, and `RoundOrder.dfy` that the order of nodes
  never shows; `Runs.dfy` follows any sequence of calls, and `LinkedRounds.dfy` any sequence on a
  linked cluster with any past, such as one put together by re-clustering; `Deliveries.dfy` computes
  the number of messages that the loops count. For reputation, `WeightedRounds.dfy` decides single
  rounds, `ReputationEpochs.dfy` when weighted quorums overlap, `WeightedSplit.dfy` how they split
  after one call, and `WeightedLiveness.dfy` follows a cluster over any number of epochs.
- the message-at-a-time API, as a step system over a network in which messages arrive in any order,
  repeatedly or never, with faulty peers (`StepSystem.dfy`, `StepSafety.dfy`, `StepDigests.dfy`,
  `StepLiveness.dfy`).

`GlobalTransition.dfy` is the coordinator of a transition across clusters. `ClusterRun.dfy` cuts one
cluster's call, epoch included, into turns; `GlobalOutcomes.dfy` and `Interleaving.dfy` show what
concurrency and arrival order can and cannot influence. `Vote.dfy` and `VoteTally.dfy`
compare the two vote tallies.

**Clustering.** `Dimensions.dfy` (an integer square root and the cluster dimensions),
`Seeding.dfy` (K-Means++), `Assignment.dfy` and `Balance.dfy` (capacity-capped greedy assignment and
exact cluster sizes), `Centroids.dfy`, `KMeans.dfy`, `Election.dfy`, `Membership.dfy`. A tick is a
method of the class in `TickManager.dfy`, with its invariant over any run of ticks in
`TickStates.dfy`, and the service queue as a machine with interleaved enqueues in
`ServiceQueue.dfy`. `Rebuild.dfy` rewires node objects into instances and `RebuiltNetwork.dfy` shows
that the rebuilt instances meet the conditions under which `RunPBFT` succeeds. `Simulation.dfy` closes
the circle: from running instances to the tick manager, through a tick and its rewiring, to a
transition that commits.

## Modelling choices

- Signatures are perfect and digests injective: an envelope validates exactly when the receiver
  holds the key that signed it. Message bodies are typed values, routed to the handler of their type.
- Floating-point numbers are reals. Distances are squared, which keeps every comparison. The
  reputation reward's `math.Log(1+x)` is a function that is non-negative for x >= 0.
- Random draws are oracles: an index for the first seed, and for each later one the product of the
  draw with the total weight, a number in [0, total).
- Mutex-protected blocks are atomic. Cancellation is a Boolean at each of the three checks.
- Dafny's automatic induction is switched off on every lemma: each proof is the written one.
- Tallies, executed numbers and similar maps are mathematical sets and maps; sequence numbers do not wrap.

## Where the code and its documentation differ

The model follows the code.

- `HandlePrePrepare` is documented to drop a second digest for one sequence number. It records the
  pair but never consults the record (`NodeModel.EarlierDigestIsForgotten`), so the step-system
  results assume that PrePrepares come only from the leader's own `StartPBFT`.
- `HandlePrepare` is documented to compare the digest with the one accepted before. It compares the
  view only, so a correct node's Commit can carry a digest that a faulty peer made up
  (`StepDigests.ForgedDigestSpreads`). `StepDigests.CommitRepeatsLastDigest` says exactly when it does,
  and by `StepDigests.MessagesNameStoredOperations` it never does without faulty peers. What is
  executed is the stored operation in any case.
- `HandleVoteReplies` is documented to ignore repeated senders. It counts every envelope;
  `VoteTally.CountsSendersIffNoRepeat` says exactly when that makes no difference and
  `VoteTally.RepeatedSenderDecidesAlone` what happens otherwise. `RunVotePhase` does not have this gap.
- `SyncReputations` leaves a node's entry for itself at its initial value. A node whose score has
  fallen below it overcounts itself; `ReputationEpochs.OverlapIff` says exactly how much overcounting
  the overlap of weighted quorums bears, and `WeightedSplit.DecayedSelfWeightsSplit` how one ordinary
  call leads to disjoint quorums. A node whose score has risen undercounts itself;
  `WeightedLiveness.UniformRoundSucceedsIff` says exactly when rounds still succeed.
- A node executes each sequence number once, and a re-elected leader continues from its own counter.
  An operation under a number that a member executed before is acknowledged by that member but not
  logged (`LinkedRounds.LinkedRoundLogs`, `LinkedRounds.NewLeaderLosesOperation`).
- K-Means++ can seed one node twice, exactly when a draw of 0 meets an already seeded first node
  (`Seeding.SeedsDistinctIff`, `Seeding.ZeroDrawRepeatsASeed`).
- `ProcessTick` drops the queued operations of an old cluster that has no leader, and of all clusters
  when there are fewer than four nodes (`ServiceQueue.ConservedIffAllInherited`,
  `ServiceQueue.LeaderlessClusterLosesOperation`).
- `ElectAllLeaders` is documented to return one entry per cluster; empty clusters get none.

## Model

| member | source | states |
|---|---|---|
| `Quorum.FaultyThreshold` | node/node.go:193-209 | The largest f with 3f+1 <= n; 0 for an empty cluster. |
| `Quorum.QuorumsIntersect` | node/node.go:215-217 | Two local quorums among at most 3f+1 nodes share at least f+1 of them. |
| `Quorum.GlobalQuorumHasCorrectMember` | node/node.go:219-226 | f_global+1 replies always include one from outside any f_global nodes. |
| `Weights.WeightRemove` | node/node.go:433-462 | The weight summed over a sender set does not depend on the order of the map traversal. |
| `Weights.Threshold` | node/node.go:464-472 | The weighted threshold lies in (2W/3, 2W/3 + 1]. |
| `Weights.ThresholdIsLeast` | node/node.go:469-472 | It is the least whole number above two thirds of the total. |
| `Weights.WholeQuorumIff` | node/node.go:464-472 | Among n votes of weight 1, k are a quorum exactly when 3k > 2n. |
| `NodeObject.Node.constructor` | node/node.go:152-181 | A new node has empty tallies, log and votes, and holds exactly its own key. |
| `NodeObject.Node.AddPrepare` | node/node.go:259-272 | The sender joins the tally of that sequence number only; the count is of distinct senders. |
| `NodeObject.Node.AddCommit` | node/node.go:274-286 | The same for Commits. |
| `NodeObject.Node.ApplyOperation` | node/node.go:232-253 | The log grows by the operation unless the sequence number was executed before. |
| `NodeObject.Node.NextSequenceID` | node/node.go:310-319 | The counter advances by one and its new value is returned. |
| `NodeObject.Node.StartPBFT` | node/leader.go:201-236 | Only a leader draws a number and announces the operation under it; anyone else changes nothing. |
| `NodeObject.Node.HandlePrePrepare` | node/replica.go:96-157 | Exactly an authentic pre-prepare whose digest matches is answered; the whole new state is given. |
| `NodeObject.Node.HandlePrepare` | node/replica.go:173-221 | Exactly authentic Prepares of the node's view are tallied; a Commit is sent from the 2f+1st sender on. |
| `NodeObject.Node.HandleCommit` | node/replica.go:239-289 | Exactly authentic Commits of the node's view are tallied; from the 2f+1st sender on the operation is applied and answered. |
| `NodeObject.Node.HandleVoteReplies` | node/leader.go:108-184 | The decision is that of one vote per envelope; votes are remembered until it is reached, cleared after, and LOCAL draws a sequence number. |
| `NodeObject.Node.AddVoteReply` | node/node.go:288-298 | The sender's latest vote replaces its earlier one. |
| `NodeObject.Node.ClearVoteReplies` | node/node.go:300-308 | No vote remains. |
| `NodeObject.Node.InitReputation` | node/node.go:408-417 | Score, base score and peer map are set; nothing else changes. |
| `NodeObject.Node.GetPrepareWeight` | node/node.go:433-445 | The weight of the Prepare tally of that sequence number, unknown peers counting 1. |
| `NodeObject.Node.GetCommitWeight` | node/node.go:450-462 | The same for the Commit tally. |
| `NodeObject.Node.UpdateReputation` | node/node.go:491-507 | Reward with a logarithmic denominator or multiplicative decay, never below 0. |
| `NodeObject.Node.SyncReputations` | node/node.go:516-530 | Every entry but the node's own is overwritten. |
| `NodeModel.ConflictRecordIsHarmless` | node/replica.go:121-137 | Recording an accepted pair among the known keys never changes which envelopes authenticate. |
| `NodeModel.EarlierDigestIsForgotten` | node/replica.go:121-137 | A second pre-prepare for the same number is judged as if there had been no first. |
| `NodeModel.AcceptedPrePrepareIff` | node/replica.go:96-119 | Exactly a pre-prepare from a trusted sender with its own message's digest is accepted. |
| `NodeModel.ConflictKeysDiffer` | node/replica.go:121-137 | Different pairs of view and sequence number are recorded under different keys. |
| `NodeModel.PairIsRecorded` | node/replica.go:121-137 | An accepted pre-prepare leaves a record of its own pair and of no other. |
| `Engine.CountPrepares` | protocol/pbft.go:265-288 | The counting loop of phase 3 at one node ends in the tally of everyone heard, with a Commit exactly if a quorum completed; it hands the node every Prepare but its own. |
| `Engine.CountCommits` | protocol/pbft.go:345-366 | The counting loop of phase 4 likewise, executing and replying at most once. |
| `Engine.WeighPrepares` | protocol/pbft.go:218-264 | The weighted loop of phase 3, which tries the handler first and builds the Commit itself otherwise, has the same outcome as the rule by weight. |
| `Engine.WeighCommits` | protocol/pbft.go:305-344 | The weighted loop of phase 4 likewise. |
| `Round.CompletesIffFinalQuorum` | protocol/pbft.go:214-366 | A node completes a quorum in a phase exactly when it hears a peer and its final tally is a quorum: arrival order is irrelevant. |
| `PbftInstance.PBFTInstance.constructor` | protocol/pbft.go:110-127 | A new instance has its members, fault bound, an empty operation log and no reputation. |
| `PbftInstance.PBFTInstance.RunPBFT` | protocol/pbft.go:168-382 | One call performs the declarative round on all nodes, then the epoch update when due; operation log, total and epoch are given exactly, and so is the number of messages its loops hand out. |
| `PbftInstance.PBFTInstance.ApplyReputationUpdate` | protocol/pbft.go:472-497 | Every participant's gain times its logarithmic denominator is alpha, everyone else keeps the share gamma, no score falls below 0; every map learns all peers' scores, and the total is their sum. |
| `Epochs.EpochScores` | node/node.go:491-507 | The same of every score under any parameters, with the clamp at 0 said exactly. |
| `Epochs.ParticipantGains` | node/node.go:491-503 | For alpha >= 0 a participant gains exactly alpha over its denominator, and something if alpha > 0. |
| `Epochs.AbsenceDecays` | node/node.go:491-507 | For gamma >= 0 everyone else ends at exactly gamma times its score. |
| `Epochs.GainsDiminish` | node/node.go:491-503 | With a monotone logarithm, a participant further above its base score gains no more than one closer to it. |
| `PbftInstance.PBFTInstance.SendToAll` | protocol/pbft.go:519-532 | One call per node with an address, in node order; none without a send function. |
| `PbftInstance.PBFTInstance.FindNode` | protocol/pbft.go:534-544 | A node with that ID, or none exists. |
| `PbftInstance.PBFTInstance.RunPrePrepare` | protocol/pbft.go:390-401 | The call is the Propose step of the step system. |
| `PbftInstance.PBFTInstance.ReceivePrePrepare` | protocol/pbft.go:404-414 | The call is the delivery step at the named node; an unknown node changes nothing. |
| `PbftInstance.PBFTInstance.ReceivePrepare` | protocol/pbft.go:418-431 | The same for a Prepare. |
| `PbftInstance.PBFTInstance.ReceiveCommit` | protocol/pbft.go:435-457 | The same for a Commit, with the stored operation and the reply of a completing delivery. |
| `StepSystem.NetAfterSend` | protocol/pbft.go:519-532 | A broadcast adds exactly its envelope to the network if some node has an address, and nothing otherwise. |
| `StepSystem.BroadcastStep` | protocol/pbft.go:519-532 | A broadcast makes, in node order, one packet to the address of every node that has one. |
| `StepSystem.RefusedPrePrepare` | node/replica.go:96-119 | A pre-prepare from an untrusted sender or key, or with a digest other than its message's, changes nothing. |
| `StepSystem.CommitLogs` | protocol/pbft.go:435-457 | A trusted Commit of the node's view makes it log the stored operation, or the empty string without one, exactly when its sender is at least the 2f+1st and the number is new. |
| `StepSafety.ReachableInv` | protocol/pbft.go:390-457 | Every reachable state keeps: tallies are backed by sent messages or faulty peers, sent messages are earned, executions have Commit quorums, logs list stored operations once each. |
| `StepSafety.ExecutedIsCertified` | protocol/pbft.go:418-457 | An executed number has a stored operation and f+1 correct nodes that sent its Commit, each holding 2f+1 distinct Prepares. |
| `StepSafety.LogIsWhatWasStored` | node/node.go:242-253 | Every correct node's log is exactly the stored operations of what it executed, once each. |
| `StepSafety.LogsAgreeUpToOrder` | protocol/pbft.go:435-457 | Correct nodes that executed the same numbers hold the same multiset of operations. |
| `StepSafety.SameOperationLogged` | protocol/pbft.go:435-457 | Two correct nodes that executed a number both logged the one operation stored under it. |
| `StepDigests.MessagesNameStoredOperations` | protocol/pbft.go:390-431 | In every reachable state each pre-prepare and Prepare on the network carries the digest of the operation stored under its number, and each Commit too when no peer is faulty. |
| `StepDigests.CommitRepeatsLastDigest` | node/replica.go:173-221 | In general a Commit carries the digest of the Prepare that completed the quorum, whatever the others carry: it is that of the stored operation exactly if that Prepare's was. |
| `StepDigests.ForgedDigestSpreads` | node/replica.go:173-221 | A reachable state in which one faulty peer has made a correct node send a Commit with the digest of another operation. |
| `StepLiveness.QuiescenceImpliesExecution` | protocol/pbft.go:390-457 | Once every message for a proposed number has reached 2f+1 linked correct nodes, each of them has executed it, once. |
| `RoundOrder.OrderOfNodesIrrelevant` | protocol/pbft.go:192-366 | A round on the same nodes in another order, under the same leader, leaves every node in the same state, fails for the same reason or succeeds alike, and has the same repliers; counted rounds have the same replies. |
| `QuorumSets.CommitTallies` | protocol/pbft.go:192-288 | After phase 3 a node's Prepare tally is itself, if it accepted, and everyone it heard; its Commit tally is itself exactly if that is a quorum. |
| `QuorumSets.ReplyDecision` | protocol/pbft.go:345-366 | In phase 4 a node executes exactly when itself and the committers it hears form a quorum. |
| `QuorumSets.RoundLogs` | protocol/pbft.go:168-370 | In an uncancelled round exactly the repliers' logs grow, by the operation. |
| `QuorumSets.RoundOutcome` | protocol/pbft.go:203-370 | The replies come from exactly the repliers, once each, in node order; a failure names the first empty set. |
| `QuorumSets.FailureReason` | protocol/pbft.go:168-370 | Why a round fails, cancellations included, in the order of the checks; none of them applying, it succeeds. |
| `QuorumSets.CommitNamesOperation` | protocol/pbft.go:235-287 | Every Commit of a round names its number, its operation's digest and its sender. |
| `QuorumSets.RepliesInLeaderView` | protocol/pbft.go:345-366 | In a counted round every reply carries the leader's view. |
| `QuorumSets.RepliersShareCommitters` | protocol/pbft.go:345-366 | Any two repliers among at most 3f+1 nodes rest on f+1 common committers. |
| `Runs.RunsStayFresh` | node/node.go:313-319 | After any calls, nothing above the leader's counter has been tallied or executed; the counter advanced once per call. |
| `Runs.RunLogs` | protocol/pbft.go:168-382 | For any keys and views, the same nodes reply in every call, and exactly their logs grow, by the operations of the completed calls in order. |
| `Runs.CallSucceeds` | protocol/pbft.go:188-212 | A call succeeds exactly when it is not cancelled and somebody replies at all. |
| `Runs.LinkedLogsAgree` | protocol/pbft.go:168-382 | On a fully linked instance all logs stay equal and list the successful operations in order. |
| `Runs.LinkedCallSucceeds` | protocol/pbft.go:168-382 | There an uncancelled call succeeds exactly when n >= max(2, 2f+1). |
| `LinkedRounds.RepliersAreMembers` | protocol/pbft.go:301-370 | The replies of any round come from pairwise distinct members, whatever the nodes went through before. |
| `LinkedRounds.LinkedRoundSucceedsIff` | protocol/pbft.go:168-370 | On a linked cluster of n >= max(2, 2f+1) nodes with any past, a round succeeds exactly when it is not cancelled. |
| `LinkedRounds.LinkedRoundAnswered` | protocol/pbft.go:301-370 | It is then answered by every node, in node order. |
| `LinkedRounds.LinkedRoundLogs` | node/node.go:232-253 | There a node logs the operation exactly if it has not executed the leader's next number before. |
| `LinkedRounds.NewLeaderLosesOperation` | node/node.go:242-253 | When another member takes over after a round, with its counter where the old leader's had been, its first operation is acknowledged by all and logged by none. |
| `LinkedRounds.LinkedRunLogs` | node/node.go:232-253 | Over any sequence of calls each log grows by the operations of the uncancelled calls whose numbers the node had not executed, in order. |
| `ReputationEpochs.EpochSynchronises` | protocol/pbft.go:472-497 | After any epoch all maps agree with the peers' scores and no self-entry has moved. |
| `ReputationEpochs.EpochsSynchronised` | protocol/pbft.go:472-497 | The same after any number of epochs with any participants. |
| `ReputationEpochs.ScoreBound` | node/node.go:491-507 | After T epochs every score lies between 0 and R_init + T*alpha/beta. |
| `ReputationEpochs.NeverOvercountsIff` | node/node.go:521-530 | A node's map never overstates any set of members exactly when its score is not below its self-weight. |
| `ReputationEpochs.WeightedQuorumsIntersect` | node/node.go:433-472 | Two weighted quorums by the maps of two nodes overlap in more than a third of the true weight, as long as the nodes' overcounts of themselves stay within the slack of the threshold together. |
| `ReputationEpochs.EpochQuorumsIntersect` | node/node.go:433-530 | The same at every epoch reached from synchronised maps. |
| `ReputationEpochs.UndecayedQuorumsIntersect` | node/node.go:521-530 | In particular for nodes whose scores are not below their self-weights. |
| `ReputationEpochs.OverlapIff` | node/node.go:433-530 | The condition is exact: overcounts of at most x and y guarantee the overlap in every cluster of total W if and only if x + y < 2T - 4W/3 for the threshold T, or one of the nodes cannot see a quorum at all. |
| `WeightedRounds.CommitsByWeight` | protocol/pbft.go:218-264 | A node commits exactly when somebody else accepts the PrePrepare and the acceptors reach the threshold by its map. |
| `WeightedRounds.RoundWhenSufficient` | protocol/pbft.go:305-344 | When the acceptors reach the threshold by every map, every node replies to an uncancelled call. |
| `WeightedRounds.ParticipantsAreAcceptors` | protocol/pbft.go:372-379 | The participants that an update rewards are exactly the nodes that hold the leader's key. |
| `WeightedRounds.UnitQuorumIsCountQuorum` | node/node.go:464-472 | Among 3f+1 votes of weight 1 the rule by weight asks for what the count of 2f+1 asks for. |
| `WeightedRounds.UnitRoundSucceedsIff` | protocol/pbft.go:218-344 | A weighted round of n >= 2 nodes of weight 1 succeeds, answered by all, exactly when it is not cancelled and more than two thirds of the nodes accept the pre-prepare. |
| `WeightedRounds.EmptyMapsWeighOne` | node/node.go:423-445 | Nodes that know no scores give every member weight 1. |
| `WeightedSplit.DecayedSelfWeightsSplit` | protocol/pbft.go:372-379 | One successful call and its update lead to two disjoint sets that two nodes each take for a weighted quorum. |
| `WeightedSplit.FourAndTwoExist` | protocol/pbft.go:218-264 | A cluster of six nodes to which this applies. |
| `WeightedLiveness.FrozenSelfWeightSuffices` | node/node.go:469-472 | (n-1)R + R_init reaches the threshold of nR for n >= 3 and R >= R_init >= 1. |
| `WeightedLiveness.StaysHealthy` | protocol/pbft.go:372-379 | Equal scores, complete maps and a live leader are kept by every round and its update, forever. |
| `WeightedLiveness.EveryRoundSucceeds` | protocol/pbft.go:218-344 | Every round of such a run is answered by every node, on the weighted path. |
| `WeightedLiveness.LifetimeLogs` | protocol/pbft.go:305-344 | All logs of such a run list all operations in order. |
| `WeightedLiveness.UniformRoundSucceedsIff` | node/node.go:469-472 | With equal scores R, frozen self-weights R_init and a trusted leader, a round of at least two nodes with total W succeeds exactly when it is not cancelled and W + R_init - R reaches the threshold of W. |
| `WeightedLiveness.TwoNodesStall` | node/node.go:469-472 | Two nodes stall exactly when R + R_init misses the threshold of 2R. |
| `WeightedLiveness.TwoNodesStallEarly` | node/node.go:469-472 | They do from R = 3 R_init on, and already at R = 1.5 against R_init = 1. |
| `Vote.RunVotePhase` | protocol/vote.go:35-89 | The decision counts each sender once, by its first authentic envelope. |
| `VoteTally.CorrectSendersDecide` | protocol/vote.go:44-88 | With at most f faulty senders and all others voting alike, the outcome is their vote or no quorum, never the other vote. |
| `VoteTally.DecisionIff` | protocol/vote.go:84-88 | Both tallies decide from 2f+1 votes on, for GLOBAL exactly when it has at least as many as LOCAL. |
| `VoteTally.SplitVoteIsGlobal` | node/leader.go:150-183 | One vote each way is decided for GLOBAL by both. |
| `VoteTally.ForgedVotesAreIgnored` | node/leader.go:122-148 | A vote not signed with the key held for its sender changes neither decision and no remembered vote, wherever it comes in. |
| `VoteTally.LaterVotesDoNotCount` | protocol/vote.go:49-88 | In the tally by senders nothing that a sender sends after an authentic vote counts. |
| `VoteTally.LatestIsRemembered` | node/node.go:288-298 | What is remembered of a sender is its latest authentic vote. |
| `VoteTally.CountsSendersIffNoRepeat` | node/leader.go:119-160 | The count per envelope is at least the number of senders, and equal exactly when no authentic repeat carries that vote. |
| `VoteTally.SameDecisionWithoutRepeats` | node/leader.go:119-183 | Without repeated senders both tallies decide alike, or both not at all. |
| `VoteTally.RepeatedSenderDecidesAlone` | node/leader.go:141-149 | For every f >= 1, one sender repeating itself 2f+1 times decides here and is one vote in RunVotePhase. |
| `ClusterRun.TurnsAreTheCall` | protocol/pbft.go:168-382 | Taken turn by turn, phases and then the epoch, a call ends with the nodes and the outcome of RunPBFT. |
| `Interleaving.EveryInterleavingAgrees` | protocol/inter_cluster.go:108-119 | Disjoint clusters whose phases and epochs interleave in any order end with the same nodes and outcomes. |
| `Interleaving.FiveTurnsSuffice` | protocol/inter_cluster.go:108-119 | Five turns for each cluster are enough, however they are interleaved. |
| `Interleaving.RoundsAsIfAlone` | protocol/inter_cluster.go:108-119 | A cluster that has had its five turns has ended as its undisturbed call would, epoch included. |
| `Interleaving.EveryTransitionAgrees` | protocol/inter_cluster.go:108-152 | Under every interleaving that finishes and every arrival order, nodes, kind of verdict and multiset of replies are those of the clusters run one after another. |
| `GlobalTransition.GlobalCoordinator.RunGlobalTransition` | protocol/inter_cluster.go:89-153 | All clusters finish their calls, and the verdict is that of their outcomes in arrival order, alike for every order. |
| `GlobalOutcomes.ArrivalOrderIrrelevant` | protocol/inter_cluster.go:121-131 | Every arrival order collects the same multiset of replies. |
| `GlobalOutcomes.VerdictIgnoresArrival` | protocol/inter_cluster.go:121-152 | Every arrival order leads to the same kind of verdict with the same multiset of replies. |
| `GlobalOutcomes.VerdictSays` | protocol/inter_cluster.go:113-152 | A transition commits exactly with f_global+1 replies and returns all of them; without any reply it names the failure that arrived first. |
| `GlobalOutcomes.RepliersAreDistinct` | protocol/inter_cluster.go:121-131 | In every arrival order, replies collected from disjoint clusters with any past come from pairwise distinct nodes. |
| `GlobalOutcomes.SomeReplierIsCorrect` | protocol/inter_cluster.go:144-150 | On success, in every arrival order, some returned reply is from outside any f_global nodes. |
| `GlobalOutcomes.CommitsIffThirdCompletes` | protocol/inter_cluster.go:133-152 | With m equal, fully linked clusters it succeeds, in every arrival order, exactly when at least a third of them complete. |
| `Dimensions.IntegerRoot` | cluster/kmeans.go:90-90 | The integer square root. |
| `Dimensions.ComputeDimensions` | cluster/kmeans.go:89-96 | n is the root of p clamped to 4, and m*n <= p < (m+1)*n. |
| `Dimensions.DimensionsUnique` | cluster/kmeans.go:89-96 | These conditions determine n and m. |
| `Dimensions.NearlySquare` | cluster/kmeans.go:89-96 | For p >= 16, n <= m <= n+2. |
| `Dimensions.DimensionsOfProduct` | cluster/kmeans.go:89-96 | m*n nodes have the same dimensions as p. |
| `Dimensions.DimensionsMonotone` | cluster/kmeans.go:89-96 | A larger network never has smaller clusters. |
| `Dimensions.ClusteredCostBound` | cluster/kmeans.go:89-96 | m clusters of n cost D = m*n*(2n-1) deliveries with D^2 <= 4p^3 for p >= 16, against p(2p-1) for one flat round. |
| `Dimensions.BoundFailsForEight` | cluster/kmeans.go:89-96 | Below 16 nodes the bound can fail. |
| `Deliveries.LinkedRoundDeliveries` | protocol/pbft.go:192-366 | The number RunPBFT counts in a completed round of n linked nodes is exactly n + 2n(n-1). |
| `Seeding.KMeansPlusPlus` | cluster/kmeans.go:117-175 | min(m, number of nodes) seeds, each chosen by first cumulative weight reaching the draw, or first unused ID when all distances are 0. |
| `Seeding.GapIsNearest` | cluster/kmeans.go:129-142 | The weight of a node is its squared distance to the nearest seed so far. |
| `Seeding.PickedIffInInterval` | cluster/kmeans.go:144-154 | The draws that choose a node form an interval as long as its weight. |
| `Seeding.SeedsDistinctIff` | cluster/kmeans.go:144-168 | Seeds are pairwise distinct exactly when no draw of 0 meets an already seeded first node. |
| `Seeding.PositiveDrawsGiveDistinctSeeds` | cluster/kmeans.go:144-168 | Strictly positive draws give min(m, number of nodes) distinct input nodes. |
| `Seeding.ZeroDrawRepeatsASeed` | cluster/kmeans.go:144-154 | Two nodes and a draw of 0 seed the same node twice. |
| `Assignment.AssignNodes` | cluster/kmeans.go:245-292 | Every node, in input order, goes to the nearest cluster with room, or else to the least loaded one; clusters list their nodes in input order. |
| `Assignment.AssignmentUnique` | cluster/kmeans.go:245-292 | Nodes, centroids and capacity determine the assignment. |
| `Assignment.PassedOverMeansFull` | cluster/kmeans.go:265-275 | If another cluster is preferred to a node's own, it already held n nodes, all earlier in the input. |
| `Assignment.AssignmentPartitions` | cluster/kmeans.go:261-291 | The clusters together hold exactly the input nodes, with multiplicity. |
| `Balance.ClusterSizes` | cluster/kmeans.go:235-292 | Up to m*n nodes no cluster exceeds n; beyond, sizes are those of dealing out in turn. |
| `Balance.BalancedByDimensions` | cluster/kmeans.go:235-292 | With the dimensions of p, sizes are at least n, differ by at most one, and are n or n+1 for p >= 16. |
| `Centroids.RecomputeCentroids` | cluster/kmeans.go:300-316 | Each centroid becomes its cluster's mean, or stays if the cluster is empty. |
| `Centroids.RecomputedIsMean` | cluster/kmeans.go:300-316 | The differences from the recomputed centroid of a non-empty cluster cancel out in both coordinates. |
| `Centroids.MeanMinimises` | cluster/kmeans.go:305-314 | The mean minimises the total squared distance over all points of the plane. |
| `Centroids.RecomputingNeverCostsMore` | cluster/kmeans.go:300-316 | Recomputation never increases the total over all clusters. |
| `KMeans.SameSizeKMeans` | cluster/kmeans.go:202-232 | The centroids are the K-Means++ seeds of these draws, moved to the means of nearest-available assignments step by step up to the first step in which every centroid moves by less than 0.001, or the 100th; the result is the nearest-available assignment to them, and nothing for empty input. |
| `KMeans.Refine` | cluster/kmeans.go:213-226 | The steps themselves: each follows from the one before, all but the last move, and the last is at rest or the 100th. |
| `KMeans.CentroidsAreMeans` | cluster/kmeans.go:202-232 | With the dimensions of its input every returned centroid is the mean of at least n input nodes. |
| `KMeans.AssignmentIsPartition` | cluster/kmeans.go:202-232 | The result is a multiset partition of the input. |
| `KMeans.AssignmentIsBalanced` | cluster/kmeans.go:202-232 | With the dimensions of its input the result is balanced. |
| `Election.ElectLeader` | cluster/leader.go:28-46 | The node nearest to the centroid, lowest index on ties; -1 exactly for an empty cluster. |
| `Election.LeaderIsNearest` | cluster/leader.go:28-46 | The leader is as near to the centroid as any node and nearer than every earlier one. |
| `Election.ElectAllLeaders` | cluster/leader.go:57-67 | Exactly the IDs of non-empty clusters get a leader: that of the last such cluster with the ID. |
| `Election.NumberedElection` | cluster/leader.go:57-67 | For clusters numbered as K-Means numbers them: exactly the non-empty clusters, each its own leader. |
| `Election.ElectionUnique` | cluster/leader.go:57-67 | There is only one such outcome. |
| `Membership.ClusteredNetwork` | dynamic/clustering.go:219-223 | Re-clustering at least 4 nodes with distinct IDs gives non-empty clusters that partition them. |
| `Membership.LeadersOfNetwork` | cluster/leader.go:57-67 | Then the leaders have exactly the keys 0..m-1 and are distinct nodes. |
| `ServiceQueue.FindClosestCluster` | dynamic/clustering.go:337-349 | The nearest centroid's cluster, first on ties; -1 exactly without clusters. |
| `ServiceQueue.PendingCount` | dynamic/clustering.go:147-156 | The number of queued operations, with multiplicity. |
| `ServiceQueue.HeirIff` | dynamic/clustering.go:245-255 | The operations of an old cluster go to cluster j exactly when the old cluster had a leader and j has the first of the centroids nearest to it; they go somewhere exactly when there was a leader and there are clusters. |
| `ServiceQueue.ConservedIffAllInherited` | dynamic/clustering.go:231-260 | From the snapshot on, under every interleaving with enqueues, operations are conserved exactly when every snapshotted cluster with operations has an heir. |
| `ServiceQueue.TickConservesIff` | dynamic/clustering.go:133-260 | Over a whole tick, with enqueues before, between and after its critical sections, all operations are kept exactly when every cluster with operations at the snapshot has an heir. |
| `ServiceQueue.OnlyOrphansAreLost` | dynamic/clustering.go:231-260 | Otherwise precisely the operations of clusters without an heir are missing. |
| `ServiceQueue.OrphanIsLost` | dynamic/clustering.go:245-255 | An operation enqueued before the snapshot for a cluster without an heir is in no queue after the tick. |
| `ServiceQueue.LeaderlessClusterLosesOperation` | dynamic/clustering.go:245-249 | A concrete case: cluster 0 had no leader. |
| `ServiceQueue.QueueIsArrivals` | dynamic/clustering.go:231-260 | At every moment after the snapshot the queue of a cluster is the concatenation of the whole old queues whose leader is nearest to its centroid, each in its old order, and of the operations enqueued meanwhile under its key. |
| `ServiceQueue.EnqueuesConserve` | dynamic/clustering.go:133-137 | Before the snapshot every enqueued operation is kept. |
| `TickStates.AdmissionAddsNewIds` | dynamic/clustering.go:199-217 | Exactly the new distinct IDs are appended. |
| `TickStates.TickMoves` | dynamic/clustering.go:183-197 | After a tick every old node is at its old index and stands where its move put it, or where it stood. |
| `TickStates.TickAdmits` | dynamic/clustering.go:199-217 | Behind them, as announced and in that order, are exactly the candidates among the first MaxPerTick whose ID nobody before them has. |
| `TickStates.NodesStandWhereLastMoved` | dynamic/clustering.go:183-217 | Over any run of ticks a node stands where the last tick that moved it put it, or where it started or was admitted. |
| `TickStates.FoundingIsCoherent` | dynamic/clustering.go:103-125 | Numbered, non-empty clusters without a repeated ID, with their elected leaders, satisfy the invariant of ticks. |
| `TickStates.TickKeepsCoherent` | dynamic/clustering.go:171-268 | A tick keeps: unique IDs, clusters that partition the nodes, a leader for each. |
| `TickStates.RunsStayCoherent` | dynamic/clustering.go:171-268 | Every run of ticks keeps it. |
| `TickStates.RunsAdmitExactly` | dynamic/clustering.go:199-217 | After any run the network is the initial nodes and the distinct IDs among the first MaxPerTick of each tick, once each. |
| `TickStates.CoherentNetworksInherit` | dynamic/clustering.go:245-255 | From a network of at least 4 nodes, every queue filed under one of its clusters has an heir. |
| `TickManager.TickMode.constructor` | dynamic/clustering.go:103-125 | Points are those of the clusters in order; the leaders are elected; the queue is empty; from such clusters and node objects in the same order the invariant holds. |
| `TickManager.TickMode.EnqueueOperation` | dynamic/clustering.go:133-137 | The operation is appended under its cluster. |
| `TickManager.TickMode.ApplyMoves` | dynamic/clustering.go:183-197 | Every node's point and node object is at the position announced for its ID, or where it was if none was. |
| `TickManager.TickMode.AdmitNodes` | dynamic/clustering.go:199-217 | The new points are admitted, each with a fresh node object aligned with it, in view 0 and holding its own key. |
| `TickManager.TickMode.ProcessTick` | dynamic/clustering.go:171-268 | Moved nodes stand at their new position and all others where they stood, in points and node objects; the new clusters are those of K-Means on these points; every old queue is found whole under the cluster nearest to its old leader; the invariant is kept and the new state is that of a tick. |
| `TickManager.ForwardingConservesIff` | dynamic/clustering.go:231-260 | A tick on its own keeps all queued operations exactly when every cluster that has some has an heir. |
| `TickManager.ForwardingRehomes` | dynamic/clustering.go:231-260 | A tick on its own takes up every old queue once, and each queue then is the concatenation of the old queues whose leader is nearest to that cluster. |
| `Rebuild.WireKeys` | tick_rate/simulation.go:307-315 | Everyone in the cluster learns exactly everyone else's key. |
| `Rebuild.PlaceMembers` | tick_rate/simulation.go:288-305 | Every member gets its cluster, position and role; replicas are the others in order. |
| `Rebuild.RebuildInstances` | tick_rate/simulation.go:277-323 | One instance per cluster, of exactly its node objects, leader first, all settled, nobody losing its own key. |
| `RebuiltNetwork.InstancesPartition` | tick_rate/simulation.go:287-320 | Every node serves in exactly one rebuilt instance. |
| `RebuiltNetwork.OneLeader` | tick_rate/simulation.go:297-304 | In each instance exactly its leader holds the leader role. |
| `RebuiltNetwork.RebuiltIsLinked` | tick_rate/simulation.go:307-315 | Its members hold each other's keys and form a fully linked cluster. |
| `RebuiltNetwork.SizeSuffices` | tick_rate/simulation.go:100-103 | f_local of the initial dimensions never asks for more than a cluster of a network of at least m*n nodes has. |
| `RebuiltNetwork.RebuiltRoundSucceeds` | tick_rate/simulation.go:277-323 | A round on any rebuilt instance, whatever its nodes executed before, is answered by every member exactly when it is not cancelled; a member logs the operation exactly if it has not executed the new leader's next number. |
| `Simulation.ExtractDynamicState` | tick_rate/simulation.go:252-275 | One numbered, non-empty cluster per instance, and all node objects in the order of the flattened points. |
| `Simulation.StartTicking` | tick_rate/simulation.go:137-140 | From running instances with distinct IDs the tick manager starts in its invariant. |
| `Simulation.CoherentIsRebuildable` | tick_rate/simulation.go:149-159 | The invariant gives the rewiring its distinct members and a leader for each cluster. |
| `Simulation.ServingNetworkCommits` | tick_rate/simulation.go:67-72 | A network of linked, led and large enough clusters with more nodes than f_global commits every uncancelled transition with exactly one reply from each node. |
| `Simulation.TickAndRewire` | tick_rate/simulation.go:149-162 | After a tick and its rewiring the new coordinator's instances are separate and valid and every vehicle serves; the network can tick again. |
| `Simulation.TickThenCommit` | tick_rate/simulation.go:149-206 | The operation that follows a tick commits with exactly one reply from each vehicle of the network, whatever happened before. |

## Left out

- Key generation, RSA, SHA-256, JSON and PEM: abstracted to perfect signatures, injective digests and typed bodies. Decoding a body as another type, and signing or key-generation failures, are not modelled.
- Sockets, goroutines, timeouts, `PhaseDelayMs` and wall-clock time: the step system's network and the interleavings take their place.
- Floating-point rounding, NaN and infinities, including the float square root in `ComputeDimensions` and the search that falls through the cumulative weights.
- View changes, promotion and demotion, and equivocating leaders: the code has no protocol for them.
- Concurrent `RunPBFT` calls on one instance, and updates of reputation from outside during a round.
- `LocalState` of a node (two derived entries per execution), `NodeIdx`, the Vote request and the client-facing request handlers.
- `ForwardPendingRequests`, the thin wrappers in `protocol/intra_cluster.go`, `protocol/pbft_classic.go`, `state/state.go`, metrics and benchmarking: they would only add easy members.
- StepSafety.ReachableInv: assumes one leader whose own StartPBFT makes all PrePrepares, since HandlePrePrepare does not reject a second digest.
- StepLiveness.QuiescenceImpliesExecution: speaks of nodes in the leader's view that hold each other's keys and have addresses, since others reject or never get the messages.
- GlobalTransition.GlobalCoordinator.RunGlobalTransition: runs the clusters' rounds one after another in arrival order; that every interleaving of their phases and epochs agrees with this is the subject of Interleaving.dfy, on values.
- TickManager.TickMode.ProcessTick: is stated without concurrent enqueues, which ServiceQueue.dfy covers, requires moved positions to carry their own ID, takes cluster IDs to be natural numbers, and does not model the error path of node creation.
- Rebuild.RebuildInstances: requires every clustered point to have a node object and every cluster a leader, as the source does, which would fail on a nil node otherwise; and distinct point IDs.
- PbftInstance.PBFTInstance.RunPBFT: requires distinct node IDs and, on the reputation path, beta > 0, which the source calls the guard against division by zero.
- NodeObject.Node.UpdateReputation: requires beta > 0 for the same reason.
- NodeObject.Node.constructor: leaves out `NodeIdx` and `LocalState`, and starts the reputation map empty, where the source leaves it nil until `InitReputation`.
- NodeObject.Node.SyncReputations: does not model the panic of a write to that nil map on a node whose reputation was never initialised.
- NodeObject.Node.ApplyOperation: leaves out the two `LocalState` entries written with each execution.
- Engine.WeighPrepares: counts a message as handed out when it enters the tally, since the weighted loops call the handler only once a quorum is near.
- RebuiltNetwork.RebuiltRoundSucceeds: requires the members to share a view and to hold their own keys, as every node that NewNode makes does; the code never changes a view.
- Simulation.TickThenCommit: covers one tick and one transition without concurrency between them; the replaced coordinator's requests in flight are not modelled.
