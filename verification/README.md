# Verified models of uBFT

This project models the layered protocol stack of uBFT, a Byzantine fault-tolerant replication
library over RDMA, together with the self-contained pieces it is built from, and proves what
each layer promises to the one above it. Parts that are objects with handlers in the source are
classes here, proved to refine functions on values; protocols are state machines over those
functions, with every interleaving of correct and Byzantine steps.

- **Consensus** (`Consensus*.dfy`, `Quorums.dfy`, `Bitset.dfy`). `ConsensusLog` and
  `ConsensusProtocol` give the state machine: prepare, certify, fast commit, commit, checkpoint,
  seal-view and new-view over streams of consistent broadcast, with the certificate checks the
  code makes. Handlers and broadcasts that wait are split in frames, so that other messages are
  handled and other calls nest meanwhile, and a replica may throw on a message of its own that
  is in its stream already. Proved of every run of the code: streams are followed, fast commits
  precede the seal (`ConsensusStreams`), decisions are in order (`ConsensusDecisions`), instances
  are forgotten below checkpoints only (`ConsensusWindow`), the counter of verifications drifts by
  exactly the replayed commits (`ConsensusCounter`). Agreement (`ConsensusSafety`,
  `ConsensusAgreement` and the modules they import), unique certificates
  (`ConsensusCertificates`), the sealing of views (`ConsensusSealing`) and that only decided
  instances are forgotten need checks that the code omits; `ConsensusExactness` shows which,
  exactly, from one run per check (`ConsensusHiding`, `ConsensusCrossView`, `ConsensusStaleView`,
  `ConsensusForgedCommit`, `ConsensusLateFast`, `ConsensusEviction`, `ConsensusSetback`,
  `ConsensusForgetting`, on top of `ConsensusScript` and `ConsensusTrio`); `ConsensusNested` is a
  run with a call inside a call. Class `Replica` (`ConsensusReplica`) refines the handlers, and what
  it does in one call is a run of the protocol (`ConsensusCalls`). `ConsensusReplay` says exactly which
  buffered commits a prepare replays, `ConsensusTails` that slots and valid values are tail maps.
  `ConsensusSlack` and `ConsensusNesting` say how long broadcasts wait, what becomes of the
  message after the wait, and in which order messages take effect.
- **Tail consistent broadcast** (`TailCb*.dfy`): echoes on the fast path; signature, own register
  and everyone else's registers on the slow path. Consistency holds for any broadcaster and any
  number of Byzantine receivers; class `Receiver` refines the handlers. The order in which a message
  and its echoes come does not matter (`TailCbArrival`), and the slow path is never stuck
  (`TailCbProgress`).
- **Certifier** (`Certifier*.dfy`, `CertificateLayout.dfy`): unanimous promises, least quorums of
  signature shares that meet, remembered shares, and the bytes of a certificate.
- **Registers** (`Swmr*.dfy`, `Replicated*.dfy`): two checksummed subslots and a write cooldown
  against torn reads; quorums over several hosts.
- **Tail point-to-point and flow control** (`TailP2p*.dfy`, `FlowControl.dfy`): a ring that may be
  overwritten while it is scanned, when a poll delivers, and the acknowledgements that make it
  lossless and never block.
- **BLAKE3** (`Blake3*.dfy`): the incremental hasher with its lazy stack and SIMD-wide recursion
  against the recursive tree of sections 2.1, 2.4 and 2.5 of the BLAKE3 specification, and digests
  written out in terms of the compression function (`Blake3Digest`).
- **Tail map, tail queue, handshake, pool** (`TailMap.dfy`, `TailQueue.dfy`, `Handshake.dfy`,
  `Pool.dfy`), and what several modules share (`Options.dfy`, `ByteOrder.dfy`, `Buffers.dfy`).

## What is taken for granted

- Hashes do not collide, except where a result names a collision as its exception. Signatures
  cannot be forged and bind one message: a valid certificate means that its correct signers did
  sign. Checksums match only the message they were computed for.
- RDMA writes on one connection become visible in order; copies of a register torn by a
  concurrent write fail their checksum.
- Consistent broadcast gives every correct replica the same stream per broadcaster. This is what
  `TailCbConsistency.RunsAreConsistent` proves, with the exceptions it names. Registers of correct
  receivers are regular there, which is what `ReplicatedRegister.RunsAreRegular` proves for an odd
  number of hosts, each of which is regular.
- A host is regular for the reads that last at most the cooldown, and exactly for those that no
  two writes overlap (`ReplicatedHosts.RegularExactly`). `ReplicatedTimed.TimedRunsAreRegular`
  puts the two together, from the times at which registers are read and written; that reads
  last no longer, or meet one write at most, is taken for granted there.
- `SealingKeepsFastCommits` counts fewer than 2^64 own commits under verification at a time.

## Where the code is weaker than it should be

Paths below are relative to `ubft/src/`.

Agreement does not hold of the code alone. `Check` in `ConsensusProtocol` names twelve checks that
are missing; `AgreementExactly` proves that a set of checks makes all runs agree if and only if it
has the ten checks of items 1 to 8 below, and at least one of those of items 9 and 10. So each of
the ten is a defect of its own, with a run of disagreement in which everything else is as it should
be:

1. `CommitView`: a verified commit is counted only if its view is that of the slot
   (consensus/consensus.hpp:949-958);
2. `FastView`: so is a fast commit (consensus/consensus.hpp:970-983);
3. `CommitCertificate`, `StateCertificates`: the certificate of a commit, and those of a NewView,
   are valid for what they say (remembered shares are not compared with the message,
   certifier/certifier.hpp:281-283; see `MemoErrsExactly`);
4. `DistinctStates`, `StatesView`: a NewView carries states of distinct replicas, all for the view
   before it (consensus/consensus.hpp:1221-1249);
5. `ValuesView`: valid values are those of the view of the prepare
   (consensus/consensus.hpp:650-660); certificates are unique exactly with this check
   (`UniquenessExactly`);
6. `AboveCheckpoint`: prepares of later views are above every checkpoint that the states of the
   NewView had reached, which the serialized state omits
   (consensus/internal/serialized-state.hpp:34-44);
7. `NoEviction`: inserting an instance pushes none out of the window that the replica
   fast-committed and has not yet slow-committed (consensus/consensus.hpp:690-692); sealing keeps
   fast commits exactly with this check (`SealingExactly`);
8. `NothingPending`: nothing of a replica is under verification when its SealView is handled: the
   counter waited for is decremented a second time for every replayed commit (`CounterDrift`,
   `WaitEnds`);
9. `CheckpointsForward`: a checkpoint does not take its sender back in what it says; only the index
   of its certificate is tested (consensus/consensus.hpp:988-998);
10. `CheckpointCertificate`: the certificate of a checkpoint is valid for what it says, from which
    the former follows (`CertifiedForward`). What is forgotten was decided exactly with this check
    (`ForgettingExactly`): shares remembered for an earlier checkpoint vouch for one that is ahead
    of every decision, and the replica that adopts it drops instances no one has decided
    (consensus/consensus.hpp:1027-1037, 1132-1139).

Others are stated as exact conditions:

- A raw echo is compared up to the length of the message only (buffer.hpp:107-109), so a fast-path
  message may match the echo of one it is a prefix of, or that is a prefix of it up to leftover
  bytes; and a raw message of 32 bytes is confused with a hash (`MayMatchExactly`,
  `ConfusionHappens`).
- Inserting the key that is already last links a tail-map entry to itself
  (`TailMap.VectorTailMap.TryEmplace`); the tree form reads past the end of an empty map.
- A register read is judged by its duration only when both subslots are bad
  (`ReadsAreFreshExactly`, `LongReadsMayBeStale`).
- Quorums of (n+1)/2 hosts do not intersect for even n (`EvenRunsMiss`).
- While a replica waits for slack it handles other messages, which may change the view, overtake
  a checkpoint, or commit an instance whose checkpoint waits; it then throws on its own message
  (`AcceptedExactly`, `OwnPrepareRefused`, `LateCommitRun`), and messages of one stream may take
  effect out of order (`InOrderExactly`).
- A verified commit that waits for its prepare is missed if one for a later instance of the same
  replica was verified before it (`MissedExactly`).
- A receiver of a point-to-point ring with one slot never delivers again once it was overtaken
  (`OneSlotIsStuck`); with more slots a poll may pass all of them and leave the delivery to the next
  one (`PollDelivers`).
- The newest entry of a tail queue is looked up beyond its slots once more entries were added than
  there are slots (`TailQueue.VectorTailQueue.Back`).
- A handshake with 2^32 or more bytes of information announces a truncated length
  (`RoundTripExactly`); the size computed for a certificate's shares may wrap around
  (`TryFromExactly`).

## Model

| member | source | states |
|---|---|---|
| `ConsensusExactness.AgreementExactly` | ubft/src/consensus/consensus.hpp:449-468 | a set of checks ensures that all runs of all groups with a minority of Byzantine replicas agree, across views and across the fast and the slow path, with calls nested in others that wait, if and only if it contains ten checks that the code omits, and one of two against checkpoints that go back |
| `ConsensusExactness.OneCheckFails` | ubft/src/consensus/consensus.hpp:569-607 | for each of the ten, and for CheckpointsForward, there is a run of the code in which two correct replicas disagree and some step passes all checks but this one (and, in the last case, the one that implies it) |
| `ConsensusExactness.UniquenessExactly` | ubft/src/consensus/consensus.hpp:644-661 | a set of checks ensures that valid prepare certificates are unique if and only if it demands that valid values are those of the view of the prepare |
| `ConsensusExactness.SealingExactly` | ubft/src/consensus/consensus.hpp:507-546 | a set of checks ensures that sealing preserves fast commits, whatever the others do, if and only if it forbids to push a fast-committed instance out of the window |
| `ConsensusExactness.ForgettingExactly` | ubft/src/consensus/consensus.hpp:1000-1050 | a set of checks ensures that a replica forgets instances only with its view, or once a correct replica decided them, if and only if it demands that certificates of checkpoints are valid for what they say |
| `ConsensusExactness.CertifiedForward` | ubft/src/consensus/consensus.hpp:988-998 | a checkpoint whose certificate is valid for what it says does not take its sender back |
| `ConsensusSafety.RunsAgree` | ubft/src/consensus/consensus.hpp:449-468 | in every run that passes these checks, with a minority of Byzantine replicas, any two decisions of correct replicas for one instance carry the same batch; calls may nest in others that wait, and replicas may throw on messages of their own |
| `ConsensusSafety.RunKeeps` | ubft/src/consensus/consensus.hpp:569-607 | every reachable state of such a run satisfies the invariant that ties local states, streams, signatures, seals and decisions together |
| `ConsensusSafety.StepKeeps` | ubft/src/consensus/consensus.hpp:405-439 | each single step, of a correct or a Byzantine replica, keeps that invariant |
| `ConsensusCertificates.RunsCertifyOnce` | ubft/src/consensus/consensus.hpp:733-755 | in every run that passes that one check, two valid prepare certificates for one view and instance carry the same batch |
| `ConsensusCertificates.CertifiedFirstPrepared` | ubft/src/consensus/consensus.hpp:733-755 | it is the one the leader of the view prepared first |
| `ConsensusSealing.SealingKeepsFastCommits` | ubft/src/consensus/consensus.hpp:507-546 | in every run that evicts nothing fast-committed, with any number of Byzantine replicas: what a correct replica fast-committed in a view, its stream slow-commits (or checkpoints) before the SealView of that view, and commits nothing in it after, but for a message it throws on |
| `ConsensusSealing.CommitsFollowViews` | ubft/src/consensus/consensus.hpp:831-850 | in the own stream, up to a message the replica throws on, commits after a SealView are for later views |
| `ConsensusStreams.FastCommitsPrecedeSeal` | ubft/src/consensus/consensus.hpp:757-779 | in every run of the code, no fast commit is sent for a view the sender has sealed |
| `ConsensusStreams.RunsFollow` | ubft/src/consensus/consensus.hpp:569-607 | in every run of the code, what a correct replica keeps of a stream is what the messages handled so far determine (of its own, all but one it threw on), and its slots are of its view |
| `ConsensusAgreement.DecisionPersists` | ubft/src/consensus/consensus.hpp:644-661 | whatever any correct replica signs for a decided instance in a later view is the decided batch (induction over views) |
| `ConsensusAgreement.BestShows` | ubft/src/consensus/internal/messages.hpp:330-367 | the best commit of any valid NewView above the checkpoints covers every decided instance, at a view no lower than the decision |
| `ConsensusAgreement.CarriersOutnumber` | ubft/src/consensus/internal/instance-state.hpp:33-35 | the replicas that stand behind a decision, on either path, meet every view-change quorum |
| `ConsensusHandlers.CertifiedIsPrepared` | ubft/src/consensus/consensus.hpp:733-755 | a valid certificate carries what the leader first prepared, and was acknowledged by correct replicas |
| `ConsensusHandlers.CertifiedStateIsGood` | ubft/src/consensus/consensus.hpp:1221-1249 | a valid view-change certificate tells the truth about the stream of its replica |
| `ConsensusHandlers.NotLeftBehind` | ubft/src/consensus/internal/messages.hpp:358-366 | the tail map that holds the valid values drops none that a prepare above the checkpoints has to obey |
| `ConsensusHandlers.CommitsInWindow` | ubft/src/consensus/consensus.hpp:835-842 | the commits of an accepted stream lie within one window of its checkpoint |
| `ConsensusHandlers.InsertingJustified` | ubft/src/consensus/consensus.hpp:644-661 | a prepare that passes the checks of a later view obeys some valid NewView of that view |
| `ConsensusLog.PinnedAtSeal` | ubft/src/consensus/internal/replica-state.hpp:58-85 | a commit once accepted is in the state serialized at every later seal, unless replaced by a later view or checkpointed |
| `ConsensusLog.EntryFromCommit` | ubft/src/consensus/internal/replica-state.hpp:58-77 | every entry of the commits kept for a replica comes from a commit in its stream |
| `ConsensusSteps.SealedStateGood` | ubft/src/consensus/consensus.hpp:1147-1159 | the state signed at a SealView is the one the stream determines, with every commit certified |
| `ConsensusSteps.HandledKeeps` | ubft/src/consensus/consensus.hpp:569-607 | handling one message of a stream keeps what a replica knows about all streams |
| `ConsensusSteps.BroadcastKeeps` | ubft/src/consensus/consensus.hpp:1331-1346 | handling one's own message after the wait for slack, whatever was handled meanwhile, keeps the invariant, given the checks |
| `ConsensusSteps.OpenKeeps` | ubft/src/consensus/consensus.hpp:1251-1275 | leaving the handler of a NewView, whatever was handled while it changed the view, keeps the invariant |
| `ConsensusSteps.HaltKeeps` | ubft/src/consensus/consensus.hpp:1085-1123 | so does throwing on a message of one's own, which is in the stream by then |
| `ConsensusVotes.DecisionBacked` | ubft/src/consensus/consensus.hpp:449-461 | behind a decision stand fast commits of all replicas, or commits of a quorum that stay in their streams |
| `ConsensusVotes.CertifyKeeps` | ubft/src/consensus/consensus.hpp:733-755 | signing a prepare keeps the invariant: nothing signed contradicts a decision |
| `ConsensusVotes.SendFastKeeps` | ubft/src/consensus/consensus.hpp:757-779 | sending a fast commit keeps the invariant; the promise of the leader goes without saying |
| `ConsensusVotes.RecvFastKeeps` | ubft/src/consensus/consensus.hpp:961-986 | counting a fast commit of the view of its slot keeps the invariant |
| `ConsensusVotes.DecideKeeps` | ubft/src/consensus/consensus.hpp:449-468 | deciding keeps the invariant: the votes counted stand behind the decision |
| `ConsensusVotes.VerifiedKeeps` | ubft/src/consensus/consensus.hpp:927-959 | counting a verified commit of the view of its slot keeps the invariant |
| `ConsensusHiding.HidingRun` | ubft/src/consensus/consensus.hpp:1221-1249 | a run of disagreement that passes all checks but one: a NewView repeats the state of one replica, or carries a forged state that remembered shares vouch for, or opens an instance below a checkpoint, and hides a decision |
| `ConsensusStaleView.StaleRun` | ubft/src/consensus/consensus.hpp:644-661 | a run that passes all checks but one: a later view is led with the states, or the valid values, of an earlier one |
| `ConsensusStaleView.TwoCertificatesRun` | ubft/src/consensus/consensus.hpp:644-661 | a run in which two valid certificates of one view and instance carry different batches, for want of the view of the valid values |
| `ConsensusForgedCommit.ForgedRun` | ubft/src/certifier/certifier.hpp:281-283 | a run in which only the commit of another batch, vouched for by remembered shares, is not as it should be |
| `ConsensusForgedCommit.HastyRun` | ubft/src/consensus/consensus.hpp:927-929 | a run in which only a seal is handled too early: a replayed commit was subtracted twice, and a forged one is still under verification |
| `ConsensusLateFast.FastViewRun` | ubft/src/consensus/consensus.hpp:970-983 | a run in which only a fast commit of an earlier view is counted |
| `ConsensusEviction.EvictionRun` | ubft/src/consensus/consensus.hpp:690-692 | a run of five replicas in which only a fast-committed instance is pushed out of the window before it is committed |
| `ConsensusSetback.SetbackRun` | ubft/src/consensus/consensus.hpp:988-998 | a run of five replicas in which only a checkpoint of a later index, whose certificate is not valid for what it says, takes its sender back, with shares that are remembered for another checkpoint |
| `ConsensusEviction.SealsWithout` | ubft/src/consensus/consensus.hpp:519-529 | on the way, a correct replica seals a view without the commit that its fast commit owes |
| `ConsensusCrossView.CommitViewRun` | ubft/src/consensus/consensus.hpp:949-958 | a run in which only a valid commit of another view is counted |
| `ConsensusCounter.CounterDrift` | ubft/src/consensus/consensus.hpp:927-929 | in every run, outstanding_commit_verifications plus the number of replayed commits equals the commits under verification, modulo the width of size_t |
| `ConsensusCounter.WaitEnds` | ubft/src/consensus/consensus.hpp:1147-1149 | the wait for a zero counter ends exactly when as many commits are under verification as were replayed |
| `ConsensusDecisions.RunsDecideInOrder` | ubft/src/consensus/consensus.hpp:449-468 | in every run of the code, a correct replica decides instances 0, 1, 2, ... one after the other, each exactly once |
| `ConsensusWindow.RunsForgetBelowCheckpoints` | ubft/src/consensus/consensus.hpp:690-692 | in every run of the code, a replica forgets an instance only when it seals its view or below the best checkpoint it knows |
| `ConsensusWindow.RunsForgetDecided` | ubft/src/consensus/consensus.hpp:1132-1139 | in every run in which the certificates of checkpoints are valid for what they say, some correct replica has decided what is forgotten other than with the view |
| `ConsensusForgetting.ForgettingRun` | ubft/src/consensus/consensus.hpp:1027-1037 | a run in which only the certificate of a checkpoint is not valid for what it says, and a replica forgets an instance that no correct replica has decided |
| `ConsensusNested.LateCommitRun` | ubft/src/consensus/consensus.hpp:1331-1346 | whichever checks are made, there is a run with a seal inside a commit that waits for slack: a correct replica leaves a commit of a view behind the SealView of that view, and throws |
| `ConsensusReplica.ValidValues` | ubft/src/consensus/internal/messages.hpp:330-367 | the loops compute, per instance, the commit of the highest view among the states, cut to one window |
| `ConsensusReplica.MergeInto` | ubft/src/consensus/internal/messages.hpp:338-355 | one state is merged into the best commits so far |
| `ConsensusReplica.Replica.constructor` | ubft/src/consensus/consensus.hpp:109-183 | a new replica is in the initial state of the protocol |
| `ConsensusReplica.Replica.CountCommit` | ubft/src/consensus/consensus.hpp:927-959 | a verified commit is counted for its slot, or buffered up to the window; the counter wraps |
| `ConsensusReplica.Replica.VerifiedCommit` | ubft/src/consensus/consensus.hpp:905-918 | updates the fields as the protocol step that the safety results are about |
| `ConsensusReplica.Replica.Checkpoint` | ubft/src/consensus/consensus.hpp:1000-1050 | refines the protocol handler, including the cases in which it throws; the certificate is checked unless it is one's own or the one known |
| `ConsensusReplica.Replica.ChangeView` | ubft/src/consensus/consensus.hpp:507-546 | is the SealView step of the protocol, and only once everything fast-committed is committed |
| `ConsensusReplica.CallsCommute` | ubft/src/consensus/consensus.hpp:1251-1275 | the loop that changes the view seals the same views to the same state whatever calls are under way, and leaves those calls alone |
| `ConsensusCalls.ReceiveIsPath` | ubft/src/consensus/consensus.hpp:569-607 | what a replica does in one call, with nothing handled meanwhile, is a run of the protocol: the delivery, a SealView for each view below that of a NewView, and the end of its handler |
| `ConsensusReplica.Replica.CertificatesPass` | ubft/src/consensus/consensus.hpp:1221-1249 | the loop decides whether all certificates of a NewView pass the check |
| `ConsensusReplica.Replica.NewViewFrom` | ubft/src/consensus/consensus.hpp:1251-1275 | checks the certificates, changes the view until that of the NewView is reached, and sets the valid values, as the steps of the protocol do when nothing is handled meanwhile; fails exactly if a check or a change of view does |
| `ConsensusReplica.Replica.ReplayOne` | ubft/src/consensus/consensus.hpp:696-703 | stale buffered commits of one replica are dropped, one for the inserted instance is counted, all other replicas are untouched |
| `ConsensusReplica.Replica.ReplayAll` | ubft/src/consensus/consensus.hpp:694-704 | after all buffers are replayed, exactly the replicas with a commit for the instance are counted |
| `ConsensusReplica.Replica.Refuses` | ubft/src/consensus/consensus.hpp:609-662 | the sequence of checks decides the predicate the proofs use |
| `ConsensusReplica.Replica.Prepare` | ubft/src/consensus/consensus.hpp:664-717 | refines the protocol handler: early returns, window eviction, replay and pruning of valid values |
| `ConsensusReplay.ReplaysExactly` | ubft/src/consensus/consensus.hpp:694-704 | for any buffered commits of a replica: exactly those that lead and are older are dropped, the next one is replayed if it is for the prepare, and everything behind it stays |
| `ConsensusReplay.InOrderReplays` | ubft/src/consensus/consensus.hpp:694-704 | of commits buffered in order of view and instance, one for the prepare is replayed wherever it is, and exactly the later ones stay |
| `ConsensusReplay.MissedExactly` | ubft/src/consensus/consensus.hpp:694-704 | a buffered commit for the prepare is missed if and only if a later one of that replica was verified before it |
| `ConsensusReplay.PrepareReplays` | ubft/src/consensus/consensus.hpp:664-704 | after a prepare a replica is counted in the slot if and only if a commit of it for the prepare was buffered, and exactly its later commits stay buffered |
| `ConsensusReplay.CommitAndPrepareCommute` | ubft/src/consensus/consensus.hpp:927-959 | a commit verified before its prepare is handled leads to the same state as one verified after it, but that the counter of commits under verification is decremented twice |
| `ConsensusTails.SlotsAreATailMap` | ubft/src/consensus/consensus.hpp:689-692 | the slots are those of a tail map in which the prepare is inserted, which throws if and only if the instance is below the last one inserted |
| `ConsensusTails.ValuesAreATailMap` | ubft/src/consensus/internal/messages.hpp:358-366 | the valid values are what a tail map of one window holds after the best commits are inserted in order |
| `ConsensusReplica.Replica.HandleCb` | ubft/src/consensus/consensus.hpp:569-607 | refines the steps of the protocol for every kind of message, and fails exactly if they do or a certificate does not pass |
| `ConsensusReplica.Replica.Broadcast` | ubft/src/consensus/consensus.hpp:1124-1140 | the own message is handled, then instances below a checkpoint, or all of them, are dropped |
| `ConsensusReplica.Replica.CommittedAll` | ubft/src/consensus/consensus.hpp:519-529 | the loop decides whether everything fast-committed is committed, the condition of the SealView step |
| `ConsensusSlack.RunsStayInSlack` | ubft/src/consensus/consensus.hpp:1331-1346 | in every run, with broadcasts nested in handlers to any depth, each index sent is within the tail of a certified CB checkpoint, and the own stream is handled without a gap |
| `ConsensusSlack.LeavesTailCertified` | ubft/src/consensus/consensus.hpp:1312-1329 | a message leaves the tail of the broadcaster only once a CB checkpoint above it is certified |
| `ConsensusSlack.UntilGrows` | ubft/src/consensus/consensus.hpp:1314-1316 | can_cb_until never decreases |
| `ConsensusSlack.ProposalsAreCounted` | ubft/src/consensus/consensus.hpp:353-403 | outside of calls next_proposal is proposed plus the queued slots, and the queue holds consecutive instances |
| `ConsensusSlack.AcceptedExactly` | ubft/src/consensus/consensus.hpp:387-400 | when a replica that waited for slack accepts its own message, in every view: a prepare if and only if the view is the same and no checkpoint overtook it, a commit if and only if the view is the same and the checkpoint that opens its instance does not wait below it, a checkpoint if and only if no later one overtook it |
| `ConsensusSlack.RunsObey` | ubft/src/consensus/consensus.hpp:1190-1214 | what a leader of a later view has queued for that view obeys the valid values of its own NewView, whatever arrived in between |
| `ConsensusSlack.ValuesAreProposed` | ubft/src/consensus/consensus.hpp:1190-1213 | every valid value is proposed once at its instance, from the certified checkpoint to the last of them, and the instances between are proposed empty |
| `ConsensusSlack.AcceptedAtOnce` | ubft/src/consensus/consensus.hpp:789-805 | when what passes the checks before the wait would be refused even at once: a prepare queued in an earlier view or overtaken by a checkpoint, a commit whose checkpoint is waiting already |
| `ConsensusNesting.InOrderExactly` | ubft/src/consensus/consensus.hpp:1340-1343 | the messages of a stream take effect in order if and only if none is taken while an earlier one of that stream is still being handled |
| `ConsensusNesting.OwnPrepareRefused` | ubft/src/consensus/consensus.hpp:393-399 | a run in which a correct leader of view 0 throws on its own prepare, which was in range, because the view changed while it waited; two messages of one stream take effect in reverse on the way |
| `Quorums.Intersect` | shared/src/dynamic-bitset.hpp:41 | two sets of replicas that together exceed the group share a member |
| `Bitset.DynamicBitset.Set` | shared/src/dynamic-bitset.hpp:25-33 | sets one flag, counts it once, and says whether it was new |
| `Bitset.FullIsEveryone` | shared/src/dynamic-bitset.hpp:39 | while only indices below the capacity are set, full means that all of them are |
| `Bitset.MajoritiesMeet` | shared/src/dynamic-bitset.hpp:41 | two majorities of one capacity share an index |
| `TailCbConsistency.RunsAreConsistent` | ubft/src/tail-cb/receiver.hpp:238-329 | for any broadcaster, any number of Byzantine receivers and every interleaving: if two correct receivers deliver different messages for one index, one of them was on the fast path and its message is confusable with the echo of the other, or the hashes collide |
| `TailCbConsistency.MayMatchExactly` | ubft/src/buffer.hpp:107-109 | the comparison of a message with an echo of another one may succeed exactly for equal, confusable and colliding messages |
| `TailCbConfusion.ConfusionHappens` | ubft/src/buffer.hpp:107-109 | every confusion happens: for any such pair of messages there is a run with no Byzantine receiver in which two receivers deliver the two |
| `TailCbConsistency.RunsDeliverInOrder` | ubft/src/tail-cb/receiver.hpp:149-159 | every receiver delivers in strictly increasing order of indices |
| `TailCbConsistency.RunKeeps` | ubft/src/tail-cb/receiver.hpp:118-141 | the invariant over echoes, registers, checks and clearances holds in every reachable state |
| `TailCbConsistency.PolledOk` | ubft/src/tail-cb/receiver.hpp:633-636 | when a message is polled, all other correct receivers echoed something that may match it, or the receiver cleared every one of them |
| `TailCbConsistency.ClearedAll` | ubft/src/tail-cb/receiver.hpp:627-636 | counting n - 1 checks means n - 1 different receivers were checked |
| `TailCbOrder.ReadAgrees` | ubft/src/tail-cb/receiver.hpp:488-510 | a receiver cleared by a read that began after it had written has a register that agrees |
| `TailCbOrder.WriterOrder` | ubft/src/tail-cb/receiver.hpp:454-466 | of two correct receivers on the slow path, the one whose write completes later reads the register of the other, or the other already saw its own |
| `TailCbOrder.CheckedRegister` | ubft/src/tail-cb/receiver.hpp:420-432 | the register of a correct receiver passes its check, so it is never cleared as invalid |
| `TailCbReceiver.Receiver.HandleMessage` | ubft/src/tail-cb/receiver.hpp:238-295 | refines the protocol handler, and sends the message or its hash as echo |
| `TailCbReceiver.Receiver.ReplayEchoes` | ubft/src/tail-cb/receiver.hpp:261-275 | after the loop exactly the receivers with a buffered echo for the index are counted, and the match flag says whether all of them match |
| `TailCbReceiver.Receiver.ReplayOne` | ubft/src/tail-cb/receiver.hpp:263-274 | older echoes of one receiver are dropped and one for the index is counted |
| `TailCbReceiver.Receiver.HandleEcho` | ubft/src/tail-cb/receiver.hpp:302-329 | refines the protocol handler, including the cases in which it throws |
| `TailCbReceiver.Receiver.SignatureVerified` | ubft/src/tail-cb/receiver.hpp:372-438 | refines the protocol handler, and writes the hash and signature of the stored message under the incarnation of its index |
| `TailCbReceiver.Receiver.PollWriteCompletions` | ubft/src/tail-cb/receiver.hpp:440-467 | the loop handles every completed write exactly once |
| `TailCbReceiver.Receiver.PollReadCompletions` | ubft/src/tail-cb/receiver.hpp:469-532 | the loop handles the completed reads one after the other, and throws exactly where the handler does |
| `TailCbReceiver.Receiver.Poll` | ubft/src/tail-cb/receiver.hpp:149-159 | delivers the oldest message, if and only if it is pollable |
| `TailCbArrival.EchoAndMessageCommute` | ubft/src/tail-cb/receiver.hpp:261-275 | an echo that comes before its message leads to the same state as one that comes after it |
| `TailCbArrival.AnyOrder` | ubft/src/tail-cb/receiver.hpp:238-275 | so do a message and any echoes of it, one per receiver, in whatever order they come |
| `TailCbArrival.FastPathExactly` | ubft/src/tail-cb/receiver.hpp:238-328 | once they came, the message can be delivered on the fast path if and only if the echoes of all other receivers came and match |
| `TailCbArrival.FastPathDelivers` | ubft/src/tail-cb/receiver.hpp:149-159 | then poll delivers it, if it is the oldest one stored |
| `TailCbArrival.EarlyEchoesWait` | ubft/src/tail-cb/receiver.hpp:319-328 | echoes sent in order that come before their messages are accepted, and the newest ones wait, as many as the tail |
| `TailCbArrival.InOrderReplays` | ubft/src/tail-cb/receiver.hpp:261-275 | an echo of the message is counted wherever it waits among others, and all later ones stay |
| `TailCbArrival.TakesForOldest` | ubft/src/tail-cb/receiver.hpp:254-259 | a message that is taken pushes out the oldest one, if there are as many as the tail |
| `TailCbProgress.NeverStuck` | ubft/src/tail-cb/receiver.hpp:337-531 | in every run, a message with a signature for which no check, write or read is under way can be delivered, and poll delivers it if it is the oldest one |
| `TailCbProgress.RefusedReadExactly` | ubft/src/tail-cb/receiver.hpp:488-494 | a read of the register of a correct receiver is refused if and only if it was written for a message one or more rounds ahead |
| `TailCbProgress.RegisterCheckExactly` | ubft/src/tail-cb/receiver.hpp:420-434 | what a register holds in place of the own signature clears its owner, unless the broadcaster signed it: then the receiver throws |
| `Blake3Compress.ChunkState.Update` | third-party/src/blake3/blake3.c:112-140 | any bytes taken in any pieces are the bytes of the chunk |
| `Blake3Compress.ChunkState.Output` | third-party/src/blake3/blake3.c:142-147 | the output node is that of the chunk specification on all bytes taken |
| `Blake3Compress.ChunkState.FillBuf` | third-party/src/blake3/blake3.c:34-44 | takes as much as fits the block |
| `Blake3Compress.ChunkState.Reset` | third-party/src/blake3/blake3.c:20-27 | an empty chunk with the given counter |
| `Blake3Compress.HashOne` | third-party/src/blake3/internal/blake3_portable.c:125-143 | a chain of block compressions with start and end flags |
| `Blake3Compress.ChainChunk` | third-party/src/blake3/internal/blake3_portable.c:125-143 | sixteen blocks with the flags of a chunk are the chaining value of the chunk |
| `Blake3Compress.HashMany` | third-party/src/blake3/internal/blake3_portable.c:145-160 | hashes each input on its own and touches nothing else |
| `Blake3Compress.CompressChunksParallel` | third-party/src/blake3/blake3.c:168-205 | writes the chaining values of all chunks, a last partial one included |
| `Blake3Compress.CompressParentsParallel` | third-party/src/blake3/blake3.c:212-245 | writes one parent per pair, and an odd value as it is |
| `Blake3Compress.CompressSubtreeWide` | third-party/src/blake3/blake3.c:264-321 | terminates and writes the list of the wide recursion, for every power-of-two degree up to 16 |
| `Blake3Compress.MergeHalves` | third-party/src/blake3/blake3.c:309-320 | two single values stay, more are paired |
| `Blake3Wide.WideSize` | third-party/src/blake3/blake3.c:247-263 | the list has at most the degree of values, or two, and at least two for more than one chunk |
| `Blake3Wide.WideSizePow` | third-party/src/blake3/blake3.c:288-300 | for a power of two of chunks it has exactly the degree of values, or two |
| `Blake3Wide.LeftOffset` | third-party/src/blake3/blake3.c:292-305 | left_n equals the offset of right_cvs, so the children are contiguous |
| `Blake3Wide.CondenseSplit` | third-party/src/blake3/blake3.c:354-359 | a power of two of values followed by no more of them condenses to the reductions of the two parts |
| `Blake3Wide.ChunksReduce` | third-party/src/blake3/blake3.c:157-162 | the chaining values of the chunks, paired level by level, reduce to the recursive left-full tree |
| `Blake3Wide.WideReduce` | third-party/src/blake3/blake3.c:264-321 | whatever the degree, the list reduces to the chaining value of the tree |
| `Blake3Wide.WideCondense` | third-party/src/blake3/blake3.c:333-360 | whatever the degree, the condensed list is the two children of the root |
| `Blake3Hasher.CompressSubtreeToParentNode` | third-party/src/blake3/blake3.c:333-360 | returns the chaining values of the two subtrees of the root, whatever the degree |
| `Blake3Hasher.Hasher.MergeCvStack` | third-party/src/blake3/blake3.c:404-413 | after the lazy merge the stack holds one subtree per bit of the count, the largest first |
| `Blake3Hasher.Hasher.PushCv` | third-party/src/blake3/blake3.c:447-453 | the new value is put on top of the merged stack, unmerged, within the capacity of 55 |
| `Blake3Hasher.Hasher.FillChunk` | third-party/src/blake3/blake3.c:467-488 | the chunk in progress is filled and pushed once more input follows |
| `Blake3Hasher.Hasher.SubtreeLen` | third-party/src/blake3/blake3.c:504-526 | a power of two of chunks that the input fills and that divides the count so far |
| `Blake3Hasher.Hasher.TakeSubtrees` | third-party/src/blake3/blake3.c:503-550 | the loop takes whole subtrees until at most a chunk is left |
| `Blake3Hasher.Hasher.Update` | third-party/src/blake3/blake3.c:455-562 | the state represents the bytes taken before, followed by the input |
| `Blake3Hasher.Hasher.RootOutput` | third-party/src/blake3/blake3.c:575-608 | rolling up the stack yields the root of the recursive tree of all bytes taken |
| `Blake3Hasher.Hasher.FinalizeSeek` | third-party/src/blake3/blake3.c:569-611 | writes the root output bytes of that tree from the given position |
| `Blake3Hasher.OutputRootBytes` | third-party/src/blake3/blake3.c:89-110 | byte i of the output is byte i of the concatenated output blocks |
| `Blake3Hasher.HashParts` | crypto/src/hash/blake3.hpp:18-53 | for every byte string and every way of cutting it into updates the digest is that of the recursive tree |
| `Blake3Hasher.HashTwoParts` | ubft/src/tail-cb/broadcaster.hpp:141-144 | the broadcaster's hash of index and data is the digest of their concatenation |
| `Blake3Hasher.HashWhole` | ubft/src/message.hpp:23-25 | a receiver's hash of the whole buffer is the digest of the same bytes |
| `Blake3Digest.DigestOfBlock` | third-party/src/blake3/blake3.c:89-96 | the digest of at most 64 bytes is the first half of one root block: the bytes with zeros behind, their number, and the flags of start, end and root |
| `Blake3Digest.ChunkEnds` | third-party/src/blake3/blake3.c:112-147 | block after block is compressed under the counter of the chunk, the first one flagged as the start and the last one, padded, as the end |
| `Blake3Digest.OutputOfChunk` | third-party/src/blake3/blake3.c:89-110 | byte 64 j + r of the output of one chunk is byte r of its root block under block counter j |
| `Blake3Digest.TreeOfParts` | third-party/src/blake3/blake3.c:157-164 | more than one chunk: the left part is the largest power of two of chunks that leaves a byte to the right, and the parent of the two, or the root, joins their chaining values |
| `Blake3Digest.OutputOfParts` | third-party/src/blake3/blake3.c:89-110 | byte 64 j + r of the output of more than one chunk is byte r of the root block over its two parts under block counter j |
| `Blake3Digest.DigestOfTwoChunks` | third-party/src/blake3/blake3.c:149-155 | the digest of two chunks, in terms of the compression function |
| `Blake3Digest.DigestOfThreeChunks` | third-party/src/blake3/blake3.c:157-164 | and of three, whose left subtree is full |
| `Blake3Tree.RollUp` | third-party/src/blake3/blake3.c:594-608 | the topmost subtree is the left child of the tree that begins with it |
| `Blake3Bits.CarryBound` | third-party/src/blake3/blake3.c:404-413 | adding a bit at or below the lowest one never adds more than one bit to the count |
| `Blake3Bits.ChunkBits` | third-party/src/blake3/blake3.h:33-48 | fewer than 2^64 bytes need at most 54 stack entries |
| `TailMap.VectorTailMap.TryEmplace` | ubft/src/tail-map/vector.hpp:109-136 | keeps the window of an ordered bounded map, if and only if the key is not that of the last entry: then the entry is linked to itself |
| `TailMap.SelfLinkNeverEnds` | ubft/src/tail-map/vector.hpp:129-135 | a self-linked entry is followed forever, so iteration does not end |
| `TailMap.WalkVisits` | ubft/src/tail-map/vector.hpp:171-184 | the chain from the head visits exactly the entries, in increasing order, and then ends |
| `TailMap.Residues` | ubft/src/tail-map/vector.hpp:124-128 | different keys of one window fall in different slots |
| `TailMap.VectorTailMap.Find` | ubft/src/tail-map/vector.hpp:138-146 | finds exactly the keys of the map, with their values |
| `TailMap.VectorTailMap.PopFront` | ubft/src/tail-map/vector.hpp:159-169 | removes the first entry |
| `TailMap.VectorTailMap.Clear` | ubft/src/tail-map/vector.hpp:186-191 | empties the map and accepts any key again |
| `TailMap.VectorTailMap.Size` | ubft/src/tail-map/vector.hpp:200-206 | counts the entries along the chain |
| `TailMap.VectorTailMap.Front` | ubft/src/tail-map/vector.hpp:152-157 | the value of the smallest key |
| `TailMap.TreeTailMap.TryEmplace` | ubft/src/tail-map/tree.hpp:37-47 | inserts into the ordered window; it throws exactly where every entry is left behind and the key read past the end looks old |
| `TailMap.RunInStep` | ubft/src/tail-map/tree.hpp:37-83 | for every sequence of inserts, pops and clears, and whatever is read past the end each time, ring and tree hold the same entries in the same order up to the first operation that links an entry to itself, or for which the tree reads past its end and finds an old key; the two part exactly there |
| `SwmrRegister.ReadsAreFreshExactly` | ubft/src/swmr/reader.hpp:137-162 | every read of an interval returns a write no older than the last one complete before it if and only if no two writes overlap the interval |
| `SwmrRegister.ShortReadsAreFresh` | ubft/src/swmr/reader.hpp:137-162 | with a writer that obeys the cooldown, a read of at most the cooldown finds an intact subslot with an incarnation no older than the last complete write, and the value written under it |
| `SwmrRegister.ShortOverlap` | ubft/src/swmr/writer.hpp:212-217 | a read of at most the cooldown overlaps at most one write |
| `SwmrRegister.StaleRead` | ubft/src/swmr/reader.hpp:153-171 | a read that two writes overlap may return the write before the last one, or nothing |
| `SwmrReader.Judge` | ubft/src/swmr/reader.hpp:137-172 | the newest intact subslot, a retry for a long read, or an accusation |
| `SwmrReader.PicksBest` | ubft/src/swmr/reader.hpp:143-150 | the checksum comparison picks the newest write that was copied |
| `SwmrReader.ShortReadsReturnWrites` | ubft/src/swmr/reader.hpp:153-172 | judged within the cooldown, a read of a correct writer's register returns a fresh value and does not accuse the writer |
| `SwmrReader.LongReadsMayBeStale` | ubft/src/swmr/reader.hpp:153-171 | a longer read may return an incarnation older than one complete before it began |
| `SwmrReader.CorrectIsNotAccused` | ubft/src/swmr/reader.hpp:164-171 | however long it lasts, no read of a correct writer's register accuses it: where both subslots are torn, the read is repeated |
| `SwmrReader.AccusedExactly` | ubft/src/swmr/reader.hpp:164-171 | a writer is accused if and only if both subslots are bad and the read was judged within the cooldown |
| `SwmrAccess.Writer.Write` | ubft/src/swmr/writer.hpp:120-138 | the write is queued and what can be posted is |
| `SwmrAccess.Writer.PushToQp` | ubft/src/swmr/writer.hpp:205-233 | queued writes are posted in order, those of cooling registers go to the end of the queue, none is lost, and histories stay well formed |
| `SwmrAccess.Writer.CoolingExactly` | ubft/src/swmr/writer.hpp:212-217 | a register cools if and only if it was written after its initialization and the cooldown after that write is not over |
| `SwmrAccess.PostsHalf` | ubft/src/swmr/writer.hpp:206-208 | the bound of the loop shrinks as it posts: with room for all and none cooling it posts the first half of the queue |
| `SwmrAccess.Writer.Enqueue` | ubft/src/swmr/writer.hpp:120-136 | incarnations grow and subslots alternate, for the one register |
| `SwmrAccess.Writer.PollCompletion` | ubft/src/swmr/writer.hpp:178-203 | every completion extends the history of its register by the write posted, and histories stay well formed |
| `SwmrAccess.OneMore` | ubft/src/swmr/writer.hpp:212-217 | a write posted after the cooldown keeps the history well formed |
| `SwmrJobs.Reader.constructor` | ubft/src/swmr/reader.hpp:34-58 | every buffer is free |
| `SwmrJobs.Reader.Read` | ubft/src/swmr/reader.hpp:68-77 | takes a free buffer; none when all are in use |
| `SwmrJobs.Reader.PushToQp` | ubft/src/swmr/reader.hpp:175-193 | queued reads are posted in order, and a read waits only behind a full queue pair |
| `SwmrJobs.Reader.Complete` | ubft/src/swmr/reader.hpp:113-172 | a completed read becomes a result or waits again, and every buffer stays in exactly one place |
| `SwmrJobs.Reader.Release` | ubft/src/swmr/reader.hpp:87-94 | the buffer is free again |
| `SwmrJobs.Reader.Tick` | ubft/src/swmr/reader.hpp:96-101 | completions become results or repeated reads in the order of the reads, then waiting reads are posted, and none is left behind |
| `ReplicatedRegister.RunsAreRegular` | ubft/src/replicated-swmr/reader.hpp:134-157 | if the hosts are regular, then for any odd number of them a read returns an incarnation no older than the last one complete when it began, with the value written under it, even if pending writes are superseded |
| `ReplicatedHosts.RegularExactly` | ubft/src/swmr/reader.hpp:137-162 | a host is regular for a read if and only if no two writes to it overlap the read |
| `ReplicatedHosts.ShortReadsAreRegular` | ubft/src/swmr/reader.hpp:137-162 | so it is for a read that lasts at most the cooldown |
| `ReplicatedTimed.TimedRunsAreRuns` | ubft/src/swmr/reader.hpp:103-182 | a run with the times of all steps, in which hosts return what reads of their two subslots find, is a run of the replicated protocol, if writes are posted after the cooldown and reads last no longer or meet one write at most |
| `ReplicatedTimed.TimedRunsAreRegular` | ubft/src/replicated-swmr/reader.hpp:134-157 | so for an odd number of such hosts a read returns an incarnation no older than the last one complete when it began, with the value written under it |
| `ReplicatedRegister.EvenRunsMiss` | ubft/src/replicated-swmr/writer.hpp:149-152 | for every even number of hosts there is a run in which a read misses a write completed before it began |
| `ReplicatedRegister.QuorumsMeet` | ubft/src/replicated-swmr/writer.hpp:149-152 | a read quorum of an odd number of hosts meets one that holds the complete write |
| `ReplicatedAccess.Writer.Write` | ubft/src/replicated-swmr/writer.hpp:115-135 | is the write step of the protocol; throws while a write is outstanding or if the incarnation does not grow |
| `ReplicatedAccess.Writer.Completed` | ubft/src/replicated-swmr/writer.hpp:137-154 | completes exactly when (n+1)/2 hosts have nothing pending |
| `ReplicatedAccess.Poll` | ubft/src/replicated-swmr/reader.hpp:134-157 | returns, once a quorum returned, the highest incarnation among them |
| `TailP2p.Receiver.Try` | ubft/src/tail-p2p/receiver.hpp:104-162 | is the scan step of the protocol |
| `TailP2p.Receiver.Poll` | ubft/src/tail-p2p/receiver.hpp:77-88 | tries until a message is delivered or nothing is new, at most once per slot |
| `TailP2p.SameSlot` | ubft/src/tail-p2p/receiver.hpp:169-176 | ids of one slot are at least the tail apart |
| `TailP2pDelivery.RunsDeliver` | ubft/src/tail-p2p/receiver.hpp:104-162 | against any sender writing concurrently in order: delivered ids strictly increase, each payload is the one sent under its id, and a message is missing only if its slot had been overwritten |
| `TailP2pDelivery.RightPayload` | ubft/src/tail-p2p/receiver.hpp:120-153 | equal incarnations around the copy and a matching checksum mean the message of that incarnation |
| `TailP2pDelivery.ScanDelivers` | ubft/src/tail-p2p/receiver.hpp:126-153 | a delivery is the message waited for or the oldest one left in the ring |
| `TailP2pProgress.WaitedForIsDelivered` | ubft/src/tail-p2p/receiver.hpp:104-148 | whatever the sender writes meanwhile: a try at the slot of the message waited for delivers it, if it was written before and is not being overwritten, and waits for its successor |
| `TailP2pProgress.FallingEdgeIsDelivered` | ubft/src/tail-p2p/receiver.hpp:124-148 | and past a straggling message a try delivers the message it finds a round behind it |
| `TailP2pProgress.PollDelivers` | ubft/src/tail-p2p/receiver.hpp:77-88 | while nothing is written and the ring holds an undelivered message, a poll delivers the one in the slot scanned first, or else the oldest one in the ring, unless it was that one that was scanned first: then all tries pass, and the next poll delivers it at once |
| `TailP2pProgress.OneSlotIsStuck` | ubft/src/tail-p2p/receiver.hpp:156-162 | with a ring of one slot, a receiver that was overtaken once never delivers again |
| `Certifier.MemoErrsExactly` | ubft/src/certifier/certifier.hpp:276-300 | the check accepts what full verification accepts, and errs if and only if some share is remembered and the message acknowledged at that index has another hash |
| `Certifier.AnyMessagePasses` | ubft/src/certifier/certifier.hpp:281-283 | the shares of a certificate vouch for any other message at a replica that remembers them |
| `CertifierQuorum.CertificatesMeet` | ubft/src/certifier/certifier.hpp:257-263 | two certificates that pass full verification share an emitter, which signed both |
| `CertifierQuorum.MajorityOfShares` | ubft/src/certifier/certifier.hpp:257-263 | a certificate that passes has more than half as many shares as there are processes, and no more than it takes |
| `CertifierQuorum.QuorumIsLeast` | ubft/src/certifier/certifier.hpp:601-604 | all sets of k processes share one with each other if and only if k is at least the quorum |
| `Certifier.InOrderReplays` | ubft/src/certifier/certifier.hpp:156-170 | of promises buffered in increasing order, one for the index is found wherever it is, and exactly the later ones stay |
| `Certifier.Certifier.HandlePromise` | ubft/src/certifier/certifier.hpp:363-383 | a promise is counted once, or buffered in increasing order up to the tail |
| `Certifier.Certifier.Replay` | ubft/src/certifier/certifier.hpp:156-170 | older buffered promises are dropped, and one for the index is reported |
| `Certifier.Certifier.Acknowledge` | ubft/src/certifier/certifier.hpp:134-209 | the message enters the window with exactly the promises buffered for it, wherever they are in their queues; the call throws for an index below the last one, and links the entry to itself for the last one if it is still there |
| `Certifier.Certifier.ReceivedImplicitPromise` | ubft/src/certifier/certifier.hpp:211-223 | the promise of the sender is counted if the message is in the tail; throws exactly if it is no other replica |
| `Certifier.Certifier.ForgetMessages` | ubft/src/certifier/certifier.hpp:330-334 | the loop drops all messages, or those up to the index |
| `Certifier.Certifier.PollPromise` | ubft/src/certifier/certifier.hpp:225-235 | a polled promise means that every other replica promised, or that its promise went without saying, and promises are polled in increasing order |
| `Certifier.Certifier.HandleVerifiedShare` | ubft/src/certifier/certifier.hpp:522-543 | a verified share is kept once per replica |
| `Certifier.Certifier.Gather` | ubft/src/certifier/certifier.hpp:610-622 | the first n/2+1 shares in the order of replicas |
| `Certifier.Certifier.PollCertificate` | ubft/src/certifier/certifier.hpp:237-249 | what is polled passes full verification, for the message acknowledged, in increasing order of indices |
| `Certifier.Certifier.CheckCertificate` | ubft/src/certifier/certifier.hpp:251-302 | the loops decide the predicate of the check |
| `Certifier.Certifier.IsRemembered` | ubft/src/certifier/certifier.hpp:625-637 | whether the share kept for the emitter has this signature |
| `CertificateLayout.Build` | ubft/src/certifier/certificate.hpp:69-82 | the bytes written are header, shares in order, and message |
| `CertificateLayout.ReadsBack` | ubft/src/certifier/certificate.hpp:84-127 | a built certificate is accepted and all accessors return what it was built from |
| `CertificateLayout.EncodesBack` | ubft/src/certifier/certificate.hpp:84-127 | a buffer that holds its shares is the certificate it reads as |
| `CertificateLayout.TryFromExactly` | ubft/src/certifier/certificate.hpp:49-59 | an accepted buffer holds its shares exactly if the size computed for them does not wrap around |
| `FlowControl.RunsConserve` | ubft/src/rpc/server.hpp:298-343 | in every run between correct servers outstanding_requests equals unread echoes plus polled ones plus acknowledgements on their way, and never exceeds the window; no acknowledgement exceeds it |
| `FlowControl.LosslessExactly` | ubft/src/rpc/server.hpp:428-451 | no echo or acknowledgement is ever overwritten or recycled unread if and only if the rings hold the window |
| `FlowControl.AcksAreReceived` | ubft/src/rpc/server.hpp:299-310 | an acknowledgement is never left unpolled for want of outstanding requests |
| `FlowControl.RunsDrain` | ubft/src/rpc/server.hpp:298-371 | where the rings hold the window, no run is ever stuck: from each of its states all that is outstanding can be written, polled and acknowledged, without further echoes and without loss |
| `FlowControl.OtherServer.Echo` | ubft/src/rpc/server.hpp:378-411 | the counter after all acknowledgements and as many echoes as the window allows; fails exactly if more is acknowledged than outstanding |
| `FlowControl.PollEchoes` | ubft/src/rpc/server.hpp:345-371 | acknowledges the echoes polled, at most three |
| `Handshake.RoundTripExactly` | rpc/src/conn/rpc-parser.hpp:14-100 | for every id, information and way of splitting the bytes, the server sees the connection once with the original id and information, DONE once after it, and leaves surplus bytes untouched, if and only if the length of the information fits 32 bits |
| `Handshake.FragmentationIsIrrelevant` | rpc/src/conn/universal-connection.hpp:79-123 | events and bytes left over depend on the bytes received, not on how they were split |
| `Handshake.EventsOfPrefix` | rpc/src/conn/universal-connection.hpp:79-123 | later bytes only add events |
| `ByteOrder.LittleEndianInverts` | rpc/src/conn/rpc-request.hpp:24-31 | a number arrives truncated to the width it is written with |
| `Handshake.Parser.Parse` | rpc/src/conn/rpc-parser.hpp:19-43 | one step of the specification, with the fall-through from the id to the information |
| `Handshake.Received` | rpc/src/conn/universal-connection.hpp:79-123 | the loop drains the parser |
| `Pool.AdvertisedSpaceSuffices` | memory/src/pool/pool-allocator.hpp:61-65 | alignedSpaceRequirement bytes suffice at any address |
| `Pool.SpaceRequiredExactly` | memory/src/pool/pool-allocator.hpp:67-75 | at an aligned start, exactly spaceRequired bytes suffice |
| `Pool.AllAreCreated` | memory/src/pool/pool-allocator.hpp:179-201 | in a buffer of the size advertised for several pools together, all of them are created, one after the other |
| `Pool.ChunksAreGood` | memory/src/pool/pool-allocator.hpp:108-159 | objects are aligned, chunks lie in the buffer and do not overlap |
| `Pool.PoolAllocator.constructor` | memory/src/pool/pool-allocator.hpp:108-128 | the free list visits all chunks once and ends |
| `Pool.PoolAllocator.Create` | memory/src/pool/pool-allocator.hpp:77-89 | takes the first free chunk; fails exactly if all chunks are live; free and live chunks partition the pool |
| `Pool.PoolAllocator.Destroy` | memory/src/pool/pool-allocator.hpp:95-105 | puts the chunk back; the free list stays acyclic |
| `Pool.Arena.CreatePool` | memory/src/pool/pool-allocator.hpp:190-201 | pools lie one after the other in the buffer, each from the byte after the last chunk of the one before, and the chunks of each inside its own range |
| `Buffers.PushesKeepNewest` | ubft/src/tail-queue/deque.hpp:26-32 | however many entries are pushed onto a queue of bounded size, exactly the newest are kept |
| `TailQueue.VectorTailQueue.EmplaceBack` | ubft/src/tail-queue/vector.hpp:56-63 | the ring does so: onto a full queue, the oldest entry makes room |
| `TailQueue.VectorTailQueue.PopFront` | ubft/src/tail-queue/vector.hpp:81-84 | the oldest entry is removed |
| `TailQueue.VectorTailQueue.Back` | ubft/src/tail-queue/vector.hpp:86-86 | the newest entry, as long as no more were ever added than there are slots; beyond the slots from then on |

## Left out

- ConsensusReplica.Replica.NewViewFrom: a method runs to its end; what is handled while it waits are
  steps of `ConsensusProtocol`, not of the class.
- ConsensusSteps.BroadcastKeeps: waits for verifications are taken before a message is sent or
  handled: nothing but verified commits is polled meanwhile. Once a checkpoint is sent, what is below
  it is dropped; the code looks up its range in the certificate adopted by then.
- ConsensusEviction.EvictionRun: the moment at which a checkpoint is broadcast is left to the run. The
  code holds it back until ten instances before the end of the range
  (consensus/consensus.hpp:1098-1109), so the run with its window of two is one of the protocol, not of
  the schedule of the code.
- ConsensusReplica.Replica.HandleCb: what a certificate check returns is an input there; what it
  lets pass is `Checked` in the protocol.
- ConsensusSetback.SetbackRun: a checkpoint is its index and the instance it starts from; the digest
  of the application is not modelled, and every checkpoint opens one window from that instance.
- ConsensusForgedCommit.ForgedRun: a share is remembered for good, while the certifier forgets it once
  its message has left the tail; the runs use shares of messages still in it.
- ConsensusSlack.AcceptedExactly: whether certificates of a view suffice for a NewView is left to
  the run, but not for a second one: each certificate is polled once.
- Byte layout of consensus messages, and `pack` with its 48 bits per instance: packed indices are
  ordered by view, then instance.
- A batch is an uninterpreted value; whether its requests are valid is an input of `TryCertify`.
- TailCbReceiver.Receiver.PollReadCompletions: an entry of `outstanding_reads` leaves once all its
  reads completed in one pass, because the source resets handles in a copy of the vector; here a
  read leaves when it completes.
- The broadcaster of tail consistent broadcast is arbitrary; its own sending, and the queue of
  signature computations, are not modelled beyond the signed hash.
- Blake3Hasher.Hasher.Update: flags are sets, chaining values are moved 32 bytes at a time, and the
  bit mask on a power of two is its remainder. The compression function is a parameter; inputs stay
  below 2^64 bytes, as the specification demands. Derive-key contexts are not modelled.
- TailMap.RunInStep: says nothing of what follows once ring and tree part.
- SwmrAccess.Writer.Write: incarnations do not wrap around at 64 bits; the reader's subtraction of
  two does.
- ReplicatedAccess.Writer.Write: filling a register's buffer and calling write are one step, as a
  pending write points to that shared buffer.
- The replicated reader's queue of reads that wait for a buffer, and its deferred releases.
- TailP2p.Receiver.Try: incarnations are unbounded, 32 bits wide in the source.
- Certifier.Certifier.Acknowledge: says nothing of what follows once the index that is still last is
  acknowledged again and the tail map links its entry to itself.
- Certifier.Certifier.HandlePromise: a promise repeated before the acknowledgement is refused; the
  thread pool that computes and verifies shares is a result that arrives later.
- Pool.PoolAllocator.constructor: addresses are unbounded; a buffer that wraps around the address
  space is not modelled. The objects' own constructors and destructors are not either.
- Handshake.Parser.Parse: the id is four opaque bytes; sessions of several clients and their
  disconnection are not modelled.
- FlowControl.OtherServer.Echo: which requests are echoed is left to the caller.
- Liveness, recovery and state transfer: where the source throws or spins, the replica stops.
- RDMA queues, connection setup, threads, the request log, responses to clients, and the client side.
