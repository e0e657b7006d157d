# Harlequin consensus: a verified model

A Dafny model of the consensus, reputation and content-addressing core of the Harlequin network, with
proofs of what its comments promise: that finality is irreversible and that anybody who breaks it is
caught, that the committee election is one function of its eligible inputs, that a commitment locks a
sortition key, that Sybils and vouching rings win nothing, and that encodings undo each other.

`dafny verify dfyconfig.toml` checks the whole project.

## What is modelled

- **Finality.** `Voting` holds the decision rule in its two forms and the history of any voter.
  `Quorum` is the 70% wall. `FinalityProof` is the signed vote, the justification and both of its
  readers. `FinalityWorker` is the worker tick by tick, and `FinalityRun` whole runs of any number of
  nodes under any messages, proofs and restarts. `FinalityAttempts` is who accepts the proofs built in
  them, `FinalityLatch` irreversibility and `FinalityLiveness` progress. `FinalityVote` is what is signed
  and when, `FinalityConvergence` how a committee that hears itself decides; `FinalityMeeting`,
  `FinalityBoundary` and `FinalityRestart` are three runs: a decision of two nodes, one across an epoch
  boundary and one across a restart. `ProofWorker` is the distributor of proofs over its runs, `ProofGap`
  two of them.
- **Committee.** `Sortition` is the fixed-point Poisson window and the seat walk, `PoissonLaw` its distance
  from the exact law. `Election` is the draw and the expected seats, `FinalityCommittee` the one election
  with its beacon mode and liveness floor, `ElectionLaw` what it elects in the end and `ElectionSeeds` what
  its draws depend on.
- **Beacon.** `Beacon` is the commit-reveal pipeline, `PalletBeacon` its on-chain storage.
- **Reputation.** `Reputation` is the damped propagation, `TrustGraph` the vouches and communities,
  `DampedMatrix` the damping that joins the two, `Funnel` what it leaves of funnels and inbred communities,
  `EarnedReputation` a dimension from end to end, `Vouch` the sponsor links and the slashing cascade.
- **Simulators.** `VotingRun` is the round-based network, `EventRig` the asynchronous one.
- **Content.** `ContentId` is base32 and the CIDv1 string, `Forum` the canonical post.
- `Bytes`, `Numerals` and `Vectors` hold byte order, numerals and finite real vectors.

Signature checking, SHA-256, UTF-8 validity and blankness are parameters. Chain reads (best block, block
hashes, spec versions, committee and delegation at a block) are functions of a chain snapshot that may
change from tick to tick. Random choices are nondeterministic, so what is proved of the simulators holds
for every draw. No hash function is without collisions, so what depends on the hash is stated for functions
that do not collide on the inputs in question, or as a function that tells two inputs apart. Floats of the
reputation engine and the simulators are reals; evidence and weights are non-negative, and agents are
numbered in the order of their identifiers, a missing entry of a trust row being a zero.

## Where code and comments part

- `alpha(0)` is 1, so a quorum is reachable exactly for committees of at least one member
  (`Quorum.AlphaReachable`).
- The lockstep of the two voting machines fails on an empty round with alpha 0: `SnowballNode` confirms
  colour 1 with count 0, while `FinalityRound` sees no leader (`Voting.LockstepStep`).
- The 16-bit vote count of a proof can carry a quorum exactly up to 93621 members
  (`FinalityProof.CountFieldSuffices`).
- The on-chain reveal refuses an oversized secret that the core accepts (`PalletBeacon.RevealRefines`).
- The proof cache is described as keeping the highest received proof, so that a proof seen before its
  block is applied later. It keeps the highest since it was last emptied (`ProofWorker.CacheHoldsHighest`),
  and applying a lower proof empties it (`ProofGap.LowerProofForgetsHigher`).
- Headers enter that cache unverified. One of a height no chain reaches stays until a message is applied
  on arrival, and no proof that waits for its block is kept (`ProofWorker.UnreachableStays`,
  `ProofGap.BareHeaderStarves`).
- Pruning held votes at an epoch boundary is said to keep the proof acceptable. The prune looks at
  accounts and not at keys: a vote of a key withdrawn by the epoch start still counts in the tally, and
  for no verifier of the proof (`FinalityBoundary.WithdrawnKeyBreaksProof`). The proof is accepted exactly
  if the accounts its votes still speak for reach alpha (`FinalityAttempts.PruneProvesExactly`).
- A decision latches but its votes do not: a retry is packed with the votes of the moment and judged by
  them (`FinalityAttempts.AttemptsConvince`).
- A decision is said to be immutable. It lives in memory: a node that restarts before it is final may
  decide the height again (`FinalityLatch.RestartLatchesExactly`, `FinalityRestart.RestartForgets`).
- The guards on a zero weight total in the sortition never fire (`Sortition.TotalPositive`).
- `Network.run_until` with a deadline in the past sets the clock back (`EventRig.Rig.RunUntil`).

Agreement is accountable, not unconditional: an honest member signs again after a reorganisation, so
`FinalityRun.AccountableSafety` says who signed twice.

## Model

| member | source | states |
|---|---|---|
| Voting.LeaderUnique | chain/consensus-core/src/finality.rs:104-114 | a round has one leading hash: most votes, ties to the larger hash |
| Voting.Leading | chain/consensus-core/src/finality.rs:104-114 | the tally loop returns that leader with its count, and nothing on an empty round |
| Voting.FinalityRound.ObserveRound | chain/consensus-core/src/finality.rs:66-98 | one round: reset below alpha, extend or restart the streak, decide at beta with the quorum in sight; a decided round is frozen and reports once |
| Voting.SnowballNode.ObserveRound | chain/consensus-core/src/snowball.rs:83-117 | the same rule over two colours, ties to colour 1 |
| Voting.UndecidedHistory | chain/consensus-core/src/finality.rs:66-98 | while no round has fired, pref is the colour confirmed last and streak the length of its maximal run, with alpha, beta and the quorum flag changing from round to round |
| Voting.DecidedHistory | chain/consensus-core/src/finality.rs:66-98 | the first firing round decides the colour it confirmed and the machine never moves again |
| Voting.DecisionLatches | chain/consensus-core/src/finality.rs:66-98 | a decision, once made, survives every later round |
| Voting.DecisionCharacterised | chain/consensus-core/src/finality.rs:66-98 | over any history, a colour is decided if and only if it is the colour of the first round that ended a run of at least its own beta with the quorum flag set |
| Voting.LockstepStep | chain/consensus-core/src/snowball.rs:96-117 | on two hashes the two machines take the same step if and only if the node is frozen, a vote arrived or alpha is at least 1 |
| Voting.Lockstep | chain/consensus-core/src/snowball.rs:83-117 | with alpha at least 1, any history on two hashes drives both machines through the same states |
| Quorum.AlphaReachable | chain/node/src/finality.rs:602-603 | alpha(k) is at most k exactly for k >= 1, and at most k - 1 exactly for k >= 4 |
| Quorum.AlphaIsTheWall | chain/node/src/finality.rs:602-610 | a count reaches alpha if and only if it is 70% and a strict majority, and then the 60% guard holds |
| Quorum.OverlapBound | chain/node/src/finality.rs:602-603 | 2 alpha - k is at least ceil(2k/5) and at least 1, for every k |
| Quorum.QuorumsIntersect | chain/node/src/finality.rs:602-603 | two quorums of one committee share at least that many members |
| FinalityProof.SignedMessageBinds | chain/node/src/finality.rs:166-183 | a signed message determines flavour, genesis, height and hash, and is never a legacy message |
| FinalityProof.SignedMessageSpelled | chain/node/src/finality.rs:166-183 | the signed bytes are the v2 tag, flavour, genesis, little-endian height and hash, one after the other |
| FinalityProof.VerifiedExactly | chain/node/src/finality.rs:213-228 | a vote verifies by the signed message, and only at height 0 by the bytes without a domain |
| FinalityProof.NoReplay | chain/node/src/finality.rs:143-183 | a vote of a key that signs votes of one chain verifies only for that chain and for a height and hash it has signed |
| FinalityProof.VoteCodec | chain/node/src/finality.rs:185-208 | decoding is the exact inverse of encoding a vote: 136 bytes, one encoding each |
| FinalityProof.EncodeProof | chain/node/src/finality.rs:889-902 | the packed proof is the header and the matching votes in account order, at most 65535 of them |
| FinalityProof.VerifyProof | chain/node/src/finality.rs:908-983 | the verifier: the six ways to fail in order, and acceptance on alpha distinct committee accounts with valid signatures |
| FinalityProof.ProofReadsBack | chain/node/src/finality.rs:889-902 | a packed proof reads back as its height, hash, count and votes |
| FinalityProof.DecodeProofVotes | chain/node/src/participation_inherent.rs:124-147 | the second reader of the layout recovers the same votes in the same order |
| FinalityProof.EndorsersOfDistinct | chain/node/src/finality.rs:953-977 | distinct accounts with valid signatures are counted once each |
| FinalityProof.ProofCompleteness | chain/node/src/finality.rs:889-902 | a proof built from a held tally is accepted exactly when the carried matching votes reach alpha and the committee is not empty |
| FinalityProof.ProofAcceptedExactly | chain/node/src/finality.rs:908-983 | a proof built from any valid votes for one height is accepted exactly when the committee accounts they speak for, under the verifier delegation, reach alpha; otherwise it is rejected for too few signatures or an empty committee |
| FinalityProof.CountFieldSuffices | chain/node/src/finality.rs:892-896 | the 16-bit count can carry a quorum if and only if the committee has at most 93621 members |
| FinalityProof.EnoughVotesProve | chain/node/src/finality.rs:908-983 | with a quorum of matching votes and such a committee the proof is accepted and reads back as those votes |
| FinalityWorker.FirstHealthyBoundaryAfter | chain/node/src/finality.rs:758-773 | the loop finds the least buried healthy boundary above a height, saturating at the 32-bit ceiling |
| FinalityVote.FirstHealthyExactly | chain/node/src/finality.rs:758-773 | the answer is the first boundary above the height that is buried, not halted and has a committee, and none exactly if there is none |
| FinalityWorker.SkipTargetAgrees | chain/node/src/finality.rs:758-773 | two nodes that agree on the boundaries both have buried, whatever their tips, skip to the same boundary once both see one, and a longer chain loses no answer |
| FinalityWorker.Worker.constructor | chain/node/src/finality.rs:399-430 | the worker starts aimed one step past the finalised block with no votes |
| FinalityWorker.Worker.AimAt | chain/node/src/finality.rs:464-473 | moving the target replaces committee, delegation, votes and round together |
| FinalityVote.FreshAim | chain/node/src/finality.rs:464-473 | after aiming there are no votes, no streak, no decision and no stall, the preference is the block of the own chain or zeros, and committee and delegation are those at the block the epoch is read at |
| FinalityWorker.Worker.Cast | chain/node/src/finality.rs:583-597 | the own vote is tallied under the account it resolves to, if that account sits; which vote it is, FinalityVote.VoteSentExactly says |
| FinalityWorker.Worker.Count | chain/node/src/finality.rs:602-639 | the tally with this committee, the 60% guard and the persistent round; a latched decision is retried |
| FinalityWorker.Worker.CastAndTally | chain/node/src/finality.rs:583-679 | vote, count, build the proof of a decision, and re-aim only when finalising succeeded |
| FinalityWorker.Worker.Refresh | chain/node/src/finality.rs:523-534 | committee and delegation are re-read at the pinned block and votes outside the committee dropped |
| FinalityWorker.Worker.SkipBand | chain/node/src/finality.rs:535-579 | on an entrenchment halt the target jumps to the first healthy boundary, or the tick stops |
| FinalityWorker.Worker.Prepare | chain/node/src/finality.rs:461-579 | the guards of a tick in their order: re-aim, block present, spec coherent, committee fresh and not empty |
| FinalityWorker.Worker.Tick | chain/node/src/finality.rs:443-680 | a whole tick as one step of the state |
| FinalityVote.PreparedVotes | chain/node/src/finality.rs:461-579 | a tick reaches its vote at a height exactly if its guards pass there: the height aimed at, or, if a halt left that without a committee, the first healed boundary whose block is there |
| FinalityVote.VoteSentExactly | chain/node/src/finality.rs:461-597 | every vote a tick sends is for the block of the own chain at the height it works on, under the key of the node and signed over that height and hash; one is sent if and only if there is a key and the tick reaches its vote |
| FinalityVote.VotesAtOne | chain/node/src/finality.rs:461-579 | there is at most one such height |
| FinalityVote.TickEnds | chain/node/src/finality.rs:638-679 | a tick hands over its height and the decided hash exactly if it reached its vote and the height is decided; only if that is finalised it aims afresh, one step past finality |
| FinalityVote.SentVoteVerifies | chain/node/src/finality.rs:583-597 | a sent vote passes the signature check of every receiver and survives its encoding |
| FinalityVote.PassiveTick | chain/node/src/finality.rs:484-522 | on a runtime it was not built for a node re-aims and counts the tick, and neither votes, counts nor decides |
| FinalityWorker.Worker.Receive | chain/node/src/finality.rs:695-708 | a gossiped vote is kept only for the current height, with a valid signature, from a sitting account |
| FinalityAttempts.PruneProvesExactly | chain/node/src/finality.rs:523-534 | whatever view votes were let in under, re-reading the epoch start keeps those of the true committee; a proof of the kept votes for a hash is accepted exactly when the accounts they speak for, under the delegation re-read, reach alpha |
| FinalityAttempts.DecidingTickRejected | chain/node/src/finality.rs:638-646 | the tick that decides has a quorum of votes in hand, and every node that has the epoch start rejects its proof exactly when the accounts those votes speak for fall short of alpha |
| FinalityBoundary.WithdrawnKeyBreaksProof | chain/node/src/finality.rs:523-534 | against the comment that the prune keeps the proof acceptable: a worker that let in the vote of a key withdrawn by the epoch start decides, and every node rejects its proof |
| FinalityRun.SeatedKeysHold | chain/node/src/finality.rs:523-534 | votes let in under the view of the epoch start keep speaking for their accounts: only those let in before that block arrived can change hands |
| FinalityRun.TickSound | chain/node/src/finality.rs:443-680 | a tick, with whatever votes are in hand, keeps: held votes are valid, for this height, one per account of the view; a count is of the true committee; a decision has the signatures of the accounts its votes spoke for, and a first one a quorum of votes |
| FinalityRun.ImportIsBacked | chain/node/src/finality.rs:1133-1152 | a proof accepted by a node that has the epoch start carries a quorum of signatures |
| FinalityRun.StepKeepsInv | chain/node/src/finality.rs:399-712 | ticks, deliveries, proof imports and restarts, in any order and with any bytes, keep every decision and every finalised block backed by the signatures of its voices, across epoch boundaries with changing committees and keys |
| FinalityRun.RunKeepsInv | chain/node/src/finality.rs:399-712 | the same over every run of any number of workers |
| FinalityRun.RunFirm | chain/node/src/finality.rs:523-534 | over every run, a node whose keys held decides only on a quorum of voices, whatever other nodes do |
| FinalityRun.AccountableSafety | chain/node/src/finality.rs:602-610 | if a run finalises two hashes at one height, the accounts caught with valid signatures on both are at least the voices of the two less the committee; for claims by proof, or by the tally of nodes whose keys held, at least 2 alpha - k, two fifths of the committee |
| FinalityAttempts.VotesProveExactly | chain/node/src/finality.rs:638-646 | a proof of any votes in hand, on a first decision or a retry: the verdict by the accounts its votes speak for, and by their number if no key was lost |
| FinalityAttempts.AttemptsConvince | chain/node/src/finality.rs:638-646 | at every tick of every run the verdict of every node that has the epoch start on the attempt is exactly that; if the keys of the node held, a first decision is accepted, and a retry exactly if the votes still held for the hash reach alpha |
| FinalityLiveness.QuorumDecides | chain/node/src/finality.rs:602-646 | an undecided worker whose votes after the prune carry a quorum for a hash has decided it after beta ticks, whatever it preferred before |
| FinalityLiveness.QuorumDecidesInRun | chain/node/src/finality.rs:602-646 | the same in the network, next to all decisions made before |
| FinalityLiveness.StallDecidesNothing | chain/node/src/finality.rs:610-646 | while fewer than 60% of the committee have been heard nothing is decided, over any number of ticks, and the stalled ticks are counted |
| FinalityConvergence.CommitteeDecides | chain/node/src/finality.rs:443-708 | convergence over runs: if nodes holding a quorum of seats agree on the block of their height and each hears the vote each other cast, each decides that block after beta further ticks, with own votes, repeats, any order and any other votes of the rest of the committee in between |
| FinalityMeeting.TheyDecide | chain/node/src/finality.rs:443-708 | a run of two nodes in which both vote, hear each other and decide |
| FinalityLatch.OneDecisionPerHeight | chain/node/src/finality.rs:638-679 | a node never decides two hashes for one height over a whole run, whatever its chain shows it, if it restarts only once what it decided is final |
| FinalityLatch.RestartLatchesExactly | chain/node/src/finality.rs:416-417 | the round lives in memory: a restart keeps decisions irreversible if and only if finality is past everything the node decided |
| FinalityLiveness.ForgottenDecisionIsRemade | chain/node/src/finality.rs:638-646 | else, a quorum of votes for another hash makes the node decide the height again |
| FinalityRestart.RestartForgets | chain/node/src/finality.rs:416-417 | against the claim that a decision is immutable: a run in which a node decides one block, restarts before it is final, and decides another at the same height |
| ProofWorker.ProofWorker.Apply | chain/node/src/finality.rs:1419-1504 | nothing to do at or below finality; above it a block of the own chain is finalised on a proof that stands for it; the watermark moves only then |
| ProofWorker.ProofWorker.OnTimer | chain/node/src/finality.rs:1361-1386 | the timer: the watermark follows finality, the cached proof is tried and dropped when applied or overtaken |
| ProofWorker.ProofWorker.OnMessage | chain/node/src/finality.rs:1399-1410 | a message above the watermark is cached if higher and tried at once |
| ProofWorker.MessageRead | chain/node/src/finality.rs:1213-1222 | a message is height, hash and at least two bytes more; at or below the watermark, or shorter, it changes nothing |
| ProofWorker.SurvivesExactly | chain/node/src/finality.rs:1361-1410 | a cached proof survives the timer exactly if it is neither final nor applicable, and a message exactly if that is ignored, or is not higher and is itself neither final nor applicable |
| ProofWorker.HeldThroughout | chain/node/src/finality.rs:1361-1410 | over every run a cached proof is held throughout if and only if every move spares it |
| ProofWorker.CacheHoldsHighest | chain/node/src/finality.rs:1343-1346 | at every moment of every run the cache holds the first of the highest proofs admitted since it was last emptied |
| ProofWorker.GapClosesExactly | chain/node/src/finality.rs:1343-1346 | the timer applies a proof that came before its block if and only if it is the highest heard since the cache was last emptied |
| ProofGap.LowerProofForgetsHigher | chain/node/src/finality.rs:1402-1408 | against the comment that the highest proof is kept: at real proof bytes, applying the proof of block 10 forgets that of block 20, and the timer has nothing to apply when block 20 arrives |
| ProofWorker.UnreachableStays | chain/node/src/finality.rs:1399-1410 | headers are cached unverified: a bare header of the largest height is dislodged exactly by a message that is final already or applied on arrival |
| ProofWorker.UnreachableStarves | chain/node/src/finality.rs:1361-1410 | over every run, while it stays nothing is finalised through received proofs, on the timer or otherwise |
| ProofGap.BareHeaderStarves | chain/node/src/finality.rs:1402-1408 | at real bytes: after such a header the proof of block 20, heard before the block, is never applied; without it it is |
| ProofWorker.FinalisesOnlyProven | chain/node/src/finality.rs:1419-1504 | over every run, through received proofs a node finalises only a block of its own chain, proven by a message it had heard, above its finality |
| ProofWorker.WatermarkWithinFinality | chain/node/src/finality.rs:1427-1430 | one move keeps the watermark within finality, and the timer brings it up to finality, if and only if a height it applied fits a block number |
| ProofWorker.WatermarkRises | chain/node/src/finality.rs:305-308 | over every run whose applied heights fit, the watermark never goes back and never passes finality |
| ProofWorker.AppliesAsImport | chain/node/src/finality.rs:1419-1504 | what it finalises on a coherent chain is a trusted import of the network runs, so accountable safety covers it |
| Beacon.SortedUnique | chain/consensus-core/src/beacon.rs:67-75 | a sorted list is determined by its contents |
| Beacon.BeaconSeed | chain/consensus-core/src/beacon.rs:67-75 | the fold over the sorted contributions, which Beacon.SeedBinds shows to depend on every one of them |
| Beacon.SeedOrderIndependent | chain/consensus-core/src/beacon.rs:67-75 | any order of the same contributions gives the same seed |
| Beacon.LargestIsLast | chain/consensus-core/src/beacon.rs:67-75 | contributions are hashed in ascending order: the largest is appended last to the seed of the others |
| Beacon.SeedBinds | chain/consensus-core/src/beacon.rs:50-75 | unless the hash collides on the inputs of the two folds, as many contributions give the same seed if and only if they are the same bag mixed into the same seed |
| Beacon.HexInjective | chain/consensus-core/src/beacon.rs:80-88 | no two digests share a hex string |
| Beacon.HexReadsBack | chain/consensus-core/src/beacon.rs:80-88 | each byte is two lower-case hex digits, the high half first |
| Beacon.VerifiedSecretKeys | chain/consensus-core/src/beacon.rs:96-106 | exactly the nodes whose secret opens their commitment are kept, keyed by the hex of the commitment itself |
| Beacon.BeaconState.Commit | chain/consensus-core/src/beacon.rs:175-177 | one outstanding commitment per node, the last one |
| Beacon.BeaconState.Reveal | chain/consensus-core/src/beacon.rs:181-189 | a secret is staged only if it opens the awaited commitment |
| Beacon.BeaconState.Roll | chain/consensus-core/src/beacon.rs:194-204 | the epoch boundary: fold, promote, advance, clear; the new beacon commits to what was staged by Beacon.RollBinds |
| Beacon.RollBinds | chain/consensus-core/src/beacon.rs:194-204 | two epochs that stage as many secrets end with the same beacon if and only if they began with the same one and staged the same bag of secrets |
| Beacon.HistoryBinds | chain/consensus-core/src/beacon.rs:175-204 | over whole histories: the beacon at the end determines the genesis beacon and the bag of secrets staged in every epoch |
| Beacon.WithinEpoch | chain/consensus-core/src/beacon.rs:175-189 | after any calls of an epoch, a node is pending with its last commitment and staged with its last opening |
| Beacon.BeaconLocking | chain/consensus-core/src/beacon.rs:175-204 | over every run, a key is active in an epoch if and only if its node committed two epochs before and opened that commitment one epoch before, and it is the hex of the last commitment |
| Beacon.NoGrinding | chain/consensus-core/src/beacon.rs:175-204 | two runs that agree up to the commitments give an active node the same key, whatever it reveals |
| PalletBeacon.Pallet.Reveal | chain/pallet-beacon/src/lib.rs:152-162 | the call: no or wrong opening is a bad reveal, an oversized opening is refused, otherwise staged |
| PalletBeacon.Pallet.Roll | chain/pallet-beacon/src/lib.rs:168-194 | the storage loops compute the new seed and move the maps, whatever order the maps iterate in; the seed commits to what was staged by PalletBeacon.RolledBinds |
| PalletBeacon.RolledBinds | chain/pallet-beacon/src/lib.rs:168-194 | on chain too: as many staged secrets give the same beacon if and only if both beacon and bag of secrets were the same, whatever order each storage iterates in |
| PalletBeacon.Pallet.OnInitialize | chain/pallet-beacon/src/lib.rs:126-132 | the beacon rolls exactly at the non-zero multiples of a non-zero epoch length |
| PalletBeacon.Pallet.CommittedKey | chain/pallet-beacon/src/lib.rs:203-206 | the key read back is the hex of the hash of the active secret |
| PalletBeacon.SameContributions | chain/pallet-beacon/src/lib.rs:171-173 | two enumerations of a storage map contribute the same multiset |
| PalletBeacon.RollRefines | chain/pallet-beacon/src/lib.rs:168-194 | the on-chain roll is the core roll under the abstraction that hashes stored secrets |
| PalletBeacon.RevealRefines | chain/pallet-beacon/src/lib.rs:152-162 | the on-chain reveal is the core reveal if and only if the secret fits or does not open |
| PalletBeacon.PalletRefinesCore | chain/pallet-beacon/src/lib.rs:141-194 | every call sequence whose secrets fit drives both machines through the same states |
| PalletBeacon.EpochsClosed | chain/pallet-beacon/src/lib.rs:126-132 | blocks 0 to b close b / length epochs, none if the length is zero |
| PalletBeacon.OnChainLocking | chain/pallet-beacon/src/lib.rs:126-206 | end to end on chain: after any calls and blocks an account has a key if and only if it committed in the epoch before last and opened its last commitment there in the last one, and it is that commitment in hex |
| Sortition.NonDecreasingToMode | chain/consensus-core/src/sortition_fp.rs:95-102 | weights do not decrease up to floor(lam) |
| Sortition.StrictlyDecreasingAfterMode | chain/consensus-core/src/sortition_fp.rs:83-90 | weights strictly decrease after floor(lam) and more than halve past twice it |
| Sortition.WindowCloses | chain/consensus-core/src/sortition_fp.rs:83-90 | the weight at 2 floor(lam) + 61 is zero for every lam, so the last index of the window is below it and both loops end |
| PoissonLaw.WeightsArePoisson | chain/consensus-core/src/sortition_fp.rs:76-113 | the weight of the mode is 10^18 and every weight is to it as x^k/k! is to x^m/m!, rounded down by at most one unit a step, for every expectation |
| Sortition.PoissonWeights | chain/consensus-core/src/sortition_fp.rs:76-113 | the two outward loops build the whole window and its total; the weights are Poisson's by PoissonLaw.WeightsArePoisson |
| Sortition.TotalPositive | chain/consensus-core/src/sortition_fp.rs:121-124 | the total is at least the anchor, so the guards on a total of zero never fire |
| Sortition.PoissonCdf | chain/consensus-core/src/sortition_fp.rs:117-128 | the distribution value of a seat count, near the exact law by PoissonLaw.CdfIsPoisson |
| Sortition.CdfMonotone | chain/consensus-core/src/sortition_fp.rs:117-128 | the distribution is monotone, at most one, and reaches one at the end of the window |
| PoissonLaw.CdfIsPoisson | chain/consensus-core/src/sortition_fp.rs:117-128 | for every expectation and count the value is the exact Poisson P(X <= j), to one unit and (2m + 62)^2 parts in 10^9 of a unit |
| Sortition.SortitionSeats | chain/consensus-core/src/sortition_fp.rs:133-153 | the one-pass walk returns the least seat count below the cap whose distribution value exceeds the draw, else the cap |
| Sortition.SeatsMonotone | chain/consensus-core/src/sortition_fp.rs:133-153 | a larger draw never earns fewer seats, and a proper draw stays under a cap that covers the window |
| PoissonLaw.SeatsArePoisson | chain/consensus-core/src/sortition_fp.rs:133-153 | seats are quantiles of the exact Poisson law: a draw above P(X <= j) by the slack earns more than j seats, one below it by a unit and the slack at most j |
| PoissonLaw.SmallStakesWinSeats | chain/consensus-core/src/sortition_fp.rs:133-153 | an account that expects x < 1 seats has one as soon as its draw reaches 1/(1 + x) |
| Sortition.ProductsFitI128 | chain/consensus-core/src/sortition_fp.rs:83-113 | for every expectation a 32-bit tau can produce, no product leaves the signed 128-bit range |
| Election.VrfValue | chain/consensus-core/src/sortition_fp.rs:158-168 | the draw is the first eight bytes of the hash of key, bar and seed as a number, scaled |
| Election.DrawInRange | chain/consensus-core/src/sortition_fp.rs:158-168 | every draw is below one |
| Election.DrawBelow | chain/consensus-core/src/sortition_fp.rs:158-168 | a draw is below v parts in FP if and only if the first eight bytes of the digest, as a fraction of 2^64, are |
| Election.DrawInputsSeparate | chain/consensus-core/src/sortition_fp.rs:158-168 | keys of one length, or without a bar, share the bytes that are hashed exactly if key and seed are the same |
| Election.DrawsSeparate | chain/consensus-core/src/sortition_fp.rs:158-168 | whenever key or seed differ some hash function gives one the largest draw and the other the smallest |
| Election.DustHasNoSeats | chain/consensus-core/src/sortition_fp.rs:190-203 | reputation r expects nothing if and only if tau is 0 or r FP < total, and then wins no seat for any key and seed |
| Election.ExpectedSeatsConserved | chain/consensus-core/src/sortition_fp.rs:180-205 | with n positive accounts the expected seats add up to more than tau FP - tau n and at most tau FP |
| Election.SplittingNeverPays | chain/consensus-core/src/sortition_fp.rs:190-192 | splitting one reputation over any number of accounts never raises its expected seats |
| FinalityCommittee.ElectCommittee | chain/consensus-core/src/sortition_fp.rs:174-207 | the election loop seats exactly the accounts with positive reputation, a key and at least one seat |
| FinalityCommittee.ElectFinalityCommittee | chain/consensus-core/src/sortition_fp.rs:230-319 | the whole election: bound accounts, mode, keys, draw, redraws; what it elects is ElectionLaw.ElectionIs |
| ElectionLaw.ElectionIs | chain/consensus-core/src/sortition_fp.rs:230-319 | the committee is the winners of one draw, the first of the largest among the own draw and at most 32 redraws that go on until min(4, eligible) seats are filled; a winner has a positive last entry, a bound node, a key, and at least one of 64 seats for its share with that key and the seed of that draw, both spelled out |
| ElectionSeeds.ModeFixesSeed | chain/consensus-core/src/sortition_fp.rs:273-291 | in beacon mode the epoch number plays no part; in the fallback the beacon plays none |
| ElectionSeeds.SeedsSeparate | chain/consensus-core/src/sortition_fp.rs:273-308 | under one prefix no two beacons, no two 32-bit epochs, no beacon and epoch and no two redraws share a seed |
| ElectionSeeds.ChanceSeparates | chain/consensus-core/src/sortition_fp.rs:158-313 | two draws share their hash input if and only if mode, beacon or epoch, redraw and key are the same; otherwise some hash function gives one the largest draw and the other the smallest |
| ElectionSeeds.FallbackKeysSeparate | chain/consensus-core/src/sortition_fp.rs:273-279 | in the fallback two accounts never share a key and no key has a bar in it |
| FinalityCommittee.RedrawsNeverShrink | chain/consensus-core/src/sortition_fp.rs:303-313 | the kept draw is the earliest largest of the draws made; drawing stops at the floor or at 32 redraws |
| FinalityCommittee.MembersAreEligible | chain/consensus-core/src/sortition_fp.rs:242-319 | a member is bound, has positive reputation and, in beacon mode, a committed key; a halt seats no one |
| FinalityCommittee.BeaconModeNeedsCommitters | chain/consensus-core/src/sortition_fp.rs:260-272 | beacon mode is on if and only if some bound entry is reputable and at least min(4, reputable) reputable entries have a committed key |
| FinalityCommittee.NonInterference | chain/consensus-core/src/sortition_fp.rs:230-319 | for any lists, repeats included, the elected set depends only on the bag of positive entries of bound accounts, on what each stands for by its last entry, and on their keys |
| FinalityCommittee.OutsidersChangeNothing | chain/consensus-core/src/sortition_fp.rs:230-319 | unbound accounts and their keys, wherever they stand, change nothing |
| FinalityCommittee.InterleavingIsIrrelevant | chain/consensus-core/src/sortition_fp.rs:230-319 | entries of different accounts may pass each other: only the order in which one account is named counts |
| FinalityCommittee.NonInterferenceOfSets | chain/consensus-core/src/sortition_fp.rs:230-319 | lists that name each account once are sets: reordering, unbound or non-positive accounts, and keys for those, change nothing |
| Reputation.PretrustIsDistribution | reputation-engine/harlequin_rep/reputation.py:28-48 | the anchor is non-negative and has mass one if and only if there is evidence, a genesis seed or a human |
| Reputation.PretrustShares | reputation-engine/harlequin_rep/reputation.py:28-48 | each agent is anchored in proportion to its evidence plus, for a genesis seed, the genesis weight; if nobody has any, the humans in equal parts |
| Reputation.Step | reputation-engine/harlequin_rep/reputation.py:88-106 | one pass with its leak gathered apart equals the step with every row completed to mass one |
| Reputation.ReputationDimension | reputation-engine/harlequin_rep/reputation.py:51-113 | the result is the scaled iterate at the first step that moved less than tol, or at the iteration cap |
| Reputation.NextIsDistribution | reputation-engine/harlequin_rep/reputation.py:88-106 | a step keeps entries non-negative and total mass one |
| Reputation.Contraction | reputation-engine/harlequin_rep/reputation.py:88-106 | a step contracts the L1 distance of any two vectors by 1 - alpha |
| Reputation.FixedPointUnique | reputation-engine/harlequin_rep/reputation.py:88-106 | there is at most one fixed point |
| Reputation.DeltaShrinks | reputation-engine/harlequin_rep/reputation.py:107-111 | the n-th step moves at most 2 (1 - alpha)^n |
| Reputation.DefaultsConverge | reputation-engine/harlequin_rep/reputation.py:51-111 | with alpha 0.3 and tolerance 1e-12 the loop always converges, within 81 of its 200 iterations |
| Reputation.StaysConverged | reputation-engine/harlequin_rep/reputation.py:107-111 | however many more iterations were run, they would stay within tol (1 - alpha) / alpha of a converged result |
| Reputation.NearFixedPoint | reputation-engine/harlequin_rep/reputation.py:107-111 | a converged result is within tol (1 - alpha) / alpha of every fixed point |
| Reputation.LaunderingBound | reputation-engine/harlequin_rep/reputation.py:85-111 | accounts without evidence keeping at most rho inside and receiving at most b per step hold at most (1 - alpha) b / (1 - (1 - alpha) rho), at every step |
| Reputation.RowsBoundInflow | reputation-engine/harlequin_rep/reputation.py:92-101 | a bound on each outsider row bounds the inflow of every step |
| Reputation.SybilsHoldNothing | reputation-engine/harlequin_rep/reputation.py:85-111 | accounts without evidence or outside voucher hold exactly zero forever |
| EarnedReputation.SybilsEarnNothing | reputation-engine/harlequin_rep/reputation.py:51-113 | from the graph up: accounts without evidence whom nobody outside vouches for hold exactly zero at every step, whatever damping is on and even when nobody has an anchor |
| EarnedReputation.OfDimension | reputation-engine/harlequin_rep/reputation.py:51-113 | the whole dimension: communities, damped matrix, anchor, iteration to convergence, and accounts without evidence or outside voucher get zero; what a funnel gets from the same matrix is Funnel.FunnelHoldsLittle |
| TrustGraph.TrustGraph.Attest | reputation-engine/harlequin_rep/graph.py:26-31 | a vouch adds to its edge, never to oneself, and leaves all other edges and dimensions alone |
| TrustGraph.OverlapInUnit | reputation-engine/harlequin_rep/graph.py:64-67 | the neighbour overlap is a fraction, zero exactly without a common neighbour |
| TrustGraph.IndependenceBounds | reputation-engine/harlequin_rep/graph.py:42-69 | independence lies in [1/(1+beta+gamma), 1], is at most 1/(1+beta) on a mutual vouch, and is 1 exactly without reciprocity and overlap |
| TrustGraph.IndependenceIs | reputation-engine/harlequin_rep/graph.py:42-69 | in counts: 1/independence is 1, plus beta if the vouch is returned, plus gamma for the share of common ones among all either end vouches for |
| TrustGraph.BestIsDominant | reputation-engine/harlequin_rep/graph.py:93-94 | the label taken is the smallest of the most common among the neighbours |
| TrustGraph.StableIsDominant | reputation-engine/harlequin_rep/graph.py:85-100 | a sweep that changes nothing leaves every node the smallest of the most common labels of its neighbours |
| TrustGraph.Communities | reputation-engine/harlequin_rep/graph.py:71-100 | in-place sweeps in fixed order; stopping at the first quiet sweep gives the labels of all fifteen |
| TrustGraph.LabelsStayHome | reputation-engine/harlequin_rep/graph.py:85-100 | whatever order nodes update in, a label never leaves its connected component |
| TrustGraph.SameCommunityIsConnected | reputation-engine/harlequin_rep/graph.py:71-100 | two nodes of one community are joined by a path of vouches |
| TrustGraph.StarIsOneCommunity | reputation-engine/harlequin_rep/graph.py:71-100 | accounts that all vouch for one and are tied to nobody else end in one community with it, however they are numbered |
| DampedMatrix.InflowConserved | reputation-engine/harlequin_rep/graph.py:152-158 | grouping inflow by community loses nothing |
| DampedMatrix.InConcentrationSignals | reputation-engine/harlequin_rep/graph.py:124-171 | the signal of every target from the accumulated inflow and vouchers |
| DampedMatrix.HerfindahlBounds | reputation-engine/harlequin_rep/graph.py:166-167 | the concentration of shares over m communities lies in [1/m, 1] |
| DampedMatrix.SignalBounds | reputation-engine/harlequin_rep/graph.py:124-171 | with vouchers the shares sum to one and the gate lies in (0, 1); without, the signal is silent |
| EarnedReputation.DampedLocalMatrix | reputation-engine/harlequin_rep/graph.py:173-249 | the matrix of a graph with the communities its own label propagation finds; what its entries do is in the Funnel and DampedMatrix rows |
| DampedMatrix.FactorBounds | reputation-engine/harlequin_rep/graph.py:225-239 | every damping factor lies in (0, 1] and never exceeds independence |
| DampedMatrix.FactorParts | reputation-engine/harlequin_rep/graph.py:225-239 | a factor is the product of independence at beta 4 and gamma 4, community penalty and funnel penalty, and below each |
| Funnel.InbredPenaltyIs | reputation-engine/harlequin_rep/graph.py:102-122 | a vouch inside a community with v inner vouches and evidence E keeps exactly (1 + E)/(1 + E + kappa v) of its weight, all of it exactly if kappa or v is zero; one across communities keeps all |
| Funnel.EvenPressure | reputation-engine/harlequin_rep/graph.py:229-238 | a target to which m communities give equally much is under pressure mu gate deficit / m^3 from each of them and none from others |
| Funnel.FunnelPenaltyIs | reputation-engine/harlequin_rep/graph.py:229-238 | a vouch for a target without evidence, all of whose n vouchers sit in the community of the voucher, keeps exactly (n + k0)/(n + k0 + mu n) |
| Funnel.FunnelSparesExactly | reputation-engine/harlequin_rep/graph.py:229-238 | no funnel penalty if and only if mu is zero or nobody of the voucher's community vouches for the target |
| DampedMatrix.DampedIsSubstochastic | reputation-engine/harlequin_rep/graph.py:241-249 | rows are non-negative and sum to at most one under every setting |
| DampedMatrix.RowKeeps | reputation-engine/harlequin_rep/graph.py:241-249 | what a row keeps inside a set is at most the largest factor on its vouches into it |
| Funnel.FunnelRows | reputation-engine/harlequin_rep/graph.py:225-249 | a row delivers at most that rate to the target of a funnel |
| Funnel.FeederDelivers | reputation-engine/harlequin_rep/graph.py:225-249 | a feeder with no other tie delivers exactly that |
| Funnel.FunnelHoldsLittle | reputation-engine/harlequin_rep/reputation.py:85-111 | through the iteration: at every step the target gets at most (1 - alpha) times that rate of what its vouchers held |
| Funnel.StarFunnelHoldsLittle | reputation-engine/harlequin_rep/reputation.py:85-111 | from the graph up, communities included: accounts tied only to the one they pump leave it at most (1 - alpha)(n + k0)/(n + k0 + mu n) |
| Funnel.CommunityKeepsLittle | reputation-engine/harlequin_rep/graph.py:102-122 | a community without evidence in which k members vouch for members keeps at most 1/(1 + kappa k) of each row |
| Funnel.CommunityHoldsLittle | reputation-engine/harlequin_rep/reputation.py:85-111 | and at most (1 - alpha) b / (1 - (1 - alpha)/(1 + kappa k)) of the mass if outsiders give it at most b |
| DampedMatrix.RingKeepsLittle | reputation-engine/harlequin_rep/graph.py:42-69 | a fully reciprocal ring keeps at most 1/(1 + 4) of each row inside |
| DampedMatrix.RingHoldsLittle | reputation-engine/harlequin_rep/reputation.py:85-111 | graph and iteration together: with the defaults such a ring without evidence, given at most b by each outsider, holds at most 0.7 b / 0.86 |
| Vouch.VouchRegistry.SponsorLink | reputation-engine/harlequin_rep/vouch.py:35-36 | a link takes one place of its sponsor |
| Vouch.VouchRegistry.Graduate | reputation-engine/harlequin_rep/vouch.py:44-56 | graduating clears the live flag of the pair and keeps every link; it reports whether any was live |
| Vouch.QuotaFreed | reputation-engine/harlequin_rep/vouch.py:41-56 | graduating gives the sponsor back exactly the places the pair took, and nobody else any |
| Vouch.Cascade.Apply | reputation-engine/harlequin_rep/vouch.py:101-107 | the recursion charges each known agent the sum of what every branch brings, clamped at zero |
| Vouch.CascadeSlashing | reputation-engine/harlequin_rep/vouch.py:81-110 | slashing as a whole; the input is not changed |
| Vouch.DuesClosedForm | reputation-engine/harlequin_rep/vouch.py:101-107 | what is owed is the loss times the weighted number of sponsor-link walks |
| Vouch.CascadeClosedForm | reputation-engine/harlequin_rep/vouch.py:81-110 | every agent ends at max(0, before - loss * sum of fraction^i over the walks of length i <= depth), cycles included, also for non-positive loss or fraction |
| Vouch.ReachedExactlyByWalks | reputation-engine/harlequin_rep/vouch.py:101-107 | an agent is charged if and only if some walk of at most depth links leads to it |
| Vouch.LiabilityPersists | reputation-engine/harlequin_rep/vouch.py:38-56 | link order and graduation change nobody's charge |
| VotingRun.CumWeights | chain/consensus-core/src/sim.rs:73-81 | running totals with negative weights as zero |
| VotingRun.WeightedPick | chain/consensus-core/src/sim.rs:85-102 | the bisection returns the node on whose share of the total the draw of the unit interval falls, and any node by remainder without weights |
| VotingRun.PicksByShare | chain/consensus-core/src/sim.rs:83-106 | the draws that pick a node are an interval of the length of its share of the weight |
| VotingRun.DrawSample | chain/consensus-core/src/sim.rs:230-255 | k picks of the own side within the cap; the uncapped fallback fills up only after 40 k draws under a cap below k, of which some were refused by a full cluster |
| VotingRun.HeardExactly | chain/consensus-core/src/sim.rs:229-256 | a sample counts exactly the reports of the picks whose response arrived |
| VotingRun.ReportsPreference | chain/consensus-core/src/sim.rs:193-199 | at every moment of every run an honest node reports what it prefers, decided or not |
| VotingRun.AdversaryBacksMinority | chain/consensus-core/src/sim.rs:205-215 | the adaptive adversary backs the colour fewer honest nodes report, 1 on a tie |
| VotingRun.QuorumIsShare | chain/consensus-core/src/sim.rs:258-268 | a node may finalise exactly if no quorum is asked for or its side holds that share of all weight |
| VotingRun.RunOnce | chain/consensus-core/src/sim.rs:155-284 | every outcome of the run, over all draws, losses and partitions, is the tally of a complete legal trace |
| VotingRun.EachInTurn | chain/consensus-core/src/sim.rs:216-269 | within a round nodes move in turn: each counts its sample as earlier nodes have left them and later ones have not yet moved |
| VotingRun.SideStaysAtZero | chain/consensus-core/src/sim.rs:155-285 | over every run with alpha at least 1, while the partition lasts a side without adversaries neither prefers nor decides anything but 0, whoever is on the other sides |
| VotingRun.CapSafety | chain/consensus-core/src/sim.rs:235-269 | with the adversaries' clusters capped below alpha and no fallback, no honest node ever prefers or decides 1 |
| VotingRun.PowerlessAdversariesLose | chain/consensus-core/src/sim.rs:155-284 | adversaries without reputation: every complete run ends after exactly beta rounds with all honest nodes at 0 |
| VotingRun.OneSideDecides | chain/consensus-core/src/sim.rs:258-268 | with a quorum above one half, all nodes that have decided in a run while the partition lasts lie in one group |
| EventRig.Network.Schedule | consensus-simulator/testrig/network.py:47-49 | an event enters in (time, sequence) order, never before now |
| EventRig.Network.Send | consensus-simulator/testrig/network.py:51-57 | a message is scheduled or counted as dropped |
| EventRig.Network.Pop | consensus-simulator/testrig/network.py:65-67 | events fire in (time, sequence) order and the clock follows them |
| EventRig.Rig.StartRound | consensus-simulator/testrig/engine.py:113-132 | a round samples k reachable peers and fixes the reachable fraction at the time of drawing |
| EventRig.Rig.Conclude | consensus-simulator/testrig/engine.py:134-153 | at the deadline the voting rule is applied to what arrived, with the quorum of the sample; undecided, the next query is scheduled after the gap |
| EventRig.Rig.AnswersPreference | consensus-simulator/testrig/engine.py:50-54 | whoever is asked, an honest member answers what it prefers, decided or not |
| EventRig.FinalisesOnShare | consensus-simulator/testrig/engine.py:103-111 | a sample may finalise exactly if no quorum is asked for or those reachable when it was drawn hold that share of the standing |
| EventRig.Rig.Fire | consensus-simulator/testrig/engine.py:113-153 | an event changes only what it should: a deadline the vote of its node, an answer its sample, a query the rounds of its node |
| EventRig.Rig.RunUntil | consensus-simulator/testrig/network.py:59-69 | the drain always terminates, keeps every decision founded on a sample that reached the quorum, keeps messages sent equal to those dropped, acted on and on their way, and turns the clock back only for a deadline already past |
| EventRig.RunEpoch | consensus-simulator/testrig/engine.py:56-165 | the whole epoch and its tally, every message accounted for: where no adversary speaks for 1 no honest member ends at 1, and with a quorum above one half the decisions on partition-time samples lie in one group |
| ContentId.EncodeSymbols | chain/content-id/src/lib.rs:75-89 | the encoder with its wrapping 32-bit register emits the symbols of the lossless bit stream |
| ContentId.EncodeUnbounded | ops/hlq-mediator.py:288-302 | the gateway's unbounded accumulator emits the same symbols |
| ContentId.Decode | chain/content-id/src/lib.rs:91-109 | the decoder accepts exactly the strings over the alphabet and returns the whole bytes they carry |
| ContentId.SymbolsValue | chain/content-id/src/lib.rs:75-89 | ceil(8n/5) symbols whose base-32 value is the base-256 value shifted by the padding |
| ContentId.DecodeUndoesEncode | chain/content-id/src/lib.rs:75-109 | decoding undoes encoding for every byte string |
| ContentId.TextRoundTrip | chain/content-id/src/lib.rs:75-109 | the same through the alphabet |
| ContentId.CidV1RawFromDigest | chain/content-id/src/lib.rs:45-53 | the identifier string of a digest |
| ContentId.GatewayCid | ops/hlq-mediator.py:288-302 | the gateway renders the same identifier |
| ContentId.DigestFromCid | chain/content-id/src/lib.rs:57-71 | a string is accepted if and only if it is the identifier of a digest, and then that digest is returned |
| ContentId.CidInjective | chain/content-id/src/lib.rs:57-71 | no string names two digests |
| ContentId.AlphabetIs | chain/content-id/src/lib.rs:73 | the letters are those of RFC 4648, table 3, in lower case |
| ContentId.CidBegins | chain/content-id/src/lib.rs:45-53 | every identifier has 59 characters and begins with bafkrei |
| Forum.PreparedIsReadable | chain/forum-core/src/lib.rs:94-119 | what could be prepared is verified and read as the same text |
| Forum.AcceptedExactly | chain/forum-core/src/lib.rs:78-119 | bytes are accepted as a text if and only if they hash to the digest and are its canonical form of allowed length |
| Forum.RefusedBecause | chain/forum-core/src/lib.rs:78-119 | each error, of readers and authors, exactly when it is given |
| Forum.CidNamesDigest | chain/forum-core/src/lib.rs:94-109 | the published identifier names exactly the digest on chain |

## Left out

- Networking, gossip expiry and horizon, RPC, telemetry, timers and logging: the model keeps the worker's state and its reads of the chain.
- Conflicts between finalised blocks at different heights: they rest on the client's ancestor check, which is not in these files.
- FinalityRun.AccountableSafety: one committee and one delegation map per height, those of the epoch's first block; two forks with different first blocks of one epoch are not covered. Reads above a node's own chain are unrestricted, and so is what becomes of keys.
- FinalityRun.ImportIsBacked: for a node that has the epoch's first block. `import_block` checks the justification of a block before importing it, so for the first block of an epoch it reads the best block instead; it only strips a justification and finalises nothing, and is not modelled.
- FinalityLatch.OneDecisionPerHeight: assumes that a successful finalisation moves the finalised number to its height and that heights stay clear of the 32-bit ceiling.
- FinalityLiveness.QuorumDecides: for ticks that cast no vote of their own and between which no vote arrives; FinalityConvergence.CommitteeDecides is about runs in which votes are cast and arrive.
- FinalityConvergence.CommitteeDecides: that chains come to agree and that gossip delivers are hypotheses; both are outside these files.
- ProofWorker.WatermarkRises: for applied heights that fit 32-bit block numbers, and chain views that show what the worker finalised; ProofWorker.WatermarkWithinFinality says what happens otherwise.
- ProofWorker.ProofWorker.OnTimer: the re-broadcast of the node's own latest proof is left out.
- Voting.FinalityRound.ObserveRound: streaks and counts are unbounded naturals; the source uses 32 bits and cannot reach the limit with 80 rounds.
- The committee a worker reads is a function of epoch and pinned block; the election it comes from is FinalityCommittee, and the join of the two through the runtime API is not modelled.
- Sortition.ProductsFitI128: covers the weight recursion and the walk; the product of one account's reputation with FP is not bounded by the source.
- `exp_neg_fp` and real exponentials: PoissonLaw compares with the exact law as ratios of x^k/k! and of their finite sums.
- Beacon.HistoryBinds: for histories that stage equally many secrets in each epoch; Beacon.FoldBinds says what two folds of different length share.
- Funnel.FunnelHoldsLittle: for targets whose vouchers sit in one community; for several, Funnel.EvenPressure gives the penalty when they give equally much.
- `BeaconState::elect` and `elect_committee_committed`, which only chain modelled parts.
- Reputation.DefaultsConverge: over the reals; rounding of floats is not modelled.
- `conservative_aggregate`, `decay`, `vouch_quota` and `mentor_dividend`: one-line formulas.
- TrustGraph.Communities: identifiers are numbers in their sorted order.
- DampedMatrix.InConcentrationSignals: accumulates target by target; the source loops over sources first and fills all targets.
- VotingRun.RunOnce: the nodes are values of `Voting.Ballot`, advanced by the rule that `SnowballNode` is proved to follow, rather than mutable objects; the Python reference run has the same steps and is not a second model.
- VotingRun.CapSafety: needs that no sample was topped up without the cap; with the fallback a sample may be all adversaries.
- The percentages the simulators report, population builders and epoch drivers around one run.
- EventRig.RunEpoch: the message counters of the result and the election of the committee are left out.
- `pallet-directory`, `pallet-forum`, `pallet-manifesto`, `manifesto-core`, `txguard`, the slot leader and the web and operations code.
