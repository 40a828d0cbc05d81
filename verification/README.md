# A verified model of the Ordexus node core

This project models the parts of the proof-of-stake node whose correctness is hardest to see from the code, and
proves what they promise, for every input and every run.

- **Votes and certificates.** Collectors turn stake-weighted votes into quorum certificates. Whatever votes any
  collectors see, two conflicting certificates convict validators that hold more than the Byzantine bound, exactly
  when the two thresholds overlap by more than it. A collector's answers, and how often it certifies a block, follow
  from the list of votes it accepted, and evidence convicts exactly those whose second vote it would refuse
  (`Votes`, `Bitmap`, `Collector`, `VoteHistory`, `AccountableSafety`, `DoubleVotes`, `QuorumForks`,
  `TimeoutCertificates`).
- **Ledger.** A state machine over block, height, transaction, history, account, snapshot and certificate tables
  and a head in memory. Over every run of commits, candidate saves, reorganisations, certificate saves, checkpoint
  advances, suspensions and restarts, the tables and memory describe one parent-linked chain, finalized blocks
  stay, finality follows the head at its depth, and a head once left is never taken again (`Blocks`, `AddressHistory`, `LedgerIndex`, `LedgerStore`, `ForkChoice`, `LedgerSpec`, `LedgerCommit`,
  `LedgerReorg`, `ReorgPlan`, `ReorgOps`, `Reorganize`, `LedgerQC`, `LedgerReload`, `LedgerRuns`, `HistoryRows`,
  `LedgerProgress`, `Ledger`).
- **Parallel execution.** Batches chosen by account locks refine execution one transaction at a time, and a
  verifier that batches the produced block again includes it in the published order exactly when the declared
  accounts keep that order; it then has the producer's accounts and receipts, and only such blocks give every
  verifier the serial receipts (`ChainState`, `ParallelExecution`, `Rebatching`, `ReceiptAgreement`).
- **Money.** Payouts are exact and reach every staker in proportion, block rewards change every balance and the
  supply by exactly what their records say less what slashing burned, credits are the votes that count, and genesis
  gives every address its due of exactly the configured supply (`StakePayout`, `SupplyAccounting`, `Rewards`, `RewardRun`,
  `PayoutRecipients`, `SettlementEffects`, `BlockRewards`, `CreditCounts`, `RewardPool`, `EpochOutcome`,
  `PoolOverdrawn`, `Genesis`, `GenesisBalances`).
- **Message order and ordered storage.** The in-order sequencer and the partitioned dispatcher under every
  interleaving, and byte-key ranges with paging (`Sequencer`, `StrandedMessages`, `Dispatcher`,
  `DispatchRouting`, `KeyCodec`, `Paging`).

`Arithmetic`, `Bytes`, `Sums`, `Uint64` and `Wrappers` hold division facts, byte order, weighted sums, 64-bit
arithmetic and `Option`.
`dafny verify dfyconfig.toml` checks everything.

Objects the node updates in place are classes (`VoteCollector`, `AccountLockSet`, `SharedOrder`, `Ledger`), each
tied by an abstraction function to a pure state; loops are methods proved against functions of their input;
concurrent code is a state machine whose steps are its critical sections.

## What the model assumes

- Block hashes and state roots do not collide, no block hashes to the genesis hash, and the text order of hashes is
  a strict order (`Blocks.Collisionless`). A state root is a function of the address-to-account map.
- Signatures cannot be forged: an aggregate that verifies was signed by each of its voters (`Bitmap.Unforgeable`).
- The transaction executor reads only declared accounts and, of the processed ids, its own; it writes only accounts
  declared writable; every transaction declares one; equal ids mean equal account lists
  (`ParallelExecution.Framed`, `ParallelExecution.Identified`).
- A saved candidate's height fits its parent (`LedgerSpec.WellLinked`): the ledger does not check this, its callers do.
- The account list that block rewards are applied to has no address twice (`ChainState.Unique`).
- Maturing a stake account leaves the effective stake and the credits of an Active validator alone
  (`RewardPool.MaturingKeepsWeight`, as programs/stake/program.go:565-629 does); only the bound of rewards by the pool
  needs this.
- The stake account codec reads back what it writes (`CreditCounts.RoundTrips`); only the counts of votes and missed
  duties need this.
- Stake account codec, rent, stake program, monetary policy, leader schedule and instruction decoding are parameters. Nothing else is
  assumed of them for the money theorems.

## Where the code and its promises part

- cmd/README.md:44 calls confirm and timeout votes two independent phases. The code puts Confirm and Skip into one
  decision phase (consensus/slot.go:469-474, consensus/evidence.go:117-139); the model follows the code.
- A strict whole-stake quorum over the largest possible total makes the threshold wrap to zero
  (`Votes.RequiredStakeExact`); the collector's constructor refuses it (`Collector.HonestIntersection`).
- The constructor compares Confirm with Skip only. Two certificates of one type can conflict although at most the
  Byzantine bound voted twice, exactly when twice their threshold does not exceed the total by more than that bound
  (`QuorumForks.ForkExactlyWhen`, `QuorumForks.UnequalQuorumsMayFork`).
- A checkpoint advance can lower the finalized height, and nothing else can
  (`LedgerRuns.FinalityFallsOnlyByAdvance`, `LedgerRuns.AdvanceCanLowerFinality`).
- A restart fails although the tables are intact when the live state is empty and the account table is not
  (`LedgerRuns.EmptyStateCannotRestart`); `LedgerRuns.RestartAfterRun` gives the exact condition.
- A slash is recorded with the lamports asked for, not the lamports burned (`RewardRun.SlashRecordOverstates`); the two
  agree exactly when the account can afford the slash (`RewardRun.SlashRecordIsTrue`).
- The settlement of an epoch can pay more than the inflation pool: a validator whose status is not Active, such as one
  that announced its exit in the epoch, and a validator flagged for jail but kept so that enough stay active, are paid
  without being counted (`PoolOverdrawn.ExitingOverdraws`, `PoolOverdrawn.KeptOverdraws`).
  `RewardPool.EpochPaysAtMostPool` says from the starting book exactly when no such account exists.
- After a rejected transaction the verifier's accounts and receipts can differ from the producer's
  (`Rebatching.RejectionReorders`); `Rebatching.VerifierAgreesExactlyWhen` gives the condition on the published list.
- A ready message can be left with nobody to deliver it until another of its key arrives
  (`StrandedMessages.StrandingHappens`); `StrandedMessages.StrandedExactlyBy` and
  `StrandedMessages.OverlookedExactlyBy` name the two steps by which that comes about.

## Model

| member | source | states |
|---|---|---|
| Votes.RequiredStakeExact | consensus/slot.go:158-177 | the 64-bit threshold computation equals the exact floor or ceiling on every accepted input but one, where the strict increment wraps to zero |
| Votes.RequiredStakeIsLeast | consensus/slot.go:158-177 | a stake meets the threshold if and only if it reaches the quorum fraction, strictly or not |
| Votes.RequiredStakeRange | consensus/slot.go:158-177 | the threshold is positive unless it wrapped and exceeds the total only for the strict whole |
| Votes.ValidateVoterList | consensus/slot.go:621-638 | the loop accepts exactly strictly ascending lists of valid identifiers within the size limit |
| Votes.ValidateCertificate | consensus/slot.go:195-224 | accepts exactly the certificates whose own fields are consistent |
| Bitmap.EncodeBitmap | consensus/bls_qc.go:111-152 | succeeds exactly when the order is proper and holds all voters, and then marks the voters and nobody else |
| Bitmap.DecodeBitmap | consensus/bls_qc.go:240-259 | refuses exactly an empty order, a bitmap of the wrong length and a bitmap that marks nobody; otherwise returns the marked validators in ascending order, each as often as the order lists it |
| Bitmap.BitmapRoundTrip | consensus/bls_qc.go:111-152 | decoding the bitmap built for a set of voters gives back exactly its sorted voters if and only if the order lists each voter once, as every duplicate-free order does |
| Bitmap.DecodedDistinct | consensus/bls_qc.go:240-259 | from an order without repetitions the decoded voters are distinct and ascending |
| Bitmap.MarksDetermineVoters | consensus/bls_qc.go:240-259 | two ascending voter lists with the same bitmap are the same list |
| Bitmap.AttachAggregate | consensus/bls_qc.go:111-152 | attaches scheme, bitmap and the aggregate of the voters' signatures in voter order, exactly when every voter is in the order and signed and the aggregation succeeds |
| Bitmap.StakeByValidatorOrder | consensus/bls_qc.go:261-285 | detects empty and repeated ids, missing or zero stake and overflow, and otherwise sums the registered stake |
| Bitmap.SumVoterStake | consensus/bls_qc.go:195-238 | sums the registered stake of the decoded voters, refusing unknown voters and overflow |
| Bitmap.CheckConfirmedStake | consensus/bls_qc.go:195-238 | accepts exactly when threshold and confirmed stake are the true ones and the quorum is met |
| Bitmap.StakeTruth | consensus/bls_qc.go:195-238 | an accepted certificate counts distinct voters at registered stake, reaches the quorum, and every voter signed this ballot |
| Collector.NormalizeStake | consensus/slot.go:598-619 | accepts exactly tables with valid ids, positive stakes and a total that fits 64 bits, and returns that total |
| Collector.HonestIntersection | consensus/slot.go:310-344 | every accepted pair of thresholds overlaps by more than the Byzantine bound, wrap-around included |
| Collector.AcceptedExactlyWhen | consensus/slot.go:310-344 | a valid table gets a collector if and only if both thresholds exist, the timeout threshold is at most the total, and the two overlap by at least a third of the total |
| Collector.FreshSound | consensus/slot.go:310-344 | a new collector satisfies the invariant |
| Collector.NextSound | consensus/slot.go:362-427 | counting any input keeps the invariant: true stake per bucket, one choice per validator, slot and phase |
| Collector.RunSound | consensus/slot.go:362-427 | so does every run of inputs |
| Collector.OneBucketPerPhase | consensus/slot.go:362-427 | after any run a validator is in at most one bucket of a slot and phase |
| Collector.BucketStakeIsTrue | consensus/slot.go:362-427 | after any run a bucket's stake is the exact sum of its voters' registered stakes, without overflow |
| Collector.PlainCertificateValid | consensus/slot.go:510-526 | for tables of at most 2048 validators every plain certificate passes certificate validation |
| Collector.Issue | consensus/slot.go:418-426 | a completed certificate goes out plain, or aggregated when an order is given and every voter signed |
| Collector.VoteCollector.constructor | consensus/slot.go:337-343 | starts without buckets or choices |
| Collector.VoteCollector.New | consensus/slot.go:310-344 | returns a collector exactly for tables and quorums with an honest intersection |
| Collector.VoteCollector.AddVote | consensus/slot.go:362-427 | the maps change as the counting step says and the reply is one it allows, both told from the votes alone by `VoteHistory.RunAgrees` and `VoteHistory.AnsweredFromHistory`; a refused vote changes nothing |
| Collector.SecondVoteRefused | consensus/slot.go:363-392 | after any run a valid vote of a registered stake is refused as duplicate, or as conflicting, exactly when an earlier vote of its voter for the slot and phase was accepted for the same choice, or for another |
| Collector.NextBucket | consensus/slot.go:393-402 | an accepted vote adds its voter and the registered stake to its bucket, and the 64-bit sum never wraps |
| VoteHistory.VerdictIs | consensus/slot.go:362-402 | the refusal a collector gives is the one that the list of votes accepted so far calls for |
| VoteHistory.RunAgrees | consensus/slot.go:362-427 | after any run from a new collector, choices and buckets say exactly what the accepted votes say: who voted for what, the latest time, and which signatures came |
| VoteHistory.AnsweredFromHistory | consensus/slot.go:362-427 | over any run, a vote is refused exactly as the accepted votes before it call for; an accepted one is counted without a certificate if and only if the registered stake accepted for its block is still below the threshold, or had reached it before and is still below the whole; otherwise the certificate names all voters, their stake, the threshold and the latest time |
| VoteHistory.IssuedExactly | consensus/slot.go:409-418 | over any run the number of certificates for a block is one if its stake reached the threshold, plus one if the whole stake came in by a later vote than the one that reached it |
| DoubleVotes.AcceptedNeverConvict | consensus/evidence.go:117-139 | no two votes that one collector accepts in any run are valid double-vote evidence |
| DoubleVotes.ConflictIsEvidence | consensus/evidence.go:117-139 | after any run, a valid vote of a registered stake is refused as conflicting if and only if it and some accepted vote are valid evidence |
| DoubleVotes.EvidenceExactlyWhen | consensus/evidence.go:117-139 | for valid votes of a registered stake, a pair is evidence if and only if a new collector that accepted the first refuses the second as conflicting |
| DoubleVotes.HonestNotConvicted | consensus/evidence.go:117-139 | a validator whose votes never differ within a slot and phase cannot be convicted from any runs |
| DoubleVotes.FewDoubleVotersNoConflict | consensus/slot.go:310-344 | while validators that cast two different votes in a slot and phase hold at most the Byzantine bound, no two runs certify a Confirm and a Skip of one slot, nor, with equal quorums or thresholds that overlap by more than the bound, any conflicting pair |
| AccountableSafety.VotersCast | consensus/slot.go:362-427 | every voter of a bucket cast a valid vote for it in the run |
| AccountableSafety.CertificateBacked | consensus/slot.go:362-427 | every certificate a run issues is backed by registered stake over its threshold and a vote from each voter |
| AccountableSafety.ConflictConvicts | consensus/evidence.go:117-139 | conflicting backed certificates share more than the Byzantine bound of stake, and each common voter's two votes are valid double-vote evidence, which `DoubleVotes.EvidenceExactlyWhen` ties to the collector's refusals |
| AccountableSafety.OverlapConvicts | consensus/slot.go:310-344 | for every accepted table and quorum pair and any two runs, conflicting certificates whose thresholds overlap by more than the bound convict more than the bound |
| AccountableSafety.AccountableSafetyTheorem | consensus/slot.go:310-344 | for every accepted table and quorum pair and any two runs, a Confirm and a Skip certificate of one slot, or with equal quorums any conflicting pair, convict more than (total-1)/3 of the stake |
| QuorumForks.QuorumCertifies | consensus/slot.go:362-427 | any distinct voters of any table whose stake reaches the threshold have a run that certifies their block |
| QuorumForks.SidesFork | consensus/slot.go:362-427 | any two sets of voters that both reach the threshold and share at most the bound can have two conflicting blocks certified |
| QuorumForks.ForkExactlyWhen | consensus/slot.go:310-344 | for every accepted quorum pair, total stake and two vote types of one phase, some table and two runs certify conflicting blocks with at most the Byzantine bound voting twice if and only if the two thresholds add up to at most the total and the bound |
| QuorumForks.UnequalQuorumsMayFork | consensus/slot.go:310-344 | a half confirm quorum with a unanimous timeout quorum is accepted, and two conflicting Confirm certificates can exist |
| TimeoutCertificates.SnapshotIs | consensus/rewards.go:1002-1022 | the snapshot found covers the slot, first and last slot included, and is the current one if that does; otherwise all that cover the slot have its root; there is none exactly when none covers it or two that do disagree |
| TimeoutCertificates.FindSnapshot | consensus/rewards.go:1002-1022 | finds the current snapshot or the one agreed past snapshot of a slot, refusing disagreement |
| TimeoutCertificates.TimeoutExactlyWhenSkipping | consensus/proposal.go:521-541 | an accepted proposal carries a timeout certificate if and only if it skips a slot; it is a verified Skip certificate for the slot before, for the proposal's height and parent |
| TimeoutCertificates.CertificatesDoubleSigned | consensus/proofs.go:47-71 | verified strict two-thirds Confirm and Skip certificates of one slot share more than (total-1)/3 of stake, every holder of which signed both |
| TimeoutCertificates.ConfirmedSlotNotSkipped | consensus/proposal.go:521-559 | a verified Confirm for slot s and an accepted proposal of slot s+1 that skips s convict more than (total-1)/3 of double voting at s |
| Blocks.TransactionIds | blockchain/ledger.go:1999-2014 | lists a block's transaction ids exactly when none occurs twice |
| AddressHistory.BuildEntries | blockchain/address_history.go:234-273 | builds one entry per effect in order, failing exactly on too many transactions or effects or undecodable instructions |
| AddressHistory.EntryKeys | blockchain/address_history.go:234-273 | no two entries of a block share a key and every key carries the block's height |
| AddressHistory.HistoryKeyRoundTrip | blockchain/address_history.go:440-448 | the stored bytes of a history key decode to the key |
| AddressHistory.StoredRowsAreKeys | blockchain/address_history.go:440-448 | rows of any two blocks collide in storage exactly where their keys are equal, and never within a block |
| LedgerIndex.HeightsOfChain | blockchain/ledger.go:2719-2720 | the height table of a linked chain has exactly the heights up to its length and names its blocks |
| LedgerIndex.TxsOfChain | blockchain/ledger.go:2234-2261 | the transaction index of a chain without repeats maps every id to the one block that holds it |
| LedgerIndex.RetractLast | blockchain/ledger.go:2664-2685 | deleting the rows of a chain's last block undoes adding them, in all three indexes |
| LedgerIndex.RetractDown | blockchain/ledger.go:2664-2685 | deleting from the head down leaves the indexes of the shorter chain |
| LedgerStore.AppendTxPuts | blockchain/ledger.go:2016-2020 | applied, the appended operations add the block's ids and change nothing else |
| LedgerStore.AppendTxDeletes | blockchain/ledger.go:2674-2677 | applied, the appended operations remove the block's ids and change nothing else |
| LedgerStore.AppendHistoryPuts | blockchain/address_history.go:212-221 | applied, the appended operations add the block's history rows; fails exactly when the block cannot be indexed |
| LedgerStore.AppendHistoryDeletes | blockchain/address_history.go:223-232 | applied, the appended operations remove the block's history rows |
| LedgerStore.MainBlocksReadBack | blockchain/ledger.go:2234-2261 | reading the height table and the block table gives the indexed chain back |
| ForkChoice.BranchShape | blockchain/ledger.go:2630-2653 | a branch is parent-linked, counts up in height, leaves the trunk at its root and is off the trunk above it |
| ForkChoice.BranchFromRoot | blockchain/ledger.go:2630-2653 | walking to the fork block alone finds the same branch as walking to the main chain |
| ForkChoice.Reverse | blockchain/ledger.go:2649-2651 | the swapping loop reverses the list |
| ForkChoice.CollectNewBlocks | blockchain/ledger.go:2630-2653 | the walk from the tip ends, finds a branch exactly when there is one, and lists it in ascending order |
| LedgerSpec.GenesisSound | blockchain/ledger.go:65-84 | a fresh ledger satisfies the invariant |
| LedgerSpec.ChainIsUnique | blockchain/ledger.go:2234-2261 | the chain of a sound state is the one its height table lists |
| LedgerCommit.BlockStorageOps | blockchain/ledger.go:1980-1997 | applied, the operations store exactly the block and its snapshot rows |
| LedgerCommit.PersistCommit | blockchain/ledger.go:1797-1841 | one transaction with block, snapshot, index, certificate, account and head rows; fails exactly when the block cannot be indexed |
| LedgerCommit.TryCommit | blockchain/ledger.go:383-453 | commits exactly when the block extends the head, repeats no transaction, matches its state root, can be indexed and its certificates agree |
| LedgerCommit.SnapshotIsNext | blockchain/ledger.go:1989-1995 | storing a block again leaves its snapshot as it was |
| LedgerCommit.HeadChildIsLinked | blockchain/ledger.go:1561-1575 | a block accepted on the head fits its parent because no other block has the head's hash |
| LedgerCommit.CommitSound | blockchain/ledger.go:383-453 | a commit keeps the invariant and extends the chain by the block |
| LedgerCommit.CandidateSound | blockchain/ledger.go:456-491 | saving a candidate keeps the invariant and the chain |
| LedgerReorg.BranchRoot | blockchain/ledger.go:2590-2628 | a branch leaves the main chain at the block one below its first block |
| LedgerReorg.ReorgSound | blockchain/ledger.go:494-587 | an allowed reorganisation keeps the invariant, and the chain becomes the shared part followed by the branch |
| LedgerReorg.SharedHeights | blockchain/ledger.go:2684-2720 | up to the fork height the height table is unchanged |
| LedgerReorg.ForkIsHighestShared | blockchain/ledger.go:2590-2628 | the common ancestor is the highest block both chains share |
| LedgerReorg.TipOffTrunk | blockchain/ledger.go:2737-2745 | a better tip is never on the main chain |
| ReorgPlan.CollectAncestors | blockchain/ledger.go:2568-2588 | the new walk ends; main-chain blocks it met are no higher than the fork, and it met the fork block unless that is genesis |
| ReorgPlan.CollectReorgPlan | blockchain/ledger.go:2567-2628 | the two walks end and find the fork block, the blocks that leave and the blocks that join, exactly when a branch exists (and, once something is finalized, does not start at genesis) |
| ReorgOps.CheckFresh | blockchain/ledger.go:2696-2709 | accepts exactly ids that no earlier new block and no staying main-chain block holds |
| ReorgOps.FreshIsUnique | blockchain/ledger.go:2696-2709 | that check passes if and only if the chain with the block repeats no transaction |
| ReorgOps.DeleteOld | blockchain/ledger.go:2663-2685 | applied, the operations take the leaving blocks out of all indexes, and the collected ids are theirs |
| ReorgOps.AddNew | blockchain/ledger.go:2686-2721 | succeeds exactly when the new chain repeats no transaction and can be indexed; applied, the operations give its indexes |
| Reorganize.FinalizedHashFromPlan | blockchain/ledger.go:2771-2805 | finds the new chain's hash at the finalized height, below, at or above the fork |
| Reorganize.NewHeightAt | blockchain/ledger.go:2771-2805 | the new height table is the old one up to the fork and the branch above it |
| Reorganize.CommittedDelta | blockchain/ledger.go:2078-2088 | removing the old ids and adding the new ones in memory gives the new chain's transaction index |
| Reorganize.ApplyPlan | blockchain/ledger.go:2660-2735 | delete-then-add turns the indexes into those of the new chain, in the tables and in memory |
| Reorganize.TryReorganize | blockchain/ledger.go:494-587 | accepts exactly the tips that are stored, better, branched off at or above the finalized height, without repeated transactions and indexable, spelled out by `LedgerProgress.MoveExactlyWhen` |
| LedgerQC.QCSound | blockchain/ledger.go:590-687 | saving a certificate keeps the invariant and changes nothing of the head but its certificate hash |
| LedgerQC.PromotedQC | blockchain/ledger.go:892-919 | a promoted certificate certifies a main-chain block, can be found, and is no lower than the main-chain certificate it replaces |
| LedgerQC.BlockQCImproves | blockchain/ledger.go:921-936 | a block's stored certificate is replaced only by a better one |
| LedgerReload.RebuildTransactionIndex | blockchain/ledger.go:2234-2261 | the loop over heights computes the transaction index of the listed chain |
| LedgerReload.RebuildHistory | blockchain/address_history.go:187-210 | the operations of a rebuild give the address history of the listed chain |
| LedgerReload.IndexesMatchRebuild | blockchain/ledger.go:2210-2261 | in every sound state the tables and the map in memory are what a rebuild gives, and no transaction is in two blocks |
| LedgerReload.LoadFindsLiveAccounts | blockchain/ledger.go:2181-2208 | loading finds the live accounts if and only if no row is stale, or recovery is on and the live state is not empty |
| LedgerReload.TryRestart | blockchain/ledger.go:144-187 | starting from the tables alone gives the live state back, with the account table cleaned |
| LedgerReload.ReloadSound | blockchain/ledger.go:144-187 | a restart keeps the invariant and the chain |
| LedgerRuns.AdvanceSound | blockchain/ledger.go:1512-1540 | a checkpoint advance keeps the invariant and the chain |
| LedgerRuns.NextSound | blockchain/ledger.go:383-587 | every operation keeps the invariant |
| LedgerRuns.RunSound | blockchain/ledger.go:383-587 | so does every run |
| LedgerRuns.HeightTableAfterRun | blockchain/ledger.go:2567-2735 | after every run the height table is exactly the parent-linked path from genesis to the head, nothing above it |
| LedgerRuns.IndexesAfterRun | blockchain/ledger.go:2060-2088 | after every run all indexes and the map in memory equal a rebuild, and each transaction is in at most one main-chain block |
| LedgerRuns.NextKeeps | blockchain/ledger.go:531-563 | no operation moves finality back or replaces a block at or below it, when checkpoints are not moved down |
| LedgerRuns.FinalizedForever | blockchain/ledger.go:531-563 | whatever a run does later, the main chain up to a finalized height stays and the height does not fall |
| LedgerRuns.FinalizedPairStays | blockchain/ledger.go:2747-2823 | a finalized height and hash, once reached, are in every later height table, and finality never passes the head |
| LedgerRuns.FinalityFallsOnlyByAdvance | blockchain/ledger.go:1512-1540 | the finalized height falls if and only if a checkpoint advance names a main-chain block below it |
| LedgerRuns.AdvanceCanLowerFinality | blockchain/ledger.go:1512-1540 | once anything is finalized, an advance to genesis takes it back |
| LedgerRuns.RestartAfterRun | blockchain/ledger.go:144-187 | after every run a restart returns the live head, accounts and index exactly when the stated condition holds |
| LedgerRuns.EmptyStateCannotRestart | blockchain/ledger.go:2194-2196 | a block that empties a non-empty state leaves a ledger that cannot be restarted |
| HistoryRows.HistoryAfterRun | blockchain/address_history.go:187-273 | after every run the history has a row under a key if and only if the main-chain block of that height has that effect of that transaction on that address, and the row tells its detail, slot, block and time |
| LedgerProgress.MoveExactlyWhen | blockchain/ledger.go:494-587 | a stored tip is moved to if and only if it is higher than the head, or as high with the smaller text hash, a branch of stored blocks joins it to the main chain not below the finalized height without repeating a transaction, its blocks can be indexed and its stored certificate agrees |
| LedgerProgress.CommitExactlyWhen | blockchain/ledger.go:383-453 | a block is committed if and only if it names the chain, has the head's hash as parent, the next height and a later slot, its root matches, it repeats nothing of itself or the main chain, its certificates agree and it can be indexed |
| LedgerProgress.RunRises | blockchain/ledger.go:2737-2745 | over every run the head stays the same block or rises: higher, or as high with the smaller hash |
| LedgerProgress.HeadNeverReturns | blockchain/ledger.go:494-587 | a block that a run has left as head is never the head again |
| LedgerProgress.RunDescribes | blockchain/ledger.go:422-441 | over every run the head's chain, height, slot, root and epoch are those of the block it names |
| LedgerProgress.FinalityRule | blockchain/ledger.go:2807-2823 | whenever the head moves, the finalized height becomes the larger of the old one and the new height less the depth; while suspended, and whenever the head stays, it is the old one, but for an accepted checkpoint advance, which sets it |
| LedgerProgress.FinalityFollowsHead | blockchain/ledger.go:2807-2823 | over every run of commits, moves, candidates and certificates in a ledger that is not suspended and not behind its depth, the finalized height is the larger of the starting one and the head's height less the depth |
| LedgerProgress.FinalFromGenesis | blockchain/ledger.go:2807-2823 | from genesis it is exactly the head's height less the depth, or zero |
| LedgerProgress.CommitCertificate | blockchain/ledger.go:422-453 | a committed block's head carries the certificate stored for the block, else the one it came with, else the old one; one it came with is stored by block and by hash |
| LedgerProgress.MoveCertificate | blockchain/ledger.go:531-587 | a move carries the certificate stored for the tip, else the old one, and touches no certificate row |
| LedgerProgress.BlockKeepsBetter | blockchain/ledger.go:921-936 | a block's certificate row is replaced by a saved certificate only if that has more stake, then more voters, then a later time, then more height, then the smaller hash, and kept otherwise |
| LedgerProgress.HeadCarriesHighest | blockchain/ledger.go:892-919 | saving a certificate puts the block's best one into the head if it is on the main chain and the head carries none there, or one that is no higher by height, slot and closeness to the head; otherwise the head stays |
| Ledger.Ledger.constructor | blockchain/ledger.go:65-84 | a valid ledger on the genesis state |
| Ledger.Ledger.CommitBlock | blockchain/ledger.go:383-453 | moves the object by the commit step, exactly when `LedgerProgress.CommitExactlyWhen` says; height, slot, finality and certificate of the new head are given by `LedgerProgress` |
| Ledger.Ledger.SaveBlockCandidate | blockchain/ledger.go:456-491 | stores the candidate exactly when its root matches and it repeats no transaction |
| Ledger.Ledger.ReorganizeTo | blockchain/ledger.go:494-587 | accepts exactly the reorganisable tips, those of `LedgerProgress.MoveExactlyWhen`, reports the plan, and otherwise stays |
| Ledger.Ledger.SaveQC | blockchain/ledger.go:590-687 | stores valid Confirm certificates and promotes by the promotion rule |
| Ledger.Ledger.AdvanceFinalizedCheckpoint | blockchain/ledger.go:1054-1068 | moves the checkpoint exactly to main-chain blocks not above the head |
| Ledger.Ledger.SetFinalitySuspended | blockchain/ledger.go:1040-1044 | touches nothing but the flag |
| Ledger.Ledger.Reload | blockchain/ledger.go:144-187 | rebuilds memory from the tables and says when it can |
| ChainState.ApplyWrites | consensus/proposal.go:609-628 | writing into the list through a growing index is writing into the map, repeated addresses included; it keeps addresses unique and skips placeholders of absent programs |
| ChainState.BuildIndex | consensus/rewards.go:1283-1289 | every listed address is indexed at its last place |
| ParallelExecution.AccountLockSet.constructor | runtime/account_locks.go:16-21 | a new set holds no lock |
| ParallelExecution.AccountLockSet.TryLock | runtime/account_locks.go:24-52 | succeeds exactly when no write overlaps, takes all locks or none |
| ParallelExecution.SelectBatch | consensus/parallel_execution.go:155-178 | the loop over a lock set computes the greedy selection |
| ParallelExecution.SelectedIndependent | consensus/parallel_execution.go:155-178 | no two members of a batch conflict |
| ParallelExecution.SelectPartitions | consensus/parallel_execution.go:155-178 | batch and rest together are what was pending, and the batch fits |
| ParallelExecution.BatchNeverEmpty | consensus/parallel_execution.go:85-87 | the empty-batch error cannot occur |
| ParallelExecution.ExecuteBatch | consensus/parallel_execution.go:180-225 | the results do not depend on the order in which workers finish |
| ParallelExecution.RunBatch | consensus/parallel_execution.go:259-309 | applying results to the account list is applying them to the account map |
| ParallelExecution.ExecuteParallel | consensus/parallel_execution.go:62-101 | the loop over batches computes the specified run, on account lists |
| ParallelExecution.BatchIsSerial | consensus/parallel_execution.go:259-309 | the confirmed members of a batch, executed one after another, do what the batch did |
| ParallelExecution.ParallelIsSerial | consensus/parallel_execution.go:62-101 | final accounts, processed ids, receipts and fees are those of executing the output one at a time; every transaction is included, rejected or left over, once; the metered usage covers what the output uses and keeps to the limit |
| Rebatching.RebatchingFixedPoint | consensus/parallel_execution.go:77-99 | the flattened batches, batched again as a whole block, fall into the same batches in the same order |
| Rebatching.ParallelAsBatches | consensus/parallel_execution.go:77-99 | a run without rejections is the run of its batches |
| Rebatching.VerifierAgrees | consensus/proposal.go:189-259 | when nothing was rejected, a verifier that forbids failures gets the producer's accounts, receipts, fees and usage, with nothing left over |
| Rebatching.RebatchedExactlyWhen | consensus/parallel_execution.go:155-178 | any batches, published as one list, are batched the same way again if and only if each selects itself and its locks exclude everything after it |
| Rebatching.RebatchingExactlyWhen | consensus/parallel_execution.go:77-99 | after any run, rejections included, the published list falls into the run's confirmed batches if and only if the locks of each still exclude everything after it |
| Rebatching.OrderKeptExactlyWhen | consensus/parallel_execution.go:155-178 | batching a list keeps its order if and only if, wherever its front stops getting locks, the locks held exclude all that follows |
| Rebatching.StrictIncludes | consensus/parallel_execution.go:62-101 | a verifier that gets through includes exactly the batches of the list it was given, in their order |
| Rebatching.SerialAsBatch | consensus/parallel_execution.go:180-309 | a batch without conflicts that can be executed one by one can be executed as a batch, to the same effect and within the limit |
| Rebatching.VerifierGetsThrough | consensus/proposal.go:189-259 | a list that keeps its order and can be executed one by one gets through the verifier, to the same effect |
| Rebatching.VerifierAgreesExactlyWhen | consensus/proposal.go:189-259 | after any run, rejections included, the verifier gets through in the published order if and only if the published list keeps its order, and then its accounts, ids, receipts and fees are the producer's |
| ReceiptAgreement.ReceiptsAgreeExactlyWhen | consensus/proposal.go:189-259 | under every executor that keeps to the declared accounts, and every state in which the published list can be executed one by one, the verifier has the serial receipts, if and only if the list keeps its order |
| Rebatching.RejectionReorders | consensus/parallel_execution.go:155-178 | with a rejected transaction, and an executor that keeps to the declared accounts, the verifier can execute two conflicting transactions the other way round and end with other accounts and receipts |
| StakePayout.SelfActiveStake | programs/stake/program.go:1150-1189 | the summing loop returns active less delegated stake, and fails exactly when that is negative |
| StakePayout.ShareBounds | consensus/rewards.go:1112-1128 | exact and wrapping shares never exceed the true fraction; the exact one is short by less than one lamport |
| StakePayout.SharesWithin | consensus/rewards.go:805-837 | the shares together never exceed the pool, wrapping included |
| StakePayout.PayoutIsExact | consensus/rewards.go:780-866 | payments add up to the payout in both arithmetics, and in exact arithmetic the remainder is below the number of stakers |
| SupplyAccounting.BalancedCredit | consensus/rewards.go:1258-1281 | a credit with its record keeps every balance and the supply accounted for |
| SupplyAccounting.BalancedBurn | consensus/rewards.go:1182-1190 | so does a debit noted as burned |
| Rewards.LeaderFeeSound | consensus/rewards.go:251-276 | the leader fee keeps the accounts balanced |
| Rewards.VoteCreditSound | consensus/rewards.go:363-405 | vote credits move no lamports |
| Rewards.MissedSound | consensus/rewards.go:314-340 | missed proposals move no lamports |
| Rewards.NormalizeSound | consensus/rewards.go:431-450 | normalising delegations moves no lamports |
| Rewards.BurnSound | consensus/rewards.go:1162-1196 | the account loses exactly what is noted as burned |
| Rewards.SlashSound | consensus/rewards.go:525-584 | slashing keeps the accounts balanced against the burned lamports |
| Rewards.PaySound | consensus/rewards.go:868-884 | a payment to the held account, to another stake account or elsewhere is never lost or doubled; who it goes to is `PayoutRecipients.DistributionPaysDue` |
| Rewards.RewardSound | consensus/rewards.go:725-778 | settling a rewarded validator keeps the accounts balanced although its account is held as a copy |
| Rewards.JailSound | consensus/rewards.go:907-942 | jailing moves no lamports |
| RewardRun.PayDelegators | consensus/rewards.go:817-837 | the loop pays exactly the positive shares and finds the last active delegation |
| RewardRun.DistributeStakePayout | consensus/rewards.go:780-866 | the self share, the loop and the remainder make exactly the listed payments, in order, which give each receiver its due by `PayoutRecipients.PayoutsReceive` |
| PayoutRecipients.PayoutsReceive | consensus/rewards.go:780-866 | the payments of a payout give the staker and every delegation exactly the floor of payout times own stake over active stake (64-bit product before exact payouts), and the remainder to the staker if it has own stake, else to the last active delegation |
| PayoutRecipients.DistributionPaysDue | consensus/rewards.go:780-905 | over every successful distribution each address is recorded as paid exactly what it is due as staker and for each delegation with its account; own and delegation reward counters rise by the same amounts and nothing else of the stake state changes |
| SettlementEffects.RewardSettles | consensus/rewards.go:725-778 | a settlement pays the validator's account the floor of reward times basis points over 10000, each staker its due of the rest and nobody else; the reward is (credits less missed proposals) times the price, or the pool times stake times credits over the weight; the written state counts it and starts the epoch's counters again |
| SettlementEffects.JailSettles | consensus/rewards.go:907-942 | jailing for performance pays nobody and lasts the longer term of the thresholds reached, at least one epoch |
| SettlementEffects.SlashSettles | consensus/rewards.go:525-584 | a slash records basis points of all stake, or all of it when less than the minimum would remain, pays nobody, jails for no less than before and clears the counters |
| SettlementEffects.FeesGoToLeader | consensus/rewards.go:251-276 | the fees of a block are paid to its leader's account and to no other |
| RewardRun.RewardIsPaidOut | consensus/rewards.go:725-778 | the records of a rewarded validator with active stake add up to its whole reward |
| RewardRun.SlashRecordIsTrue | consensus/rewards.go:525-584 | every slash that is not skipped records the lamports asked for, never less than it burned, and exactly what it burned if and only if the account holds that much above its minimum balance |
| RewardRun.SlashRecordOverstates | consensus/rewards.go:525-584 | a fresh offence of a listed stake account that holds exactly its stake records the whole stake, while the account's minimum balance is not burned |
| BlockRewards.RunMissed | consensus/rewards.go:278-312 | the loop over skipped slots |
| BlockRewards.RunCredits | consensus/rewards.go:342-361 | the nested loop over certificates and validators |
| BlockRewards.RunOffences | consensus/rewards.go:413-429 | the loop over evidence |
| BlockRewards.RunNormalize | consensus/rewards.go:431-450 | the loop over stake accounts by address |
| BlockRewards.RunSettlement | consensus/rewards.go:593-631 | the settlement loop, with the count of active validators falling as it jails |
| BlockRewards.AllStepsSound | consensus/rewards.go:119-150 | over all steps every account changes by exactly the records that pay it less what was burned from it |
| BlockRewards.ApplyBlockRewards | consensus/rewards.go:119-150 | on success the supply and each balance change by exactly the LeaderFee, Commission and VotePayout records less the burned lamports; succeeds exactly when input and steps are valid and within the record limit |
| CreditCounts.CreditsAreVotes | consensus/rewards.go:342-405 | after a block every member has one credit more for each certificate that counts for it and lists it, and one missed vote more for each that counts and does not; a certificate counts if it is deep enough, recent enough and newer than the last rewarded slot and all earlier ones in time |
| CreditCounts.OnlyMembersCredited | consensus/rewards.go:363-405 | certificates change the stake state of members only |
| CreditCounts.MissedAreSkippedSlots | consensus/rewards.go:278-340 | every stake account is charged one missed proposal for each slot of the epoch between parent and block that its validator led, and nothing else of it changes |
| RewardPool.SettlementIsEntitled | consensus/rewards.go:593-631 | what a settlement pays is no more than the part of the pool that the weight it rewards is entitled to |
| RewardPool.SettleKeepsOthers | consensus/rewards.go:725-884 | settling one stake account, whomever it pays, leaves the stake state of every later account of the list as it was at the start |
| RewardPool.DrawnIsCountedAndUncounted | consensus/rewards.go:593-713 | the weight a settlement draws is the weight counted for the pool plus that of the uncounted accounts, which the starting book decides |
| RewardPool.EpochPaysAtMostPool | consensus/rewards.go:593-713 | the weight drawn stays within the weight counted if and only if no account of the starting book is unsettled, has weight, and is not Active or flagged but kept; the settlement of an epoch then pays at most the inflation pool |
| EpochOutcome.EpochTurnsOut | consensus/rewards.go:593-778 | the turn of an epoch, for every stake account, from the book at its start: a settled one stays; one that missed too much is jailed if, with those before it that did, more than the minimum of active validators with stake in force stay; every other is rewarded from the inflation of the present supply over the epoch's slots, in proportion to stake times credits |
| EpochOutcome.StakeAddressesExact | consensus/rewards.go:1291-1303 | settled are exactly the accounts of the stake program that hold data, by ascending address |
| PoolOverdrawn.ExitingOverdraws | consensus/rewards.go:683-713 | with an exiting validator that still has stake, and nobody flagged, a settlement pays 20 lamports out of a pool of 10 |
| PoolOverdrawn.KeptOverdraws | consensus/rewards.go:610-628 | so does one with a validator that is flagged for jail and kept so that enough stay active |
| Genesis.ValidateAddresses | blockchain/ledger.go:310-367 | accepts exactly configurations without reserved or colliding addresses |
| Genesis.MergeConserves | blockchain/ledger.go:1607-1620 | merging one account adds its lamports if and only if it replaces no balance |
| Genesis.GenesisOverwritesNothing | blockchain/ledger.go:310-367 | the address checks exclude every merge that would replace a balance |
| Genesis.GenesisConserves | blockchain/ledger.go:190-307 | an allowed genesis holds exactly the configured supply |
| Genesis.MergeAccounts | blockchain/ledger.go:1607-1629 | the merging loop |
| Genesis.BuildGenesisState | blockchain/ledger.go:190-307 | succeeds exactly when addresses, stakes and supply allow it, and the merged accounts hold the supply |
| GenesisBalances.GenesisGrants | blockchain/ledger.go:190-307 | at an allowed genesis every address holds exactly the lamports it is funded with, its stake and reserve if it is a validator's account, the rent if it is only a staker, and what pool and programs are given; the treasury holds the rest of the supply besides |
| GenesisBalances.ValidatorStarts | blockchain/ledger.go:243-254 | every validator account starts with stake and reserve, its encoded stake state, under the stake program |
| Sequencer.SharedOrder.constructor | p2p/host_connection_loop.go:312-320 | a new order state expects number zero |
| Sequencer.SharedOrder.Submit | p2p/host_connection_loop.go:284-295 | stores the message and hands the flush to at most one worker |
| Sequencer.SharedOrder.TakeReady | p2p/host_connection_loop.go:322-336 | removes and returns the gap-free run from the next number |
| Sequencer.SharedOrder.Release | p2p/host_connection_loop.go:296-302 | gives the flush back and changes nothing else |
| Sequencer.TakenIsStretch | p2p/host_connection_loop.go:322-336 | what is taken is exactly a stretch of what was read |
| Sequencer.StepSound | p2p/host_connection_loop.go:102-156 | every critical section of reader and workers keeps the invariant |
| Sequencer.AfterSound | p2p/host_connection_loop.go:284-336 | so does every interleaving |
| Sequencer.DeliveredInOrder | p2p/host_connection_loop.go:284-336 | at every moment the messages dispatched for a key are numbers 0..k-1 in order, each ended before the next begins |
| Sequencer.NoOverlap | p2p/host_connection_loop.go:284-310 | at most one worker dispatches a key |
| Sequencer.QuiescentIsComplete | p2p/host_connection_loop.go:296-302 | when no flush is claimed, everything before the next number was dispatched |
| StrandedMessages.OverlookedExactlyBy | p2p/host_connection_loop.go:284-302 | the next message becomes overlooked exactly when it is submitted while the flusher of its key is about to release |
| StrandedMessages.StrandedExactlyBy | p2p/host_connection_loop.go:296-302 | it becomes stranded exactly when a flusher that overlooked it releases |
| StrandedMessages.StrandedComesFrom | p2p/host_connection_loop.go:284-302 | over every run a stranded key had such a submission, and such a release after it |
| StrandedMessages.StrandingHappens | p2p/host_connection_loop.go:284-302 | a reachable run in which both messages of a key are ready, nothing was delivered and every worker is idle |
| Dispatcher.SharedPartition | p2p/protocol_dispatcher.go:385-425 | under every hash two messages share a partition if and only if they are hashed by the same bytes |
| Dispatcher.StepSound | p2p/protocol_dispatcher.go:145-254 | every step of enqueuers and workers keeps claims, queues and traces consistent |
| Dispatcher.AfterSound | p2p/protocol_dispatcher.go:145-254 | so does every interleaving |
| Dispatcher.OneJobPerPartition | p2p/protocol_dispatcher.go:196-254 | at most one job of a partition is being handled |
| Dispatcher.HandledInQueueOrder | p2p/protocol_dispatcher.go:196-254 | the messages begun for a queue, in trace order, are the first part of what it accepted and the waiting ones the rest; job n handles the n-th accepted message, and every earlier one has begun and ended before |
| Dispatcher.StateKeyKeepsOrder | p2p/protocol_dispatcher.go:389-410 | of two messages of one protocol with one non-empty state key, the one enqueued first has begun and ended before the other begins, over every interleaving |
| DispatchRouting.OrderedBySender | p2p/protocol_dispatcher.go:385-425 | two messages of an ordered or unregistered protocol go to one partition under every hash if and only if they have one sender |
| DispatchRouting.StatelessBySenderAndRequest | p2p/protocol_dispatcher.go:412-442 | two messages of a stateless protocol from equally long sender names do so if and only if sender and request (or identifier) agree up to case |
| DispatchRouting.StateKeyTogether | p2p/protocol_dispatcher.go:389-410 | two messages with state keys do so if and only if their keys, without outer white space, agree up to case |
| DispatchRouting.EnqueuedIfRoom | p2p/protocol_dispatcher.go:145-167 | a message is appended to one queue of its protocol's priority if that has room, and otherwise dropped |
| DispatchRouting.NeverOverfull | p2p/protocol_dispatcher.go:145-167 | over every interleaving no queue holds more than its size |
| KeyCodec.KeySuccessor | database/key_codec.go:59-68 | the backward loop computes the least key above all extensions, absent when every byte is 255 |
| KeyCodec.EncodeRoundTrip | database/key_codec.go:46-58 | encoding is injective across tables and stripping undoes it |
| KeyCodec.SuccessorBoundsExtensions | database/key_codec.go:59-68 | a key lies between a prefix and its successor exactly when it has the prefix |
| KeyCodec.SuccessorStaysInTable | database/key_codec.go:23-31 | the clamp to the table's end never takes effect |
| KeyCodec.PrefixBoundsExact | database/key_codec.go:23-31 | an encoded key is within the prefix bounds if and only if it is in the table and has the prefix |
| KeyCodec.RangeBoundsExact | database/key_codec.go:13-22 | an encoded key is within the range bounds if and only if it is in the table and in the range, for any two bounds |
| Paging.Position | database/service.go:1223-1242 | a page starts at the first entry past the cursor in either direction, whether or not the cursor is a stored key |
| Paging.ResumesAfter | database/service.go:1223-1242 | a cursor taken from an entry of the traversal resumes at the entry after it |
| Paging.Collect | database/service.go:757-797 | a page collects the next entries of the traversal until full or at the end |
| Paging.ReadPage | database/service.go:757-797 | from any cursor, one page is the next stretch of the traversal, with the key to resume from and the true end flag |
| Paging.ReadAllPages | database/service.go:757-797 | following the last key concatenates to the whole query, for every page size and both directions |
| Paging.TraversalComplete | database/service.go:989-1020 | the traversal holds every stored key of the table with the prefix, once, in order |
| Paging.ItemsAreEntries | database/service.go:757-797 | of every stored entry of the table with the prefix, a query reads the key without its table code, or the value |

## Left out

- Cryptography: Ed25519, BLS and SHA-256 appear as unforgeable facts and collision-free functions.
- Identifiers and keys: white space is the ASCII kind, and text is bytes without case folding or normalisation.
- Ledger without a database: a memory-only ledger keeps an old finalized hash once it looks further back than the head; only the persistent ledger is modelled.
- Finalized snapshot import: a foreign checkpoint can leave index rows the run invariant excludes.
- Hash-to-height table, rewarded-slot index, closed flag, logging and clocks of the ledger: no modelled property depends on them; whether a block's reward certificates can be indexed is a flag of the block.
- Heights, slots and epochs of ledger and rewards are unbounded numbers, so their 64-bit wrap-around is not modelled; account, stake, vote and threshold arithmetic is 64-bit.
- Instruction effects of the address history: which addresses an instruction touches is given, not computed.
- Account and snapshot rows are written as one merge instead of row by row; no order among them matters.
- Sequencer and dispatcher: safety only, no promise that a ready message is eventually delivered; messages without an order key bypass the sequencer and are not modelled; the partition hash is a parameter.
- Marking included transactions as confirmed before they are returned does not change what is executed and is not modelled.
- Validation and ordering of reward certificates and slashing evidence before they are applied: the rewards model starts from the accepted lists.
- RewardPool.EpochPaysAtMostPool: exact in weight, but only one way in lamports, because rounding down can absorb what uncounted accounts draw.
- BlockRewards.ApplyBlockRewards: whether quorum, monetary policy and rent configuration pass their own checks is a flag of the input, slash basis points above 10000 are excluded by their type, defaults for absent settings are taken as filled in, and the account list has no address twice.
- Ledger.Ledger.SaveBlockCandidate: asks for a height that fits the parent, which the ledger leaves to its callers.
- Reward state is a value threaded through the steps rather than an object updated in place; the copy of the account being settled, the one aliasing that matters, is explicit.
- Error kinds are merged into failure, except in the collector.
- Storage encodings (JSON, base64, Borsh), transports, peer discovery, RPC, mempool, leader schedule and turbine tree.
