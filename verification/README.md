# Verified models of a consensus client's hard cores

A Dafny model of the parts of this Ethereum consensus client whose correctness does not follow from
reading one function: concurrent protocols (the keyed multilock, blob and data column waiting), caches
kept up to date incrementally (light client updates, attestations, the integer square root), the
following of the execution chain (search by time, deposit logs, payload bodies), and the back-filling
of fork choice. `dafny verify dfyconfig.toml` checks everything.

How the source's forms appear in the model:

- A concurrent protocol is a step system: a `State`, an `Action` per atomic step of a goroutine,
  `Enabled` and `Apply`, and `Exec` over a sequence of actions. Every sequence of enabled actions is one
  interleaving, so a lemma about `Exec(acts)` is a statement about every run. Where the source also
  changes maps in place under a mutex (`LockTable`, `NotifierMap`), a class does the same and each of its
  methods is proved to be the corresponding steps.
- An object whose methods update its fields is a class, an algorithm that works in place on a slice
  keeps the array, and a loop stays a loop. `Valid()` is what every method keeps, so it holds after every
  sequence of calls.
- Pure comparisons and recursions are functions.

| file | models |
|---|---|
| Common.dfy | what the others share |
| KeyOrder.dfy, Multilock.dfy, MultilockProgress.dfy, MultilockSetup.dfy | async/multilock.go |
| LightClientOrder.dfy | beacon-chain/light-client/lightclient.go (the comparisons) |
| LightClientStore.dfy | beacon-chain/light-client/store.go, cache.go |
| SquareRoot.dfy | math/math_helper.go (`CachedSquareRoot`) |
| BlobAvailability.dfy, BlobOutcomes.dfy, BlobNotifiers.dfy | beacon-chain/blockchain/process_block.go, service.go, receive_blob.go, currently_syncing_block.go; the other writers of blobs, beacon-chain/sync/rpc_beacon_blocks_by_root.go and beacon-chain/das/availability_blobs.go |
| ColumnAvailability.dfy, ColumnOutcomes.dfy | beacon-chain/blockchain/process_block.go (data columns), beacon-chain/db/filesystem/data_column.go (the feed) |
| ColumnStore.dfy | beacon-chain/das/availability_columns.go, data_column_cache.go |
| ColumnBisector.dfy | beacon-chain/sync/backfill/verify_column.go |
| BlockByTimestamp.dfy | beacon-chain/execution/block_reader.go, block_cache.go |
| DepositLogs.dfy | beacon-chain/execution/log_processing.go |
| PayloadBodies.dfy | beacon-chain/execution/payload_body.go |
| AttestationCache.dfy | beacon-chain/cache/attestation.go |
| ForkChoiceStore.dfy | beacon-chain/forkchoice/doubly-linked-tree/store.go, forkchoice.go (insertion, checkpoints, pruning) |
| ForkChoicePrune.dfy | beacon-chain/forkchoice/doubly-linked-tree/store.go (pruning down the lists of children) |
| ForkChoiceBatch.dfy | beacon-chain/forkchoice/doubly-linked-tree/forkchoice.go (`InsertChain` with checkpoints per block) |
| ForkChoiceFill.dfy | beacon-chain/blockchain/process_block_helpers.go |

## Assumptions about what is not modelled

- Storage only grows while a block waits for its blobs or columns.
- A root stands for one block, hence one slot, one list of commitments and one limit on blobs.
- Aggregating BLS signatures is the union of the bags of signatures they are made of.
- The execution chain is immutable, its block times strictly increase, and the deposit contract's logs
  are in block order.
- A beacon block's slot is greater than its parent's.
- Contexts, deadlines, remote answers and failing writes are inputs.

## Where the code does less than promised

Each of these keeps the code as it is, exhibits a failing input, and proves for all inputs exactly when
the promise is kept, or, for the number of calls of `BlockByTimestamp`, conditions for it and against it.

- `areBlobsAvailable` promises to block until all blobs are available, but `sendAndSaveBlobSidecars` and the
  blob store's `IsDataAvailable` write blobs without notifying. A waiter that has checked the disk before
  such a write is not woken by it (`BlobAvailability.WaiterIsNeverWoken`): what it misses is stored and not
  on its way if and only if such a writer stored it since the check and no `ReceiveBlob` of it has notified
  since then or is about to (`BlobAvailability.WakeupLostIff`). It then waits until its context ends or
  some `ReceiveBlob` of that blob notifies (`BlobAvailability.SleepsUntilCancelled`). Success still means that
  every blob is stored, and no notifier blocks.
- `CachedSquareRoot` panics when asked for 2^64 - 1 while the last non-zero balance was 1, 2 or 3: the sum
  wraps to zero and the next step divides by it. Every call of every sequence is correct if and only if
  that does not happen (`SquareRoot.EveryRunCorrectIff`, `SquareRoot.OverflowingSequence`).
- `ProcessDepositLog` advances the last received index before it hashes and inserts the deposit, so a
  failure in between loses the deposit for every later scan. The trie is complete up to that index if and
  only if no such failure happened (`DepositLogs.TrieCompleteIffNothingLost`,
  `DepositLogs.LostDepositStaysLost`). It is a prefix of the contract's deposits in any case.
- `ReconstructBlindedBlockBatch` keeps one block number per hash, so of two blocks with one hash and
  different numbers one can get the body of the other's number (`PayloadBodies.FirstBlockGetsSecondBody`).
  Every success, whatever the client, gives every block a body for its own hash or number if and only if
  the blocks that share a non-zero hash carry one number (`PayloadBodies.OwnBodiesIff`,
  `PayloadBodies.ReconstructClash`).
- `BlockByTimestamp` documents a worst case of O(2 * repeatedSearches) calls, but the final scan is linear:
  on a chain with a block every second the time of block zero costs a request per block
  (`BlockByTimestamp.WholeChainIsRequested`). The number of lookups is given exactly. On chains whose blocks
  are more than a ninth of the buffer apart the bound is exceeded only if the interpolation used up its
  rounds or was cut short by an estimate out of range (`BlockByTimestamp.ExceededOnlyByGuard`). On chains
  whose block times are within a q-th part of the configured ones it holds for every time more than a q-th
  part of the height in block times after block zero and within 4 * q^7 block times of the head
  (`BlockByTimestamp.NearRegularWithinBound`), and fails on more than thirty blocks if the first estimate
  falls before block one (`BlockByTimestamp.EarlyTimeExceedsBound`). On regular chains the condition is exact:
  any time but that of block zero, or a head below block number twenty
  (`BlockByTimestamp.RegularChainLookups`).
- `findMaxTargetEth1Block` does not stop at block zero: the number turns negative, its magnitude is looked
  up, and the call ends with a header error past the head (`BlockByTimestamp.NothingBeforeBlockZero`).
  There is a result if and only if the first block is not after the time, unless a request fails or the
  context ends (`BlockByTimestamp.Eth1Service.BlockByTimestamp`).
- `columnsNotStored` starts from the zero root without a summary, so columns of a leading run of zero
  roots are kept although they are stored. It is the promised filter if and only if no stored column is in
  such a run (`ColumnStore.KeepsUnstoredIff`, `ColumnStore.StoredZeroRootIsKept`).
- `columnBisector` never clears its groups, so after `reset` a column that failed is bisected again beside
  the copy fetched in its place (`ColumnBisector.FailedColumnComesBack`), and the retry can fail for it. A
  bisection reports no error if and only if each column that does not verify has its place on disk or in the
  batch of a peer visited before (`ColumnBisector.NoErrorIff`), so for one such column if and only if the
  replacement's peer comes first (`ColumnBisector.RetryGoesWellIff`). What the store relies on holds either way
  (`ColumnBisector.ColumnBisectorHonours`).
- `AttestationCache.Add` aggregates the signature of a single vote even when the first attestation of the
  group has no bit for it. Bits and signatures stay consistent if and only if the vote's position is
  within that attestation's bits (`AttestationCache.AttestationCache.Add`,
  `AttestationCache.VoteOutOfRangeBreaksSignature`).
- `DeleteCovered` documents that it removes proper subsets, but equal bits go too
  (`AttestationCache.AddedThenDeleted`). It leaves what deleting proper subsets would leave if and only if
  no attestation of the group has exactly the argument's bits (`AttestationCache.ProperSubsetsIff`).
- `InsertChain` moves the checkpoints after every block, so a chain that hangs on a known node can still
  fail half-way, with its first block inserted and the finalized checkpoint moved to a block that is not a
  node (`ForkChoiceStore.FinalizedInsideChainFails`). It succeeds if and only if the base is known or the
  tree is empty, the balances can be read, and a newer finalized block is known and keeps the first block
  (`ForkChoiceStore.InsertAllSucceedsIff`).
  With a finalized checkpoint of the chain's own, which is what callers pass, it succeeds whenever it hangs on a
  known node, the balances can be read and the epoch fits, and the newest block is then a node
  (`ForkChoiceStore.OwnCheckpointKeepsNewest`, and `ForkChoiceBatch.OwnBatchIsInserted` for a batch of blocks
  with a checkpoint each).
- After such a failure the finalized root is not a node, and a chain hanging on it passes
  `fillInForkChoiceMissingBlocks`' check only to be refused for its unknown parent
  (`ForkChoiceFill.FinalizedRootWithoutNode`). `ForkChoiceStore.InsertAllErrors` gives the exact condition
  of that error.

## Model

| member | source | states |
|---|---|---|
| Multilock.RunKeepsInv | async/multilock.go:37-124 | in every interleaving of Lock, Unlock, Yield and Clean: only registered channels are open, closed ones are empty, each token is in one place, no goroutine has panicked, at most one is inside the registry mutex |
| Multilock.MutualExclusion | async/multilock.go:37-68 | no interleaving has two distinct locks past Lock and before Unlock with a common key, waits on channels that Clean closed and replaced included |
| Multilock.TokenConservation | async/multilock.go:93-124 | outside a running Clean every registered channel is open and its token is either buffered with no holder or held by exactly one lock |
| Multilock.UnlockNeverBlocksOrPanics | async/multilock.go:56-68 | Unlock's sends never block and never hit a closed channel, and nothing ever panics |
| Multilock.NoClosedChannelIsUsed | async/multilock.go:56-112 | whatever Unlock is about to send to is open and empty, and whatever Clean is about to close is open and drained |
| Multilock.CleanSparesHeldKeys | async/multilock.go:93-112 | Clean never removes a key a lock holds, even one part of the way through Lock |
| Multilock.GetChanReturnsOpenChannel | async/multilock.go:114-124 | getChan hands out the key's open registered channel, so a retry after a closed channel finds its replacement |
| Multilock.NoWaitCycle | async/multilock.go:42-49 | the waits-for relation has no cycle in any reachable state |
| Multilock.DeadlockFree | async/multilock.go:37-68 | from any goroutine in the middle of an operation, following who blocks whom ends at one that can step or is free to call Unlock |
| MultilockProgress.EveryStepGoesOn | async/multilock.go:37-68 | every step of every run takes each goroutine along its code: in Lock it keeps what it has received, a receive that fails on a closed channel leads back to getChan for the same key, and Lock returns only with a token for every key; Unlock sends every token back in order before it cleans; a holder, a cleaner and an idle goroutine go on only as they call |
| MultilockProgress.OperationsCanStart | async/multilock.go:37-90 | in every state of every run a goroutine that is free to can make a lock, call Lock, Unlock or Clean |
| MultilockProgress.DrainingEnds | async/multilock.go:42-49 | no schedule goes on for ever without a new operation being started: the retries on closed channels come to an end |
| MultilockProgress.CanDrain | async/multilock.go:37-68 | from every state of every run a continuation that starts nothing new goes on until nothing is left to do |
| MultilockProgress.DrainedIsIdle | async/multilock.go:37-68 | and then nobody is in the middle of anything |
| MultilockProgress.EveryLockIsServed | async/multilock.go:37-68 | in every such continuation each goroutine that was in Lock is at some moment past it, with a token for each of its keys |
| MultilockSetup.Unique | async/multilock.go:126-141 | the same keys, each once, in order of first occurrence |
| MultilockSetup.NewMultilock | async/multilock.go:77-90 | nil exactly for no keys; otherwise the given keys, each once, in strictly increasing order |
| MultilockSetup.LockTable.GetChan | async/multilock.go:114-124 | the registry after the call is that of the step the interleaving model takes, and the lock waits at the channel returned |
| MultilockSetup.LockTable.Clean | async/multilock.go:92-112 | exactly the idle keys are returned, each once, their channels drained, closed and forgotten, all others untouched; the call is a run of the model in which only its goroutine moves |
| LightClientOrder.BetterIsGreaterRank | beacon-chain/light-client/lightclient.go:594-674 | for updates of one supermajority threshold the eight-stage comparison, conditional stages included, is one lexicographic order on a key of eight numbers |
| LightClientOrder.RankMeans | beacon-chain/light-client/lightclient.go:599-674 | what the eight numbers are: two thirds of the committee's bits are set; how many are, if fewer; a non-zero sync committee branch signed in its own period; a non-zero finality branch; that in the attested period; how many bits are set; the older attested and signature slot |
| LightClientOrder.CountIsParticipants | beacon-chain/light-client/lightclient.go:600-601 | the number of participants is the number of positions whose bit is set |
| LightClientOrder.PeriodHolds | beacon-chain/light-client/lightclient.go:624-625 | a slot's period is the one whose epochs' slots it lies in |
| LightClientOrder.BetterFailsIff | beacon-chain/light-client/lightclient.go:594-640 | for any two updates: one beats none; participation decides whatever the wrappers; the comparison fails if and only if participation is level and a wrapper does not match its version |
| LightClientOrder.BeatsIsAsymmetric | beacon-chain/light-client/lightclient.go:594-674 | irreflexive, asymmetric and never an error on updates whose committees need the same number of participants for a supermajority |
| LightClientOrder.BeatsIsTransitive | beacon-chain/light-client/lightclient.go:594-674 | transitive |
| LightClientOrder.IncomparabilityIsTransitive | beacon-chain/light-client/lightclient.go:594-674 | incomparability is transitive, so the order is a strict weak one |
| LightClientOrder.AsymmetricIffSameThreshold | beacon-chain/light-client/lightclient.go:599-607 | a generalisation over committee sizes, of which the source has one: updates of two sizes never each beat the other if and only if the sizes have the same supermajority threshold |
| LightClientOrder.BetterFinalityIsLater | beacon-chain/light-client/lightclient.go:781-808 | a finality update is better exactly when later in finalized, then attested, then signature slot |
| LightClientStore.Store.SaveLCData | beacon-chain/light-client/store.go:42-149 | the new item links to its cached parent, holds the new update unless the branch's or the database's best is not beaten by it, and its best is unbeaten among the updates of its period offered on the branch if the order applies to them; fails exactly when a needed database read or the comparison does, and then leaves everything as it was |
| LightClientStore.Store.RivalsWellFormed | beacon-chain/light-client/store.go:117-120 | while all updates offered and stored are ones the order applies to, the comparison never fails |
| LightClientStore.Store.BranchBest | beacon-chain/light-client/store.go:117-126 | after any calls, no own update of a same-period item on an item's parent chain beats the item's stored best update, if the order applies to those the branch was offered |
| LightClientStore.Store.ChainDescends | beacon-chain/light-client/store.go:245-250 | slots strictly decrease along parent pointers, so every walk ends |
| LightClientStore.Store.ChainIsWalk | beacon-chain/light-client/store.go:245-250 | a branch is the walk along parent pointers from its item to one without a parent |
| LightClientStore.Store.WalkIsOnChain | beacon-chain/light-client/store.go:245-250 | every walk from an item is the beginning of its branch |
| LightClientStore.Store.WalkIsAnswered | beacon-chain/light-client/store.go:234-253 | on every walk along parent pointers from the head's parent each item's period has an answer: the best update of the first item of the period, which no own update of that period on the walk beats |
| LightClientStore.Store.AnswerIsOnWalk | beacon-chain/light-client/store.go:234-253 | a period with an answer is that of an item on such a walk |
| LightClientStore.Store.CollectByPeriod | beacon-chain/light-client/store.go:245-250 | per period on the branch, the best update of the item nearest the head |
| LightClientStore.Store.NearestIsBranchBest | beacon-chain/light-client/store.go:353-361 | what the walk collects for a period is an update of that period that no same-period own update on the branch beats |
| LightClientStore.Store.NearestPeriods | beacon-chain/light-client/store.go:353-361 | the periods collected are exactly those on the branch |
| LightClientStore.Store.CleanCache | beacon-chain/light-client/store.go:377-387 | exactly the items below the finalized slot are forgotten, exactly the cached items' parent pointers to such items are cut, and the branch invariant survives |
| LightClientStore.Store.MigrateToCold | beacon-chain/light-client/store.go:319-375 | the finalized branch's best per period goes to the database, except where a write fails; exactly the items below the finalized slot are forgotten and exactly the cached items' parent pointers to such items are cut; a missing finalized block changes nothing |
| LightClientStore.Store.GetCacheUpdatesByPeriod | beacon-chain/light-client/store.go:234-253 | what the cache knows of the branch the head extends, nothing if its parent is not cached |
| LightClientStore.Store.LightClientUpdates | beacon-chain/light-client/store.go:191-220 | the first gap-free run of periods from the start, cache before database, each update of its own period |
| LightClientStore.Store.AnswerIsBranchBest | beacon-chain/light-client/store.go:201-219 | the update answered for a period on the branch is one no same-period own update there beats |
| SquareRoot.SquareRootCache.CachedSquareRoot | math/math_helper.go:54-74 | result and cache after the call are those of a definition that mentions only the exact root and the one wrapping case; the Newton loop terminates |
| SquareRoot.StepStaysAbove | math/math_helper.go:68 | a Newton step never lands below the root, from whichever side it starts |
| SquareRoot.InitialIsSound | math/math_helper.go:32-36 | the initial cached pair is a balance and its exact root |
| SquareRoot.CacheStaysSound | math/math_helper.go:54-74 | after any calls without the wrapping case the cache holds the last non-zero balance and its exact root |
| SquareRoot.EveryRunCorrectIff | math/math_helper.go:54-74 | every call of a run returns the exact floor root if and only if none asks for 2^64 - 1 right after a balance of 1, 2 or 3 |
| SquareRoot.OverflowingSequence | math/math_helper.go:66-70 | after 1, asking for 2^64 - 1 divides by zero, and asking again returns zero |
| BlobAvailability.RunKeepsInv | beacon-chain/blockchain/process_block.go:832-904 | the invariant of every interleaving of ReceiveBlob, of writers that do not notify, and of waiting blocks: channels hold each index once, what is seen is stored, and what is stored while a waiter misses it has been notified, is about to be, or was stored by a writer that does not notify |
| BlobAvailability.AvailableMeansStored | beacon-chain/blockchain/process_block.go:832-904 | inside the retention window success means every committed blob is stored, whoever stored it |
| BlobOutcomes.NilInWindowMeansStored | beacon-chain/blockchain/process_block.go:832-904 | from the run's actions alone: if the last disk check of the sync was inside the window and the call has returned nil, every committed blob is stored |
| BlobOutcomes.CheckOfWaiter | beacon-chain/blockchain/process_block.go:835-838 | a call past its check has made one, and has returned nil as not required if and only if that was outside the window |
| BlobOutcomes.CheckDecides | beacon-chain/blockchain/process_block.go:835-862 | what the check decides: nil outside the window, an error for too many commitments, nil if every committed blob is stored, and otherwise waiting for exactly the others |
| BlobOutcomes.EveryStepGoesOn | beacon-chain/blockchain/process_block.go:863-904 | every step of every run takes waiters and receivers along their code: an index read is the only one removed, an error comes from cancelling only, nil only once nothing is missing and the notifier is deleted; a blob is stored before it is notified, and a failed write ends the call with nothing stored |
| BlobOutcomes.OnlySelectWaits | beacon-chain/blockchain/service.go:114-163 | in every state of every run nothing blocks but the select on an empty channel |
| BlobOutcomes.NotifiedWaiterEnds | beacon-chain/blockchain/process_block.go:885-899 | once no receiver is in between and all that is missed has been notified since the check, the waiter alone reaches its end, with nil |
| BlobAvailability.RecordIsHistory | beacon-chain/blockchain/receive_blob.go:10-25 | what the state records as notified, or stored without notifying, since a root's last disk check is what the run has done since then |
| BlobAvailability.ComesThroughIffNotified | beacon-chain/blockchain/service.go:114-144 | in every run an index the waiter misses is in its channel or being sent to it if and only if some ReceiveBlob of it has notified since the disk check |
| BlobAvailability.MissingIsAccountedFor | beacon-chain/blockchain/receive_blob.go:10-25 | a blob the waiter misses is not stored, about to be notified, about to be sent to the waiter's channel, in it, or was stored since the disk check by a writer that does not notify |
| BlobAvailability.WakeupLostIff | beacon-chain/sync/rpc_beacon_blocks_by_root.go:271-275 | a missed blob is stored with nothing on its way if and only if a writer that does not notify stored it since the disk check and no ReceiveBlob of it has notified since then or is about to |
| BlobAvailability.ChannelHoldsAllIffNotified | beacon-chain/blockchain/process_block.go:863-899 | once no receiver is in between, the waiter's channel holds exactly those missing indices that were notified since its disk check |
| BlobAvailability.NoLostWakeup | beacon-chain/blockchain/process_block.go:863-899 | once everything missing is stored, none of it since the disk check by a writer that does not notify, and no receiver is in between, all of it is in the waiter's channel |
| BlobAvailability.SleepsUntilCancelled | beacon-chain/blockchain/process_block.go:885-903 | a waiter whose wakeup is lost never succeeds: in every run in which no ReceiveBlob stores that blob again it still waits or was cancelled |
| BlobAvailability.WaiterIsNeverWoken | beacon-chain/das/availability_blobs.go:131-135 | a run at whose end everything missed is stored, no receiver is left and the waiter's channel is empty |
| BlobAvailability.NotifierNeverBlocks | beacon-chain/blockchain/service.go:114-144 | the send after unlocking always finds buffer space, in every interleaving of notifyIndex, forRoot and delete |
| BlobNotifiers.NotifierMap.NotifyIndex | beacon-chain/blockchain/service.go:114-144 | the locked part of notifyIndex on the two maps is the model's step, with the same decision and channel |
| BlobNotifiers.NotifierMap.ForRootChannel | beacon-chain/blockchain/service.go:146-156 | forRoot is the model's step, and the waiter waits at the channel returned |
| BlobNotifiers.NotifierMap.Delete | beacon-chain/blockchain/service.go:158-163 | delete is the model's step |
| BlobNotifiers.MissingBlobIndices | beacon-chain/blockchain/process_block.go:604-625 | exactly the committed indices not on disk; an error exactly for more commitments than the slot allows |
| ColumnAvailability.RunKeepsInv | beacon-chain/blockchain/process_block.go:682-828 | the invariant of every interleaving of any number of saves and waiting checks with the feed between them |
| ColumnAvailability.AvailabilityIsSound | beacon-chain/blockchain/process_block.go:741-757 | success after checking means the reconstruction threshold is stored, or every sampled column is |
| ColumnOutcomes.NilInWindowMeansStored | beacon-chain/blockchain/process_block.go:682-828 | from the run's actions alone: if the call began inside the window, the block has commitments and nil was returned, at least half of all columns are stored or every sampled one is |
| ColumnOutcomes.BeginOfWaiter | beacon-chain/blockchain/process_block.go:687-708 | every call begins once, and returns nil as not required if and only if it then was outside the window or found no commitments |
| ColumnOutcomes.EveryStepGoesOn | beacon-chain/blockchain/process_block.go:731-815 | every step of every run takes waiters and savers along their code: subscribed before the first look at the store, nil at the first look with half of the columns, at the second with no sampled one missing, and a notification counts each missing column it names once; columns are stored before they are published, to everyone subscribed then |
| ColumnOutcomes.OthersCanMove | beacon-chain/db/filesystem/data_column.go:410-434 | in every state of every run nothing waits but the select, a saver for the feed, and the feed for room in a channel |
| ColumnOutcomes.StoredWaiterEnds | beacon-chain/blockchain/process_block.go:789-815 | from every state of every run a waiter whose missing columns are all stored can be brought to its end, with nil, by steps of the feed and of subscribers alone |
| ColumnOutcomes.MinimumIsHalf | beacon-chain/core/peerdas/reconstruction.go:27-31 | the columns needed to reconstruct are the least number that is half of all |
| ColumnAvailability.CountNeverExceedsStored | beacon-chain/blockchain/process_block.go:796-806 | while waiting, the running count never exceeds the columns really stored |
| ColumnAvailability.MissingWillBeTold | beacon-chain/blockchain/process_block.go:731-757 | because each subscription precedes both snapshots, a missing column is not stored, about to be published, being sent with the waiter still to be reached, or in the waiter's channel |
| ColumnAvailability.StoredColumnGetsThrough | beacon-chain/db/filesystem/data_column.go:410-434 | once a column a waiter misses is stored, that waiter has something to read, the feed can go on, or a subscriber with a full channel that holds it up can take a step |
| ColumnAvailability.StoredColumnCanBeRead | beacon-chain/db/filesystem/data_column.go:410-434 | from every reachable state the column can be brought to the waiter by steps of the feed and of subscribers alone, so no subscriber holds the feed up for good |
| ColumnAvailability.ReadNotification | beacon-chain/blockchain/process_block.go:796-815 | the loop over one notification computes what the step system assumes of it, early returns included |
| ColumnAvailability.AbsorbKeeps | beacon-chain/blockchain/process_block.go:796-815 | one notification removes exactly its indices from the missing ones, counts none twice, and returns success only soundly |
| ColumnAvailability.MissingDataColumnIndices | beacon-chain/blockchain/process_block.go:627-653 | exactly the sampled columns not stored; an error exactly for more than 128 |
| ColumnStore.Store.ColumnsNotStored | beacon-chain/das/availability_columns.go:194-230 | marking and shifting in place leave the kept columns, in order, at the front, and the places behind them as they were |
| ColumnStore.KeepsUnstoredIff | beacon-chain/das/availability_columns.go:199-210 | what is kept is the order-preserving filter of unstored columns if and only if no stored column is in a leading run of zero roots |
| ColumnStore.NonZeroRootsKeepUnstored | beacon-chain/das/availability_columns.go:194-230 | with non-zero roots it always is |
| ColumnStore.StoredZeroRootIsKept | beacon-chain/das/availability_columns.go:199-210 | a stored column with the zero root is kept |
| ColumnStore.Store.VerifyAndSave | beacon-chain/das/availability_columns.go:123-137 | nothing is saved unless all columns verify, and success means all are on disk |
| ColumnStore.RequiredMeans | beacon-chain/das/availability_columns.go:103-121 | exactly the blocks within retention that have blobs need columns, those in custody; it cannot be told exactly if such a block's commitments or the custody columns cannot be read |
| ColumnStore.Store.BisectVerification | beacon-chain/das/availability_columns.go:157-192 | given an iterator that honours its contract, seeing what filtering leaves in its own slices, no error means every column is on disk; only verified columns are ever saved; without write faults and zero roots, disk and outcome are those of the one way the iterator can be played to its end |
| ColumnStore.Store.IsDataAvailable | beacon-chain/das/availability_columns.go:71-101 | success leaves every column a block needs on disk and the blocks' cache entries gone; an error for missing columns happens exactly when some block's cannot be collected, and saves nothing; otherwise, without write faults, it succeeds if and only if just the cached columns that are needed and not on disk all verify, or their bisection ends well |
| ColumnStore.Store.Stash | beacon-chain/das/data_column_cache.go:65-74 | the column is filed under its slot, root and index, refused exactly when the index is too high, and nothing else changes |
| ColumnStore.Store.Append | beacon-chain/das/data_column_cache.go:76-91 | every wanted column is added exactly once behind what was there, or an error when one is missing |
| ColumnStore.Store.IndicesNotStored | beacon-chain/das/data_column_cache.go:93-102 | exactly the indices the summary lacks |
| ColumnStore.Store.Cleanup | beacon-chain/das/data_column_cache.go:37-47 | exactly the blocks' entries are removed |
| ColumnBisector.ColumnBisectorHonours | beacon-chain/sync/backfill/verify_column.go:106-162 | the bisector ends, and if it reports no error every column given was in a batch that went well, whatever earlier calls left in it |
| ColumnBisector.StoreCanRely | beacon-chain/sync/backfill/verify_column.go:106-162 | with this bisector, reused or not, the store's guarantee holds without further conditions |
| ColumnBisector.BatchesHold | beacon-chain/sync/backfill/verify_column.go:106-136 | the batches hold the columns given and whatever earlier calls left behind, each as often as it was given |
| ColumnBisector.NoErrorIff | beacon-chain/das/availability_columns.go:157-192 | a bisection by peer played to its end reports no error if and only if each column that does not verify has its place on disk or in the batch of a peer visited before; then every batch's places are on disk |
| ColumnBisector.RetryGoesWellIff | beacon-chain/sync/backfill/verify_column.go:93-123 | with a failed column left in its peer's group and a replacement from another peer, the retry goes well if and only if the replacement's peer is visited first |
| ColumnBisector.Bisector.Bisect | beacon-chain/sync/backfill/verify_column.go:106-123 | fails exactly on an untracked column, with those before it grouped; otherwise every column joins the group of its peer and each peer is visited once |
| ColumnBisector.Bisector.Next | beacon-chain/sync/backfill/verify_column.go:125-136 | answers as the iterator the store's proof is about, batch after batch |
| ColumnBisector.Bisector.OnError | beacon-chain/sync/backfill/verify_column.go:146-162 | the turn is recorded as failed, and exactly the columns filtering left in the batch are added to the failures |
| ColumnBisector.Bisector.Reset | beacon-chain/sync/backfill/verify_column.go:93-104 | exactly the failed places lose their peer, errors and failures are gone, the groups stay |
| ColumnBisector.Bisector.AddPeerColumns | beacon-chain/sync/backfill/verify_column.go:30-34 | exactly the places of the columns are now tracked as the peer's |
| ColumnBisector.FailedColumnComesBack | beacon-chain/sync/backfill/verify_column.go:93-123 | after a failure, reset and a copy from another peer, both copies are bisected |
| BlockByTimestamp.Eth1Service.BlockByTimestamp | beacon-chain/execution/block_reader.go:94-162 | the interpolation and final scan terminate at the unique latest block at or before the time, the one linear search finds; too late exactly after the known head; any other error only from the provider, cancellation or a first block after the time; a context that ends is noticed before the next lookup of a loop; the number of headers looked up is exactly the searches plus the distance to the target plus the closing lookups, never more even when cut short, and bounds the provider's calls |
| BlockByTimestamp.Eth1Service.FindMaxTargetEth1Block | beacon-chain/execution/block_reader.go:164-179 | scanning back ends at the target, one lookup per block, and in an error past the head when there is none |
| BlockByTimestamp.Eth1Service.FindMinTargetEth1Block | beacon-chain/execution/block_reader.go:181-201 | scanning forward ends at the target, one lookup per block and two more when no block has exactly that time |
| BlockByTimestamp.LatestIsUnique | beacon-chain/execution/block_reader.go:97-100 | linear search finds the one block at or before the time whose successor is after it |
| BlockByTimestamp.EstimateLandsOnRegularChain | beacon-chain/execution/block_reader.go:118-149 | on a chain with regular block times one step, forward or backward, lands less than one block time from the target, and the next step stops |
| BlockByTimestamp.Eth1Service.RetrieveHeaderInfo | beacon-chain/execution/block_reader.go:203-224 | the chain's header, with a provider call exactly when it is not cached; fails exactly when the provider does |
| BlockByTimestamp.NearInBuffer | beacon-chain/execution/block_reader.go:118-149 | a search that ends within the buffer ends near the target: on chains with a least spacing, the blocks left to scan take up no more than the buffer, but for one when scanning back |
| BlockByTimestamp.ExceededOnlyByGuard | beacon-chain/execution/block_reader.go:94-149 | on chains with blocks more than a ninth of the buffer apart, more than 2 * repeatedSearches lookups mean that the rounds were used up or an estimate was out of range |
| BlockByTimestamp.OutOfRangeIsFar | beacon-chain/execution/block_reader.go:118-149 | an estimate before block zero from block c leaves a scan of at least c blocks, times the configured spacing over the largest |
| BlockByTimestamp.NearRegularWithinBound | beacon-chain/execution/block_reader.go:94-96 | at most 2 * repeatedSearches lookups on every chain within a q-th part of the configured spacing, q being two or more, for times more than a q-th part of the height in block times after block zero and within the reach of seven rounds from the head |
| BlockByTimestamp.ReachIsPower | beacon-chain/execution/block_reader.go:118-149 | the reach of n rounds, each of which divides the distance by q, is exactly 4 * q^n block times and one |
| BlockByTimestamp.EarlyTimeExceedsBound | beacon-chain/execution/block_reader.go:94-96 | more than 2 * repeatedSearches lookups on every such chain of more than thirty blocks if the first estimate falls before block one |
| BlockByTimestamp.RegularChainLookups | beacon-chain/execution/block_reader.go:94-96 | on regular chains at most six lookups, whatever their length, except that the time of block zero costs the whole chain; within the bound if and only if the time is another or the head is below block number twenty |
| BlockByTimestamp.WholeChainIsRequested | beacon-chain/execution/block_reader.go:94-96 | no constant bounds the calls: for every height a chain and time that cost a request per block |
| BlockByTimestamp.NothingBeforeBlockZero | beacon-chain/execution/block_reader.go:164-179 | a time before block zero ends in a header error |
| DepositLogs.TrieIsAlwaysPrefix | beacon-chain/execution/log_processing.go:110-151 | under duplicates, gaps, rescans and failures the trie is always a prefix of the contract's deposits |
| DepositLogs.TrieCompleteIffNothingLost | beacon-chain/execution/log_processing.go:123-148 | the trie holds every deposit up to the last received index if and only if no hash or insertion failed on the deposit next in line |
| DepositLogs.LostDepositStaysLost | beacon-chain/execution/log_processing.go:123-148 | after one failed insertion, rescans succeed and the trie stays empty |
| DepositLogs.ProcessSucceedsIff | beacon-chain/execution/log_processing.go:91-148 | a log is taken if and only if it is no deposit, or is readable and was received before, or is the very next one with the trie complete up to it and nothing done for it fails |
| DepositLogs.HonestIsTaken | beacon-chain/execution/log_processing.go:361-458 | an honest answer without a fault to a scan that has missed and lost nothing is taken in full |
| DepositLogs.DepositScanner.ProcessLog | beacon-chain/execution/log_processing.go:91-148 | the fields after the call are those of the per-log definition the run properties are about, and the trie is a prefix of the contract's deposits |
| DepositLogs.DepositScanner.ProcessBlockInBatch | beacon-chain/execution/log_processing.go:361-458 | a refused range halves the batch and keeps the position, an answered one moves to its end and grows the batch up to the limit, 64-bit wrap-around included; it succeeds if and only if a refused range can be made smaller, or all logs are taken and every header asked for is there; restarting after a failure misses nothing |
| DepositLogs.DepositScanner.ProcessPastLogs | beacon-chain/execution/log_processing.go:289-328 | on completion the answered inclusive ranges, none longer than the limit, cover every block from the start to the follow height, even if a sum wrapped and the scan went back, and every deposit up to it has been received; a failure has a query that was not answered as it has to be; with an honest and faultless provider it never fails, and completes within a query per block |
| DepositLogs.CompletedScanFillsTrie | beacon-chain/execution/log_processing.go:289-328 | a completed scan with nothing lost has every deposit up to the follow height in the trie at its index |
| PayloadBodies.ComputeRanges | beacon-chain/execution/payload_body.go:135-156 | the pieces put end to end are the sorted input, duplicates included; each holds exactly the numbers of its request; no piece could be continued by the next; wrap-around of start plus count does no harm |
| PayloadBodies.BatchHoldsLastNumber | beacon-chain/execution/payload_body.go:72-86 | the batch holds exactly the non-zero hashes, each with the number of the last block that has it |
| PayloadBodies.Reconstructor.AddToBatch | beacon-chain/execution/payload_body.go:58-87 | accepts exactly blinded blocks with a header, and keeps blocks and batch in step |
| PayloadBodies.Reconstructor.RequestBodiesByHash | beacon-chain/execution/payload_body.go:175-203 | each hash is asked for once; fails exactly on a failing or short answer; otherwise every hash has a body returned for it or is reported nil |
| PayloadBodies.Reconstructor.RequestBodiesByRange | beacon-chain/execution/payload_body.go:158-173 | each body is filed under the hash its block number stands for; fails exactly when the answer to this request fails, has another length or a nil body |
| PayloadBodies.Reconstructor.HandleNilResults | beacon-chain/execution/payload_body.go:111-127 | the ranges asked for are the maximal runs of exactly the nil hashes' numbers; it succeeds if and only if each is answered in full, and then every nil hash has a body |
| PayloadBodies.Reconstructor.Unblinded | beacon-chain/execution/payload_body.go:225-240 | one full block per blinded one, in input order, with its own header and a body returned for its hash or the number kept for its hash; that number is its own if the blocks that share a hash carry one number |
| PayloadBodies.ReconstructBlindedBlockBatch | beacon-chain/execution/payload_body.go:34-43 | success rebuilds every block in order from bodies returned for its hash or, after nil, for the number of the last block with that hash, which is its own number if the blocks that share a hash carry one; the client is blamed if and only if one of the requests made, by hash or for the maximal runs of the numbers of nil hashes, is not answered in full; a missing body cannot occur; a build error has a payload that does not fit its block |
| PayloadBodies.OwnBodiesIff | beacon-chain/execution/payload_body.go:72-86 | every success, for every client, gives every block a body for its own hash or number if and only if the blocks that share a non-zero hash carry one number |
| PayloadBodies.ReconstructClash | beacon-chain/execution/payload_body.go:34-43 | whenever they do not, some client makes the call succeed with a block that has neither |
| PayloadBodies.FirstBlockGetsSecondBody | beacon-chain/execution/payload_body.go:72-86 | blocks 1 and 2 with one hash: the first gets the body of number 2 |
| AttestationCache.AttestationCache.Add | beacon-chain/cache/attestation.go:51-111 | the group's votes become the old ones plus the new ones, carried by one attestation; each signature still has one signature per bit if and only if a single vote fits the first attestation's bits; other groups are untouched; errors change nothing; in a group that exists an aggregate's copy is appended and all else stays, a single vote changes only the first attestation, by its bit and its signature, and fails if and only if it is new and the signature cannot be aggregated |
| AttestationCache.AttestationCache.DeleteCovered | beacon-chain/cache/attestation.go:137-172 | exactly the uncovered attestations remain, in order; only the argument's votes are lost even when a length mismatch stops it half-way; no group is empty |
| AttestationCache.AttestationCache.PruneBefore | beacon-chain/cache/attestation.go:174-187 | exactly the groups of earlier slots go, and the number returned is what the count loses |
| AttestationCache.AttestationCache.AggregateIsRedundant | beacon-chain/cache/attestation.go:189-218 | true exactly when one stored attestation carries all the bits; an error exactly when a list of another length is met before one |
| AttestationCache.AttestationCache.Count | beacon-chain/cache/attestation.go:125-135 | the sum over groups, whatever the order of the walk |
| AttestationCache.Compact | beacon-chain/cache/attestation.go:156-165 | compacting over the list being read keeps exactly the uncovered attestations, and on an error loses none of them |
| AttestationCache.UncoveredInOrder | beacon-chain/cache/attestation.go:156-165 | what remains are the attestations whose bits are not among the argument's, in the order they had |
| AttestationCache.TotalIsAll | beacon-chain/cache/attestation.go:125-135 | the sum over groups is the number of places of attestations |
| AttestationCache.VoteOutOfRangeBreaksSignature | beacon-chain/cache/attestation.go:95-108 | two calls of Add after which a signature is aggregated whose bit is not |
| AttestationCache.ProperSubsetsIff | beacon-chain/cache/attestation.go:137-165 | what deleting the covered ones leaves is what deleting proper subsets would leave if and only if no attestation of the group has exactly those bits |
| AttestationCache.EqualBitsAreDeleted | beacon-chain/cache/attestation.go:137-172 | a group of one attestation is deleted by its own bits, though they are no proper subset |
| AttestationCache.AddedThenDeleted | beacon-chain/cache/attestation.go:137-172 | adding an attestation and deleting what it covers does so |
| ForkChoiceStore.InsertAllSucceedsIff | beacon-chain/forkchoice/doubly-linked-tree/forkchoice.go:468-487 | a chain of unknown blocks is inserted if and only if it hangs on a known node or the tree is empty, newer justified balances can be read, and a newer finalized block is a node once the first block is in, has an epoch that fits, and keeps the first block if there are more |
| ForkChoiceStore.InsertAllErrors | beacon-chain/forkchoice/doubly-linked-tree/forkchoice.go:468-487 | each of the four errors has its exact condition |
| ForkChoiceStore.FirstBlockDecides | beacon-chain/forkchoice/doubly-linked-tree/forkchoice.go:472-487 | outcome and store, success or failure, are those after the first block, with the rest of the chain added on success |
| ForkChoiceStore.OwnCheckpointKeepsNewest | beacon-chain/forkchoice/doubly-linked-tree/forkchoice.go:468-487 | with a finalized checkpoint from which a path of nodes leads to the first block, a chain on a known node is inserted whenever the balances can be read and the epoch fits, and its newest block is then a node |
| ForkChoiceStore.NewestIsNodeIff | beacon-chain/forkchoice/doubly-linked-tree/forkchoice.go:472-487 | a generalisation over checkpoints, of which callers pass the chain's own: after a success the newest block is a node unless it is alone and a newer finalized block prunes it |
| ForkChoiceStore.FinalizedInsideChainFails | beacon-chain/forkchoice/doubly-linked-tree/forkchoice.go:472-487 | a finalized block further up the chain: the call fails on a known base, with one block inserted and both checkpoints moved |
| ForkChoiceStore.SurvivesHasPath | beacon-chain/forkchoice/doubly-linked-tree/store.go:174-244 | what pruning keeps is reached from the finalized block by a path of children, the first of them after the epoch start |
| ForkChoiceStore.PathSurvives | beacon-chain/forkchoice/doubly-linked-tree/store.go:174-244 | what such a path reaches is kept |
| ForkChoiceStore.PruneKeepsPaths | beacon-chain/forkchoice/doubly-linked-tree/store.go:198-244 | pruning leaves, in terms of the tree as it was, exactly what a path of children leads to from the finalized block, the first of them after the epoch start; an unknown finalized root is an error and the tree root nothing to do |
| ForkChoiceStore.CheckpointsAfter | beacon-chain/forkchoice/doubly-linked-tree/forkchoice.go:137-154 | each checkpoint moves to a later epoch only, the justified one left behind is remembered, unreadable balances stop the finalized one, and the nodes change only with it |
| ForkChoiceStore.KeepTwice | beacon-chain/forkchoice/doubly-linked-tree/store.go:219-241 | pruning in the code's two rounds is pruning in one |
| ForkChoiceStore.ForkChoice.InsertChain | beacon-chain/forkchoice/doubly-linked-tree/forkchoice.go:472-487 | the store and outcome are those of inserting block by block and moving the checkpoints after each; for unknown blocks success has its exact condition, and without a base nothing changes; the nodes stay a tree |
| ForkChoiceStore.ForkChoice.AdvanceCheckpoints | beacon-chain/forkchoice/doubly-linked-tree/forkchoice.go:137-154 | checkpoints move only to later epochs, the justified one even if its balances cannot be read, and a new finalized one prunes |
| ForkChoiceStore.ForkChoice.PruneNodes | beacon-chain/forkchoice/doubly-linked-tree/store.go:198-244 | an unknown finalized root is an error, the tree root nothing to do; otherwise exactly its descendants through children after the epoch start stay |
| ForkChoiceStore.ForkChoice.InsertNode | beacon-chain/forkchoice/doubly-linked-tree/store.go:86-128 | refused exactly when the parent is unknown and the tree has a root; the nodes stay a tree |
| ForkChoicePrune.GoneIs | beacon-chain/forkchoice/doubly-linked-tree/store.go:174-196 | the descent deletes exactly the nodes it reaches without passing the finalized one, and the roots of stale entries in their lists |
| ForkChoicePrune.DescentPrunesIff | beacon-chain/forkchoice/doubly-linked-tree/store.go:198-244 | both rounds of the descent leave exactly what pruning is to leave if and only if the finalized block has no stale entry in the old tree root's list |
| ForkChoicePrune.RunPrunes | beacon-chain/blockchain/process_block_helpers.go:250-263 | in every run of insertions and rising finalized epochs the descent leaves the nodes of the definition on sets, if blocks are added only after the start of the finalized epoch, as verifyBlkFinalizedSlot and the fill-in check, or if no new checkpoint is at a child of the tree root that the last one left out of its chain |
| ForkChoicePrune.ChildIsDropped | beacon-chain/forkchoice/doubly-linked-tree/store.go:234-241 | a child dropped for its slot stays as a stale entry |
| ForkChoicePrune.ChildInsertedAgainIsLost | beacon-chain/forkchoice/doubly-linked-tree/store.go:174-196 | inserted again past the check on slots and finalized against the last checkpoint, it is deleted through that entry, and the tree root is not a node |
| ForkChoicePrune.NodeMap.PruneBelow | beacon-chain/forkchoice/doubly-linked-tree/store.go:174-196 | the recursion over the lists deletes exactly the roots its definition says |
| ForkChoicePrune.NodeMap.PruneTree | beacon-chain/forkchoice/doubly-linked-tree/store.go:198-244 | outcome, tree root, nodes and lists after both rounds; the nodes are those of the definition on sets if and only if the finalized block has no stale entry |
| ForkChoicePrune.NodeMap.InsertNode | beacon-chain/forkchoice/doubly-linked-tree/store.go:86-128 | a new node joins its parent's list and has none itself, and the lists keep holding every node once under its parent |
| ForkChoiceBatch.OwnBatchIsInserted | beacon-chain/blockchain/process_block.go:209-292 | a batch whose blocks' newer finalized checkpoints lie on its own line, without going back, is inserted without an error, whatever is pruned on the way, and its newest block is then a node |
| ForkChoiceBatch.ChainIsUniformBatch | beacon-chain/forkchoice/doubly-linked-tree/forkchoice.go:472-487 | a chain with one pair of checkpoints is a batch in which every block has that pair |
| ForkChoiceBatch.InsertEach | beacon-chain/forkchoice/doubly-linked-tree/forkchoice.go:472-487 | the store and outcome are those of inserting block by block with each block's checkpoints, up to the first error |
| ForkChoiceFill.Service.FillInMissingBlocks | beacon-chain/blockchain/process_block_helpers.go:338-381 | the chain handed over is oldest first, parent-linked, after the finalized slot, unknown to fork choice, from a child of a known node or of the finalized root up to the incoming block's parent; each error before that has its exact condition and changes nothing; what follows is inserting that chain, with the exact condition of success |
| ForkChoiceFill.FinalizedRootWithoutNode | beacon-chain/blockchain/process_block_helpers.go:376-381 | two calls: one leaves a finalized root that is not a node, the next passes the descent check and is refused |
| ForkChoiceFill.Service.WalkBack | beacon-chain/blockchain/process_block_helpers.go:354-373 | the walk terminates, gathers exactly the missing chain newest first, and stops with an error exactly at an unreadable block |
| ForkChoiceFill.MissingChainIsUnique | beacon-chain/blockchain/process_block_helpers.go:354-373 | chain and base are determined by where the walk starts |
| ForkChoiceFill.SlotsRise | beacon-chain/blockchain/process_block_helpers.go:354-373 | slots rise along the chain, so no block comes twice |
| ForkChoiceFill.Reverse | beacon-chain/blockchain/process_block_helpers.go:379 | reversing in place |
| ForkChoiceFill.AncestorIsEndOfPath | beacon-chain/blockchain/process_block_helpers.go:313-336 | any path back to a block at or before the slot, over later blocks only, ends at the answer |
| ForkChoiceFill.AncestorHasPath | beacon-chain/blockchain/process_block_helpers.go:313-336 | there is an answer exactly when there is such a path; otherwise the way back is broken |
| ForkChoiceFill.AncestorOfAncestor | beacon-chain/blockchain/process_block_helpers.go:313-336 | going back in two steps is going back in one |

## Left out

- Networking, command line, node wiring, metrics, logging, event feeds and broadcasting: no hard property.
- Building updates, states, proofs and headers, BLS, KZG, SSZ hashing, the database and the file system: inputs or small contracts.
- The fork choice tree beyond insertion, checkpoints and pruning: weights, heads, targets and proposer boost.
- ForkChoiceStore.ForkChoice.InsertNode: does not model an unreadable execution payload, a clock before genesis or a cancelled context, none of which touches the nodes' shape.
- ForkChoiceStore.ForkChoice.PruneNodes: says which nodes go, not how; `ForkChoicePrune.NodeMap.PruneTree` is the recursion over the lists of children, and `ForkChoicePrune.RunPrunes` says when the two agree.
- ForkChoiceStore.ForkChoice.InsertChain: takes one pair of checkpoints for the whole chain, as `fillInForkChoiceMissingBlocks` gives it; `ForkChoiceBatch.InsertEach` takes a pair per block.
- ForkChoicePrune.RunPrunes: takes the check on a block's slot and its insertion as one step; a checkpoint finalized in between is not covered.
- BlockByTimestamp.ExceededOnlyByGuard: one way only; a search that used up its rounds can still end near the target.
- BlockByTimestamp.NearRegularWithinBound: says nothing of times further from the head than its reach, nor, together with `BlockByTimestamp.EarlyTimeExceedsBound`, of early times whose first estimate is block one or later.
- Fairness: of the waiting protocols it is shown that none is stuck for good, but for the lost wakeup above, and what can be delivered, not in which order waiters are served.
- `Lock.Yield` has no step of its own: it is an unlock followed by a lock, and both orders of steps are covered.
- Termination of `processPastLogs` against a provider that refuses for ever, or once a block number wraps: the scan is bounded by a number of queries, and coverage is proved on completion.
- What `processPastLogs` does after the scan (pruning pending deposits) and the checks for the chain start.
- LightClientStore.Store.SaveLCData: takes the block's own update and the two derived ones as inputs.
- LightClientStore.Store.BranchBest: says nothing of a branch that was offered an update the order does not apply to, one whose wrapper does not match its slot or whose committee has another supermajority threshold.
- ColumnStore.Store.Append: does not fix the order in which an entry's columns are added, which ranging over a map does not either.
- ColumnBisector.Bisector.OnError: leaves out the downscoring of the peer.
- `GetAll`, `GetBySlotAndCommitteeIndex` and the fork choice attestations of the attestation cache, the plain map and LRU caches, pagination and scatter: easy members only.
