# Bertha: a verified model

Bertha stores the blocks of Ethereum-like chains in an ordered key-value database (Rust, `blockservice`
and `bertha-types`) and replays them against a state database (Go, `go/replay`). This project models the
parts of it that keep redundant or concurrent state, and proves that this state agrees with something
simpler. `dafny verify dfyconfig.toml` checks everything.

## Files

| file | models |
|---|---|
| `Pipeline.dfy`, `PipelineTheorems.dfy` | the plain replay loop, the three-stage pipeline as a step relation, and that one refines the other |
| `HashHistory.dfy` | the ring of 256 block hashes: live updates, seeding, clones |
| `StateLocks.dfy` | the two-lock protocol around the state pointer, as a step relation over any number of goroutines |
| `RulesStore.dfy`, `RulesReplay.dfy` | the store of network rules, and a second replay over what the first one persisted |
| `SnapshotRing.dfy` | the ring of snapshot slots and the directories that exist |
| `FailedBundles.dfy`, `Corrections.dfy` | reading and inserting failed bundles; correcting accounts |
| `BlockChecks.dfy`, `ArchivePool.dfy` | the checks of the third pipeline stage; sampling blocks and verifying them against the archive, as a step relation |
| `Options.dfy` | the option type |
| `Bytes.dfy` | big-endian numbers and byte order |
| `Ranges.dfy` | ranges of block numbers and their unique normal form |
| `KvLayout.dfy`, `RawStore.dfy` | keys and values of the database; key-level operations against byte-level ones |
| `BlockDb.dfy` | the block database: every operation keeps the two indexes exact, a batch equals single puts |
| `BlockIteration.dfy` | iteration over the raw keys, in Rust and in Go |
| `Blocks.dfy`, `ImportLoop.dfy`, `ImportChain.dfy` | the import loop, and imports of whole chains, cancelled and resumed |
| `FetchLoop.dfy` | fetching missing ranges from a remote service |
| `VerifyLoops.dfy` | the forward verifier (Rust), the backward verifier (Go), and when they agree |
| `Rlp.dfy`, `RlpSchema.dfy` | RLP as bertha-types encodes and decodes it, by the shape of the type |
| `RlpReference.dfy` | RLP as Appendix B of the Ethereum Yellow Paper defines it, and that the encoders are this function |
| `LogCodec.dfy`, `Transactions.dfy` | hand-written codecs of `U256` and `Log`; the five transaction types in their EIP-2718 envelopes |
| `TransactionFormat.dfy` | the binary form of transactions and logs as their standards define it, field by field |
| `TrieKeys.dfy`, `Blooms.dfy` | leaves of the transaction and receipt tries; log blooms |

Execution of blocks, Keccak, patching of rules, the encoding of blocks, file systems and networks are
parameters: functions of their inputs without further assumptions, or nondeterministic choices of the
environment. Where an assumption is needed it is named under "Left out".

Where the code does not keep what its documentation or its names suggest, what holds instead is proved, mostly as
an exact condition with a concrete input that shows how it can fail:

- `RocksDB.PutRulesUpdateHeights` and `RocksDB.Update` in Go write without maintaining the indexes of the Rust side. They
  keep them in agreement exactly for listed chains and for stored blocks (`GoPutRulesConsistent`,
  `GoUpdateConsistent`).
- `subtract_range` keeps its normal form exactly if the range is not a reversed one inside a stored range
  (`SubtractRange`, `ReversedTears`). Its callers never pass such a range: `delete_range` refuses reversed
  bounds, and so does `fetch` before it calls `subtract_ranges`, which passes stored ranges only.
- An import that is cancelled exactly before it reads the block at the seam is not resumed by the next
  import, which then never checks the link at the seam (`CancelledAtSeam`, `SeamUnchecked`).
- The availability check of `fetch` looks at one remote range only, the last one that has started by the end
  of what is wanted. It finds whatever is available exactly if no non-empty remote range reaches a later one
  that starts behind its start (`SearchIsExact`). The check on their order does not rule that out
  (`OverlapsCanHide`), and then `fetch` refuses a range that is available (`HiddenIsRefused`).
- The backward verifier compares blocks across a gap, which the forward one skips, and does not look at the
  number of a block under its key (`GoAcceptsIffNoErrors`, `VerifyBoth`).
- Decoding a `U256` accepts leading zeros, so that a transaction has several encodings (`U256IsMalleable`).
  Decoded bytes are the encoding of what was read exactly if no `U256` in them starts with a zero byte, and
  are never shorter than it (`DecodedIsMinimal`, `MarshalOfUnmarshal`); all other decoders accept exactly the
  encodings (`DecodesOnlyEncodings`).
- Updates in the logs of an epoch-sealing block itself start from the rules in force at that block, not from
  those that it has just committed (`SealingBlockPatches`); otherwise the updates of an epoch accumulate
  (`EpochTakesEffect`).
- A snapshot awaits the state-root future of its own block before the state is closed, but not those of the
  blocks before it. Under the pipeline these are the results that the third stage holds and that wait in its
  channel, any number up to 129 (`UnawaitedAtApply`, `UnawaitedReached`); under the plain loop there are none,
  since each block is checked before the next one is applied.

## Model

| member | source | states |
|---|---|---|
| ReplayLoop.RunReplayLoop | go/replay/replay.go:412-476 | nil exactly if the context is never found cancelled and every block can be read, applied and checked in order; otherwise the issue is the first thing that is wrong, in the order of the checks; cancellation is reported exactly if it is found before all else, after exactly the blocks before it |
| ReplayLoop.GoesThroughStepwise | go/replay/replay.go:421-474 | to go through is to convert, apply and check each block once, on the chain and ledger that the block before it has left |
| ReplayCore.GenuineIssueExcludesSuccess | go/replay/replay.go:412-476 | if some step fails when blocks are processed in order, no complete run exists |
| ReplayPipeline.StepInv | go/replay/replay.go:491-646 | each step of each stage keeps the order of blocks, the agreement with in-order processing, and the discipline of channels and abort |
| ReplayPipeline.RunInv | go/replay/replay.go:491-646 | the invariant holds in every state of every interleaving |
| PipelineTheorems.InFlightIsStreamPrefix | go/replay/replay.go:537-636 | at every reachable state, checked, held and buffered blocks in stage order are a prefix of the input |
| PipelineTheorems.AppliedStayNearChecked | go/replay/replay.go:491-517 | applied blocks never run more than 130 ahead of checked ones |
| PipelineTheorems.UnawaitedAtApply | go/replay/replay.go:571-594 | when a block is applied and perhaps a snapshot taken, the state-root futures not awaited are those of the results in the hand of stage 3 and in its channel; there are none exactly if both are empty |
| PipelineTheorems.UnawaitedReached | go/replay/replay.go:802-833 | any number of futures from 0 to 129 can be left unawaited at that point |
| PipelineTheorems.PipelineTerminates | go/replay/replay.go:534-639 | every interleaving ends, also after errors and cancellation |
| PipelineTheorems.PipelineNeverStuck | go/replay/replay.go:534-639 | no deadlock: until all three goroutines are done, one of them can move |
| PipelineTheorems.EarlyExitAborts | go/replay/replay.go:520-526 | a stage that is done without having finished its input leaves the abort channel closed |
| PipelineTheorems.IssueIsNeverLost | go/replay/replay.go:520-526 | an issue that any stage had is in the final report |
| PipelineTheorems.IssueIsLastReported | go/replay/replay.go:520-526 | the issue at the end is the last one that a stage reported, and none if no stage did |
| PipelineTheorems.CancellationIsReported | go/replay/replay.go:537-547 | once the context is cancelled no block is taken from the stream, and if blocks were left the pipeline ends with an issue |
| PipelineTheorems.PipelineRefinesLoop | go/replay/replay.go:482-646 | a nil result means that all blocks were applied and checked once, in order, with the chain, ledger and results of the in-order run; without cancellation the result is nil exactly if the plain loop returns nil |
| HashHistory.BlockHashHistory.Clone | go/replay/replay.go:957-963 | a deep copy |
| HashHistory.BlockHashHistory.SetBlockHash | go/replay/replay.go:969-971 | writes the slot of the number and no other |
| HashHistory.RememberNext | go/replay/replay.go:965-971 | recording block n overwrites exactly the hash that leaves the window of 256 |
| HashHistory.CountMeansComplete | go/replay/replay.go:382-406 | comparing the number of blocks read with the number expected rules out gaps, and nothing else |
| HashHistory.SeedBlockHashHistory | go/replay/replay.go:374-407 | succeeds exactly if no block of the range is missing; then the ring holds the hashes before any start block |
| HashHistory.TrackBlock | go/replay/replay.go:430-450 | the parent hash given to the checks is that of the block before; the clone is the ring before the block; the ring then includes the block |
| HashHistory.ReplayHashes | go/replay/replay.go:421-474 | if and only if all parent hashes check, the replay goes through; then every clone holds the true hashes of the 256 blocks before its own, and keeps them |
| HashHistory.TrueHashes | go/replay/checks.go:189-198 | hashes computed live are those recorded in the successors once these have been checked |
| StateLocks.NoUseOfClosedState | go/replay/replay.go:685-716 | in every schedule, a call works on the current state, which is open until the call returns, and no snapshot holds the pointer meanwhile |
| StateLocks.OneModifierAtATime | go/replay/replay.go:694-701 | of two goroutines at work on the state, at most one is in `ApplyBlock`, `GetBlockHash` or `CloneBlockHashHistory` |
| StateLocks.WorkBesideOthers | go/replay/replay.go:672-683 | archive calls and flushes can be at work beside a live call and beside each other |
| StateLocks.NeverStuck | go/replay/replay.go:730-864 | the lock order admits no deadlock |
| StateLocks.AllCallsReturn | go/replay/replay.go:730-864 | every schedule of finitely many calls ends |
| RulesStore.Store.GetRulesAtBlock | go/replay/metadata.go:234-245 | the rules of the last height up to the block |
| RulesStore.Store.PatchRules | go/replay/metadata.go:147-174 | the update is applied to the pending rules, or to those in force if none are pending; the result becomes pending if the update succeeds and changes something, else all stays |
| RulesStore.PatchAccumulates | go/replay/metadata.go:151-171 | a patch adds one update to those pending, in the order of patching |
| RulesStore.Store.CommitRules | go/replay/metadata.go:176-216 | adds the pending rules from the next block on, accepts a known identical height, refuses a different one; the heights stay ascending and are stored when they grew |
| RulesStore.CommitIsNotRetroactive | go/replay/metadata.go:183-204 | a commit at block n changes the rules at no block up to n |
| RulesStore.CommitTakesEffect | go/replay/metadata.go:183-204 | after a commit at block n its rules are effective at block n + 1 |
| RulesStore.SortAppended | go/replay/metadata.go:201-204 | appending a height and sorting adds it to the table and keeps the order |
| RulesReplay.LoadHeights | go/replay/metadata.go:92-113 | all stored heights are loaded sorted, with the genesis rules at block 0, which are added if they are missing; only other stored genesis rules are refused, and always if heights are distinct |
| RulesReplay.LaterHeights | go/replay/replay.go:769-780 | a run adds heights only, and only above the block it has reached |
| RulesReplay.SecondRun | go/replay/replay.go:769-780 | a second replay over the heights of an error-free first one goes without error, adds no height, and sees the same rules, pending update and state at each block |
| RulesReplay.EpochAccumulates | go/replay/replay.go:769-780 | the updates of the blocks of an epoch are applied one after the other, to what is pending at its start or else to the rules in force |
| RulesReplay.EpochTakesEffect | go/replay/replay.go:769-780 | what a sealing block puts into effect at the next block is the updates of its epoch, one after the other |
| RulesReplay.SealingBlockPatches | go/replay/replay.go:769-785 | updates in the logs of the sealing block itself start from the rules in force at it, without those it commits |
| RulesReplay.ApplyBlock | go/replay/replay.go:764-786 | an epoch-sealing block first commits what is pending, then the logs of the block patch the rules; block 0 is skipped |
| RulesReplay.Replay | go/replay/replay.go:764-786 | a replay over the store is the run over tables; with writing enabled what is stored reloads to the heights in memory |
| RulesReplay.ReplayTwice | go/replay/metadata.go:64-216 | load, replay, load what was stored, replay again: without error if the first time was, ending in the same state, storing nothing new, and seeing the same rules, pending update and state at each block |
| SnapshotRing.SnapshotHandler.Snapshot | go/replay/snapshot_handler.go:56-97 | takes the slot of the oldest snapshot, whose directory is removed if all slots are used, and creates its own; if a step fails, no directory is lost but the replaced one and an old one of the same block |
| SnapshotRing.SnapshotHandler.GetOldestSnapshotDir | go/replay/snapshot_handler.go:101-109 | the oldest of the snapshots still remembered, if any |
| SnapshotRing.SnapshotHandler.GetSnapshotDirs | go/replay/snapshot_handler.go:112-120 | all snapshots still remembered, each once |
| SnapshotRing.LastSnapshotsRemain | go/replay/snapshot_handler.go:63-79 | after snapshots at increasing blocks exactly the last min(k, N) of their directories remain; others are untouched |
| SnapshotRing.SnapshotRun | go/replay/replay.go:813-833 | after a replay of consecutive blocks the directories are those of the last due blocks, and the oldest query gives the first of these |
| SnapshotRing.OldestIsLeast | go/replay/snapshot_handler.go:101-109 | the first remaining snapshot is the least |
| SnapshotRing.Due | go/replay/snapshot_handler.go:48-50 | the blocks at which a snapshot is due, ascending |
| FailedBundles.UnmarshalJSON | go/replay/failed_bundles.go:43-75 | accepts exactly the complete lists that are sorted by block and position, though only neighbours are compared; groups them by block, each group sorted |
| FailedBundles.AcceptedAre | go/replay/failed_bundles.go:43-75 | accepted lists have no missing field and no entry behind one of an earlier block, or of an earlier position in its block |
| FailedBundles.BundlesSorted | go/replay/failed_bundles.go:65-72 | the bundles of one block are sorted by position |
| FailedBundles.InsertFailedBundles | go/replay/state.go:344-356 | fails exactly if a position exceeds the number of transactions; never slices out of order |
| FailedBundles.BundleIndex | go/replay/state.go:344-356 | the k-th bundle lands at its position plus k |
| FailedBundles.DeletedMerged | go/replay/state.go:344-356 | deleting the bundles gives back the transactions |
| Corrections.StateDB.SetBalance | go/replay/state.go:393-404 | sets the balance by adding or subtracting a difference that is never negative |
| Corrections.StateDB.ApplyCorrections | go/replay/state.go:358-391 | in any order of the maps, corrected balances and slots get their values and nothing else changes |
| BlockChecks.RootChecker.CheckStateRoot | go/replay/checks.go:132-187 | compares, overwrites or skips by policy, and fails if the root is not known, differs, or cannot be written; the warning about missing roots is given once |
| BlockChecks.RootsAfterRun | go/replay/checks.go:118-187 | a replay passes exactly if each compared root is equal; afterwards exactly the roots that the policy overwrites have changed |
| BlockChecks.VerifyingReplay | go/replay/checks.go:120-168 | with policy Off a replay passes exactly if each stored root that is not zero is the computed one, and changes nothing |
| BlockChecks.OverwritingReplay | go/replay/checks.go:120-146 | with policy On a replay passes, and the roots of its schema become the computed ones |
| BlockChecks.FillingReplay | go/replay/checks.go:120-150 | with policy Uninitialized the roots that are there are compared, and the missing ones become the computed ones |
| BlockChecks.VerifiesAfterOverwrite | go/replay/checks.go:118-131 | after a replay that overwrites roots, a replay that verifies passes and changes nothing |
| BlockChecks.CheckReceipts | go/replay/checks.go:70-116 | passes exactly if all consensus fields of all receipts are equal, the blooms being those of the stored logs |
| ArchivePool.RunInvariant | go/replay/archive_verifier.go:110-174 | in every run at most eight goroutines are at work, the pool is bounded, and whatever is re-executed was submitted, is not block 0, and has its parent state in the archive |
| ArchivePool.CloseReportsFirst | go/replay/archive_verifier.go:154-217 | closing returns the error of the first goroutine that failed, and one exactly if the height could not be read or re-executing some entry gave an error |
| ArchivePool.CanBeChecked | go/replay/archive_verifier.go:125-217 | an entry in the pool whose parent state is archived can be picked at the next tick that finds a free place, and its error is reported |
| ArchivePool.AddedIs | go/utils/random_retention_pool.go:47-56 | an added entry is in the pool, and takes the place of at most one other |
| ArchivePool.NoFalseAlarm | go/replay/archive_verifier.go:154-217 | on a correct chain, with entries that hold the true hashes, closing returns an error only if the height of the archive could not be read |
| ArchivePool.Submissions | go/replay/replay.go:421-474 | the entries that an error-free replay submits hold the true hashes |
| ArchivePool.Select | go/replay/archive_verifier.go:186-207 | takes the first of at most ten answers of the pool whose parent state is in the archive, and gives up on an empty pool |
| Ranges.NormalFormUnique | blockservice/src/utils/ranges.rs:17-45 | sorted, disjoint, coalesced ranges are determined by the numbers they cover |
| Ranges.Canonicalize | blockservice/src/utils/ranges.rs:97-116 | any list of ranges becomes the normal form of what it covers |
| Ranges.AddRange | blockservice/src/utils/ranges.rs:48-51 | the normal form of the union |
| Ranges.SubtractRange | blockservice/src/utils/ranges.rs:53-95 | removes exactly the given numbers; the result is the normal form exactly unless the deleted range is reversed and within a stored one |
| Ranges.SubtractRanges | blockservice/src/utils/ranges.rs:144-150 | the normal form of the difference |
| Ranges.ReversedTears | blockservice/src/utils/ranges.rs:53-95 | deleting 7..=3 from 0..=10 leaves the overlapping 0..=6 and 4..=10 |
| KvLayout.KeyOrder | blockservice/src/db/blockdb.rs:572-650 | byte order of keys is the order by kind, chain and number; metadata sorts first |
| KvLayout.KeyInjective | blockservice/src/db/blockdb.rs:572-650 | different things have different keys |
| KvLayout.MakeRulesUpdateHeightsKey | go/blockdb/block_db.go:264-272 | Go keeps the rules update heights under the key that Rust does |
| KvLayout.MakeCorrectionsKey | go/blockdb/block_db.go:274-282 | so it does the corrections |
| KvLayout.MakeFailedBundlesKey | go/blockdb/block_db.go:284-292 | so it does the failed bundles |
| KvLayout.MakeBlockKey | go/blockdb/block_db.go:294-302 | so it does the blocks |
| KvLayout.RangeBytes | blockservice/src/db/blockdb.rs:581-592 | a stored range is its start and then its end, eight big-endian bytes each |
| KvLayout.RefusedLengths | blockservice/src/db/blockdb.rs:552-610 | stored values are refused exactly for a wrong length |
| KvLayout.RangesRoundTrip | blockservice/src/db/blockdb.rs:581-610 | stored ranges are read back |
| KvLayout.ChainIdsRoundTrip | blockservice/src/db/blockdb.rs:552-569 | stored chain IDs are read back |
| KvLayout.InsertId | blockservice/src/db/blockdb.rs:376-379 | inserting an ID at its binary-search position keeps the list strictly ascending |
| RawStore.RawApplyAgrees | blockservice/src/db/rocksdb.rs:157-170 | the operations on keys are those on bytes |
| BlockDb.DeleteRangeIsInclusive | blockservice/src/db/rocksdb.rs:165-170 | deleting the end key and then the half-open range deletes exactly the closed range |
| BlockDb.BatchWrapper.PutBytes | blockservice/src/db/blockdb.rs:209-217 | records the put and keeps the ranges of its chain the normal form of the numbers put |
| BlockDb.BlockDatabase.PutBytes | blockservice/src/db/blockdb.rs:373-388 | stores the block and the exact indexes; fails exactly if an index entry does not decode, and then changes nothing |
| BlockDb.BlockDatabase.PutMetadata | blockservice/src/db/blockdb.rs:309-351 | stores the metadata and lists the chain; fails exactly if the list does not decode |
| BlockDb.BlockDatabase.DeleteRange | blockservice/src/db/blockdb.rs:390-413 | removes the blocks and updates the ranges; refuses reversed bounds |
| BlockDb.BlockDatabase.WriteBatch | blockservice/src/db/blockdb.rs:478-505 | leaves the store of putting the blocks one by one, whatever the order of the per-chain map; fails exactly if the batch is not empty and an index entry it has to extend does not decode, and then changes nothing |
| BlockDb.PutBlockConsistent | blockservice/src/db/blockdb.rs:373-388 | a put keeps ranges and chain IDs in agreement with the keys |
| BlockDb.PutMetaConsistent | blockservice/src/db/blockdb.rs:309-351 | so does a metadata put |
| BlockDb.DeleteBlocksConsistent | blockservice/src/db/blockdb.rs:390-413 | so does a deletion |
| BlockDb.PutAllConsistent | blockservice/src/db/blockdb.rs:478-505 | so does a batch |
| BlockDb.EveryRunConsistent | blockservice/src/db/blockdb.rs:309-505 | after any sequence of operations the ranges of every chain are canonical and cover exactly its stored numbers, and the chain IDs are ascending and complete |
| BlockDb.EveryRunReads | blockservice/src/db/blockdb.rs:309-505 | what the stored bytes decode to after any operations: canonical ranges of exactly the stored numbers, ascending IDs of all chains with a block or JSON metadata |
| BlockDb.PutAllIsBatched | blockservice/src/db/blockdb.rs:478-505 | any list of puts, in any chains and with repeats, leaves the same bytes one by one and as a batch |
| BlockDb.StepOnBlocks | blockservice/src/db/blockdb.rs:373-505 | every operation changes the blocks as a plain table would |
| BlockDb.StepOnMetadata | blockservice/src/db/blockdb.rs:309-505 | a metadata put sets the one entry of its chain and kind; no other operation touches metadata or version |
| BlockDb.EveryRunMetadata | blockservice/src/db/blockdb.rs:309-351 | after any operations each entry of metadata is what was put there last, and the version is unchanged |
| BlockDb.DeleteRangeOfBlocks | blockservice/src/db/blockdb.rs:402-411 | deleting a key range removes blocks of one chain only |
| BlockDb.GoPutRulesConsistent | go/blockdb/block_db.go:232-237 | keeps the indexes in agreement exactly if the chain is listed |
| BlockDb.GoUpdateConsistent | go/blockdb/block_db.go:128-143 | keeps the indexes in agreement exactly if the block is stored |
| BlockIteration.SelectIsExact | blockservice/src/db/blockdb.rs:430-469 | the reference selection holds exactly the blocks of the chain within the bounds, ascending |
| BlockIteration.Seek | go/blockdb/block_db.go:146-160 | stops at the first key at or behind the sought block |
| BlockIteration.SeekForPrev | go/blockdb/block_db.go:187-200 | stops at the last key at or before the sought block |
| BlockIteration.GetRange | go/blockdb/block_db.go:146-183 | yields exactly the selection |
| BlockIteration.GetRangeRev | go/blockdb/block_db.go:187-221 | for all bounds, the reversal of what GetRange yields |
| BlockIteration.JudgeIs | blockservice/src/db/blockdb.rs:436-469 | keys of metadata and of other chains end the iteration, keys of no known form are an error, and number and value are those of the entry |
| BlockIteration.Adapt | blockservice/src/db/blockdb.rs:436-469 | over any raw entries, yields the leading blocks of the chain, and a final error for a key outside the layout |
| BlockIteration.IterateBytes | blockservice/src/db/blockdb.rs:430-469 | forward exactly the blocks from the start on, backward exactly those up to it, never another chain or metadata |
| ImportLoop.SmallestIsMissing | blockservice/src/cmd/import.rs:177-183 | the first block to import is the smallest missing one |
| ImportLoop.ScanIs | blockservice/src/cmd/import.rs:209-274 | for any stream: the items put are the first ones, all sound and linked to each other, and the item after them says whether the import finishes, is cancelled or fails |
| ImportLoop.FinishedImport | blockservice/src/cmd/import.rs:138-274 | an import that finishes has met no broken item |
| ImportLoop.Database.Import | blockservice/src/cmd/import.rs:138-286 | outcome and database of the specified import; a failed one leaves a prefix of its writes |
| ImportLoop.Database.Loop | blockservice/src/cmd/import.rs:209-274 | batching does not change what is written, whatever the sizes |
| ImportChain.CompleteImportStores | blockservice/src/cmd/import.rs:209-274 | a complete import of a contiguous descending stream leaves blocks 0 to N-1, the old gapless prefix untouched |
| ImportChain.CompleteImportVerifies | blockservice/src/cmd/import.rs:220-250 | it is without error exactly if, in verify mode, the resulting blocks are hash-linked from the seam up |
| ImportChain.CancelledThenComplete | blockservice/src/cmd/import.rs:213-216 | an import cancelled above the seam and repeated has the outcome and database of one complete import |
| ImportChain.AttemptsThenComplete | blockservice/src/cmd/import.rs:213-216 | the same after any number of cancelled attempts |
| ImportChain.CancelledAtSeam | blockservice/src/cmd/import.rs:177-194 | cancelled exactly at the seam, the repeated import does nothing; it succeeds together with a complete one exactly if the seam holds |
| ImportChain.SeamUnchecked | blockservice/src/cmd/import.rs:177-194 | a chain of two blocks with a broken seam: cancelled and repeated it is imported without error, in one go it is refused |
| FetchLoop.SearchIsExact | blockservice/src/cmd/fetch.rs:84-104 | on ordered ranges, the search decides every non-empty range rightly if and only if no range reaches a later one that starts behind its start |
| FetchLoop.OverlapsCanHide | blockservice/src/cmd/fetch.rs:60-104 | a concrete list of ordered ranges that hides an available range |
| FetchLoop.HiddenIsRefused | blockservice/src/cmd/fetch.rs:60-104 | whenever a range is hidden, an available range exists that fetching refuses whatever the server answers |
| FetchLoop.SucceedsIfSupplied | blockservice/src/cmd/fetch.rs:27-156 | fetching succeeds only if the remote has what is missing and delivers it, and exactly then if nothing is hidden |
| FetchLoop.HonestServerSupplies | blockservice/src/cmd/fetch.rs:27-156 | from a server that sends what is asked for, any part of its one gapless range is fetched, whatever is stored already |
| FetchLoop.FilledBlocks | blockservice/src/cmd/fetch.rs:64-65 | what is there after fetching: the old blocks, and those asked for, by default from block 0 to the end of the last remote range |
| FetchLoop.SortedAre | blockservice/src/cmd/fetch.rs:60-62 | remote ranges must be ordered by start, and by end for equal starts |
| FetchLoop.AllAvailable | blockservice/src/cmd/fetch.rs:84-104 | passes exactly if the search finds each missing range; then each lies within a remote one |
| FetchLoop.LocalBlocks.FetchRange | blockservice/src/cmd/fetch.rs:115-147 | succeeds exactly if the answer is each block of the range in order and nothing else; then the range was added |
| FetchLoop.LocalBlocks.Fetch | blockservice/src/cmd/fetch.rs:27-156 | succeeds exactly under the stated conditions; then the blocks are the old ones, unchanged, plus the range, and in any case each changed block was received under its own number |
| VerifyLoops.Verify | blockservice/src/cmd/verify.rs:47-126 | the error count is the number of entries with a wrong number, plus that of unlinked consecutive entries without failed bundles, plus the start error |
| VerifyLoops.CountedAre | blockservice/src/cmd/verify.rs:96-120 | which entries are counted: wrong numbers, and wrong parent hashes of blocks whose predecessor by number is stored and has no failed bundles |
| VerifyLoops.VerifyBlocks | go/verify/verify.go:157-196 | accepts exactly if each block below another one has the hash recorded there, or has failed bundles |
| VerifyLoops.GoVerify | go/verify/verify.go:40-109 | verifies the blocks between the lowest and the highest one within the bounds |
| VerifyLoops.NarrowedIsWithin | go/verify/verify.go:118-136 | narrowing the range changes nothing if blocks are stored under their own numbers |
| VerifyLoops.GoAcceptsIffNoErrors | go/verify/verify.go:157-196 | Go accepts exactly if Rust counts no error and the blocks around gaps are linked too |
| VerifyLoops.VerifiersAgree | blockservice/src/cmd/verify.rs:90-126 | without gaps and wrong numbers, Rust counts no error exactly if Go accepts |
| VerifyLoops.VerifyBoth | blockservice/src/cmd/verify.rs:28-126 | both verifiers over one stored chain: Rust counts no error and blocks around gaps are linked exactly if Go accepts, blocks are stored under their own numbers, and the start hash matches |
| Rlp.HeaderRoundTrip | bertha-types/src/log.rs:45-51 | encoded headers are decoded |
| Rlp.StringRoundTrip | bertha-types/src/rlp_utils.rs:65-79 | an encoded string is decoded, leaving what follows |
| Rlp.StringIsCanonical | bertha-types/src/rlp_utils.rs:75-79 | only encodings of strings are decoded |
| RlpSchema.Encode | bertha-types/src/log.rs:39-55 | encodings have the length that `length` says |
| RlpReference.EncodeIsRLP | bertha-types/src/rlp_utils.rs:27-79 | for every type and value, what is encoded is the RLP of the Yellow Paper of its tree |
| RlpReference.KnownEncodings | bertha-types/src/rlp_utils.rs:27-79 | the empty list is 0xc0, the empty string 0x80, and "dog" is encoded as the standard says |
| RlpSchema.RoundTrip | bertha-types/src/rlp_utils.rs:27-79 | for every type and value, decoding an encoding gives the value and leaves exactly what follows |
| RlpSchema.DecodedFits | bertha-types/src/rlp_utils.rs:27-79 | what is decoded is a value of the type |
| RlpSchema.DecodedIsMinimal | bertha-types/src/u256.rs:139-146 | for every type and input: the encoding of what is decoded is no longer than the bytes consumed, and equal to them if and only if no `U256` payload in them starts with zero |
| RlpSchema.DecodesOnlyEncodings | bertha-types/src/log.rs:57-84 | without `U256`, decoding accepts exactly the encodings |
| RlpSchema.U256IsMalleable | bertha-types/src/u256.rs:139-146 | a concrete `U256` with a leading zero that is decoded |
| Primitives.EncodeU256 | bertha-types/src/u256.rs:120-137 | stripping leading zeros gives the minimal encoding; zero is the empty string |
| LogCodec.EncodeLog | bertha-types/src/log.rs:39-55 | the hand-written encoder is that of a derived codec, and writes as many bytes as `length` says |
| LogCodec.DecodeLog | bertha-types/src/log.rs:57-84 | the hand-written decoder is that of a derived codec |
| LogCodec.LogRoundTrip | bertha-types/src/log.rs:31-84 | a decoded encoding is the log |
| LogCodec.LogDecodesOnlyEncodings | bertha-types/src/log.rs:57-84 | only encodings of logs are decoded |
| Transactions.ThereAndBack | bertha-types/src/transaction/mod.rs:291-299 | conversion to the inner type fails exactly for invalid transactions, and resets what the type does not use |
| Transactions.BackAndThere | bertha-types/src/transaction/set_code_tx.rs:123-171 | converting an inner transaction and back is the identity |
| Transactions.ValuesFit | bertha-types/src/transaction/set_code_tx.rs:26-64 | each field of each type has the shape of the derived codec |
| Transactions.InnerInverse | bertha-types/src/transaction/access_list_tx.rs:26-56 | the fields of each type are read back in order |
| Transactions.MarshalRoundTrip | bertha-types/src/transaction/mod.rs:97-153 | a valid transaction of any type comes back with unused fields reset, leaving exactly what follows; an invalid one is marshalled to bytes that are rejected |
| Transactions.UnmarshalledIsValid | bertha-types/src/transaction/mod.rs:133-153 | unmarshalled transactions are valid and use only fields of their type |
| Transactions.ValuesInverse | bertha-types/src/transaction/access_list_tx.rs:26-56 | any fields that decode to an inner transaction are the fields of that transaction |
| Transactions.MarshalOfUnmarshal | bertha-types/src/transaction/mod.rs:133-153 | an unmarshalled transaction can be marshalled, to no more bytes than were consumed, and to the same bytes if and only if no `U256` in them starts with zero |
| Transactions.MarshalInjective | bertha-types/src/transaction/mod.rs:88-131 | equal bytes mean equal transactions, up to unused fields |
| TransactionFormat.MarshalIsStandard | bertha-types/src/transaction/mod.rs:97-131 | a valid transaction is marshalled to its type byte, if any, and the RLP of the fields in the order of the Yellow Paper, EIP-2930, EIP-1559, EIP-4844 or EIP-7702 |
| TransactionFormat.ResetIs | bertha-types/src/transaction/mod.rs:291-299 | resetting keeps the type and every field that is marshalled, and sets the others to their defaults |
| TransactionFormat.LogIsStandard | bertha-types/src/log.rs:39-55 | a log is encoded as the list of its address, topics and data |
| TrieKeys.KeysPrefixFree | bertha-types/src/eip_2718_utils.rs:50-60 | no key is a prefix of another |
| TrieKeys.KeyOrder | bertha-types/src/eip_2718_utils.rs:50-61 | in nibble order, keys of 1 to 127 come before that of 0, and this before those from 128 on |
| TrieKeys.OrderIsPermutation | bertha-types/src/eip_2718_utils.rs:55-61 | that order takes every index once |
| TrieKeys.OrderedLeavesIncrease | bertha-types/src/eip_2718_utils.rs:61-62 | the leaves have strictly increasing keys that are no prefixes of each other |
| TrieKeys.ComputeRootHash | bertha-types/src/eip_2718_utils.rs:49-65 | the builder, which demands increasing keys, gets each payload once, in the order of the keys |
| Blooms.BitsAre | bertha-types/src/receipts.rs:69-80 | the bits of an input are the low eleven bits of each of the first three pairs of bytes of its hash |
| Blooms.BloomIs | bertha-types/src/receipts.rs:69-80 | a bit is set exactly if it is one of an address or of a topic |
| Blooms.LogsBloom | bertha-types/src/receipts.rs:69-80 | exactly the bits of the addresses and topics of the logs |
| Blooms.HeaderBloom | bertha-types/src/block.rs:119-128 | exactly the bits of all logs of the block |
| Blooms.HeaderBloomIsUnion | bertha-types/src/block.rs:119-128 | the bloom of a header is the union of those of its receipts |
| Blooms.MayContainLogs | bertha-types/src/block_header.rs:130-144 | true exactly if all bits asked for are set |
| Blooms.NoFalseNegatives | bertha-types/src/block_header.rs:128-144 | a block with a matching log is never ruled out |

## Left out

- Block numbers at the top of u64: the model has them below it, since the code computes successors of range ends and of block numbers.
- ReplayHashes: assumes that computed hashes are not zero and blocks are consecutive, since the zero hash switches the parent check off.
- ReplayHashes: models hashes as numbers; that the hash of a header determines the header (Keccak) is not part of this model.
- SecondRun: assumes that the logs of a block depend on the state before it and on the heights up to it, and that rules read back from JSON are the rules written.
- ReplayTwice: demands that stored heights are distinct, as they are when written by `CommitRules`; with several heights for one block the order of an unstable sort decides.
- ReplayLoop.RunReplayLoop: block execution, decoding and checks are deterministic functions of chain, block and ledger.
- Snapshot: whether a directory is complete after a failed removal or copy is left out. Without any slot the code panics, which is a precondition here.
- SnapshotRun: models a replay whose snapshots succeed, since a failing one ends the replay.
- NoUseOfClosedState: is about calls. State-root futures outlive the call that made them; which of them are not awaited at a snapshot is `UnawaitedAtApply`, and whether the state database resolves them on being closed is not part of this model.
- Import: blocks are records of number, parent hash and body; their protobuf encoding and the configuration file are left out.
- Fetch: the connection, the authentication and the stored encoding of blocks are left out; a broken stream is a reply.
- Verify: the list of chains with failed bundles is given as a set.
- RunInvariant: timing of the tickers and the randomness of the pool are nondeterministic choices.
- NoFalseAlarm: re-executing a block on the archive is a function of the block and of the hashes of the 256 blocks before it, since the archived state of a block does not change.
- MayContainLogs: a bloom is the set of its bits; their packing into 256 bytes is left out.
- TrieKeys.ComputeRootHash: ends with what the trie builder is fed; the hash of the trie is left out.
- The EVM, the state database, Keccak, rules patching, JSON-RPC forms, gRPC, authentication, configuration, progress reporting and the conversions to geth and protobuf types.
- Headers as RLP: they have trailing optional fields (bertha-types/src/block_header.rs:147-175), a kind of field that the schema does not have.
- Receipts as RLP: their hand-written encoding (bertha-types/src/receipts.rs:93-121) makes one of all statuses but 1, so that it has no inverse.
- Withdrawals and ommers as RLP: they are further lists of structs.
