# A verified model of the cross-chain indexer

The indexer follows Bitcoin and EVM chains and stores what it finds in PostgreSQL. This project models the parts of
it that carry state or real computation, in Dafny 4.11, and proves what they guarantee. `dafny verify dfyconfig.toml`
checks everything.

| file | what it models |
|---|---|
| `Basics.dfy`, `Text.dfy` | integer widths, intervals, insert-if-absent; big-endian, decimal, hex and split, as used by the codecs |
| `Merkle.dfy` | Merkle root, branch, verifier and the stored byte form of a proof |
| `LogFetcher.dfy` | the adaptive `eth_getLogs` range loop, recovery pass and realtime loop |
| `FetchProtocol.dfy` | recovery and realtime goroutines, checkpoint row and log channel, over any number of process lifetimes |
| `Reorg.dfy` | header and vault tables, walk back to the fork point, rollback |
| `BlockIndexer.dfy` | indexing one block and whole runs of blocks |
| `HeightEmitter.dfy`, `BlockPipeline.dfy` | which heights are emitted, and the two worker pools they pass through |
| `ChainInfo.dfy`, `VaultPayload.dfy` | the 8-byte chain identifier with its text form, and the OP_RETURN vault payload |
| `OrderedQueue.dfy` | the ordered, de-duplicating queue |
| `EventTables.dfy` | batch sizes, chunking, and the TokenSent and ContractCall tables |
| `EvmEndToEnd.dfy` | from the chain's logs through both loops and the processor to the tables |

What comes from outside is a parameter and arbitrary: RPC answers, reported heads and tips, database faults, the
moment a process stops, the order in which goroutines and map iterations proceed, the ABI decoder and the double hash.
Loops that may run forever take a finite script of such answers; every prefix of an endless run is one.

## Results about the code that are not what its documentation suggests

- Both EVM loops receive the address of one query. All runs are safe if and only if they do not share it
  (`SafeIffOwnQueries`). On the shared query a block can be skipped for good (`SharedQueryLosesBlocks`); it is safe as
  long as the iterations of the two loops do not overlap (`RestartSafety`), which a lock held for an iteration would give.
- The checkpoint is stored once logs are in a memory channel. A process that stops then has lost logs its next
  recovery will not ask for (`StopLosesCheckpointedLogs`); `StopKeeps`, `FailedSaveKeeps` and `StoreKeeps` say for
  each step exactly when nothing is lost, and `RunKeepsLogs` for whole runs.
- A checkpoint row that cannot be read counts as 0, and recovery may then overwrite it with a smaller one;
  `UnreadableBootExact` says exactly when.
- A failure message without a block range sets the range to 0, and the loop asks for an empty interval until a
  later failure message carries a number (`ZeroRangeStalls`). A range that wraps 64 bits moves the loop backwards
  (`OversizedRangeRetreats`); `QueryReach` says exactly when a query reaches its own first block.
- The stored header hash is that of a header rebuilt from parsed fields (`pkg/btc/btcnode.go:196-207`,
  `pkg/btc/db.go:27`), so the model keeps it apart from the hash the node reports. If no stored hash equals the
  predecessor a block names, the reorg handler never rolls back (`ForeignHashesDisableRollback`).
- Blocks reach the indexer from a pool of workers, so out of order, and then headers at adjacent heights can end up
  unlinked without any fault or failed walk back (`OutOfOrderUnlinks`); `StepKeepsLinks` says exactly when, and
  `ReorderIffManyWorkers` that a second worker in either pool is what it takes.
- The genesis fallback of the walk back cannot be reached on a table without negative heights (`ReorgOutcome`).
- Both redeem payload layouts parse, and both are then rejected because they carry no chain id (`OnlyStakingPasses`).
- A Merkle root does not determine the number of transactions (`DuplicateKeepsRoot`); `RootBindsList`,
  `RootBindsPositions` and `RootBindsAcrossDepths` say exactly what it determines.

## Model

| member | source | states |
|---|---|---|
| MerkleTree.Depth | pkg/btc/merkle.go:66-97 | the number of levels is the least d with n <= 2^d |
| MerkleTree.WidthIsCeiling | pkg/btc/merkle.go:68-96 | halving level by level with an odd last node kept gives n / 2^h rounded up at height h |
| MerkleTree.PathClimbs | pkg/btc/merkle.go:73-96 | for every integer position, inside the list or not, the siblings on its descent replay to the node above |
| MerkleTree.BranchVerifies | pkg/btc/merkle.go:102-132 | completeness: the built proof of every position of every non-empty list is accepted |
| MerkleTree.ClimbBinds | pkg/btc/merkle.go:109-131 | two proofs of one length and position with one result are the same proof, or some replay step hashes two inputs to one value |
| MerkleTree.ProofBinds | pkg/btc/merkle.go:57-132 | binding at any position: what verifies with a path of the built length is the reference proof, whose leaf is one of the hashes and, in range, hashes[p] with the built path; otherwise a collision in the replay is exhibited |
| MerkleTree.InjectiveProofBinds | pkg/btc/merkle.go:57-132 | for a collision-free pair hash, verifying is equivalent to being hashes[index] with the built path |
| MerkleTree.RootBindsPositions | pkg/btc/merkle.go:57-100 | lists of one depth that agree under every position have one root; lists with one root agree under every position, or building the two trees hashes two inputs to one value; an equivalence for a collision-free hash |
| MerkleTree.RootBindsList | pkg/btc/merkle.go:57-100 | for lists of one length, equal roots mean equal lists, or a collision is exhibited; an equivalence for a collision-free hash |
| MerkleTree.LevelKeepsRoot | pkg/btc/merkle.go:86-99 | every level of the tree, taken as a list, has the tree's root and what is left of its depth |
| MerkleTree.PairsKeepRoot | pkg/btc/merkle.go:66-97 | of two hashes or more, the list evened out and hashed in pairs has the same root, and the path of a leaf is its partner followed by the path of its pair: one round of the loop as a law |
| MerkleTree.OneLeaf | pkg/btc/merkle.go:66-99 | a single hash is its own root, with an empty path |
| MerkleTree.ClimbFront | pkg/btc/merkle.go:109-128 | replaying a path hashes with the lowest sibling, on the side of the lowest bit, and goes on with the rest one level up |
| MerkleTree.RootBindsAcrossDepths | pkg/btc/merkle.go:57-100 | a shallower list has the root of a deeper one if it agrees with the deeper tree's level at the same distance from the root, and only then unless a collision is exhibited; an equivalence for a collision-free hash |
| MerkleTree.DuplicateKeepsRoot | pkg/btc/merkle.go:67-71 | repeating the last hash of an odd list gives another list with the same root |
| MerkleProofs.NextLevel | pkg/btc/merkle.go:86-96 | each parent is the hash of its two children, left first |
| MerkleProofs.ClimbLevel | pkg/btc/merkle.go:67-96 | one round turns the level, index and path of height h of the top-down tree into those of height h + 1, with the sibling index in bounds |
| MerkleProofs.CreateMerkleBranchAndRoot | pkg/btc/merkle.go:57-100 | the bottom-up loop computes the root and the branch of the top-down recursion; the root does not depend on the index |
| MerkleProofs.VerifyMerkleProof | pkg/btc/merkle.go:103-132 | accepts exactly when replaying the path on the position's bits gives the root, for any integer position |
| MerkleProofs.CalculateMerkleProofPath | pkg/btc/merkle.go:26-53 | position error, first undecodable transaction id, or a proof that replays from the hash of the transaction at the position to the root, with path and root of the decoded ids in their order |
| MerkleProofs.ConcatProofPath | pkg/btc/merkle.go:17-23 | the stored bytes are 32 for each hash of the path, in order, the i-th hash at byte 32 i |
| MerkleProofs.FlattenRoundTrip | pkg/btc/merkle.go:17-23 | cutting the stored bytes into 32-byte pieces gives the path back |
| MerkleProofs.StoredProofVerifies | pkg/btc/merkle.go:17-132 | a proof still verifies after being flattened and cut apart |
| MerkleProofs.PairCollisionIsDigestCollision | pkg/btc/merkle.go:89-94 | a collision of the pair hash is one of the digest on two different 64-byte inputs |
| LogFetcher.QueryReach | pkg/evm/fetcher.go:78-85 | a query reaches its first block if and only if the range is positive and does not wrap, or both are 0; it never passes the head |
| LogFetcher.FetchRangeLogs | pkg/evm/fetcher.go:23-76 | the loop on its query, range pointer and checkpoint row does what one step per reply does, for every script of replies |
| LogFetcher.AnswersKeepRange | pkg/evm/fetcher.go:28-74 | answers leave the range alone |
| LogFetcher.LastFailureSetsRange | pkg/evm/fetcher.go:34-43 | while the loop runs its range is the number of the last failure message, or 0 if that had none |
| LogFetcher.FailureCutsTheRest | pkg/evm/fetcher.go:28-43 | after a failure message with the number n the answered queries are the pieces of n blocks from the same block on, the last one cut at the head, until the loop ends or fails again |
| LogFetcher.RunCounts | pkg/evm/fetcher.go:45-50 | replies are read until the loop ends; each answer read adds one query and its logs to the count |
| LogFetcher.RunCheckpoint | pkg/evm/fetcher.go:55-66 | the row holds what it held or the end of an answered query, and the end of the last one if no write was lost |
| LogFetcher.RecoverStart | pkg/evm/client.go:273-289 | the start rule is max(StartBlock, last + 1) |
| LogFetcher.RecoverLogs | pkg/evm/client.go:271-324 | a recovery pass runs the loop from the start rule's block to the head with the configured range if that is set and below 1000000, which is the first range asked for, or leaves everything unchanged when there is nothing to do |
| LogFetcher.RunCovers | pkg/evm/fetcher.go:28-74 | with ranges of any size, every block behind the loop variable was in an answered query |
| LogFetcher.FetchRealtimeLogs | pkg/evm/client.go:206-251 | the realtime loop does round by round what the round function says, for every sequence of heads, with range 1000 or a smaller configured one; if no round was cut off it ends one past the last head, with every block up to every head seen asked for |
| LogFetcher.RoundCovers | pkg/evm/client.go:232-249 | a round that is not cut off leaves the loop variable one past the head it saw, falling ones included, with everything up to it asked for |
| LogFetcher.RealtimeCovers | pkg/evm/client.go:206-251 | realtime no-gap for every sequence of rounds: everything behind the loop variable was asked for, and without cut rounds everything up to each head seen |
| LogFetcher.RoundPartition | pkg/evm/client.go:232-249 | with ranges up to 2^63 the queries answered in a round cover exactly the blocks from the loop variable to the head, once each, and there are none if the head is below it |
| LogFetcher.RoundFollowsFailure | pkg/evm/client.go:232-249 | a range set by a failure message cuts the rest of the round and is the one the next round starts with |
| LogFetcher.RealtimeKeepsUp | pkg/evm/client.go:206-251 | with positive ranges and answers enough in each round, no round is cut off and every block from the start to the greatest head seen is asked for |
| Intervals.TilesPartition | pkg/evm/fetcher.go:72-73 | consecutive intervals hold each block of their span in exactly one of them and nothing outside it |
| LogFetcher.FetchPartition | pkg/evm/fetcher.go:28-76 | with ranges up to 2^63 the answered queries are consecutive and cover exactly [from, loop variable), and [from, current] on return |
| LogFetcher.FetchProgress | pkg/evm/fetcher.go:28-76 | with positive ranges each answer advances, and current - from + 1 answers end the loop |
| LogFetcher.ZeroRangeStalls | pkg/evm/fetcher.go:34-43 | with range 0 no number of answers moves the loop from a block other than 0 |
| LogFetcher.OversizedRangeRetreats | pkg/evm/fetcher.go:79-82 | a concrete range whose query ends before it starts and moves the loop back |
| FetchProtocol.CoverageStep | pkg/evm/fetcher.go:28-74 | every atomic step of either goroutine, a boot and a stop keep the coverage invariant, on own queries or on a shared one whose iterations do not overlap |
| FetchProtocol.RestartSafety | pkg/evm/client.go:180-324 | in every state reachable without overlapping iterations on a shared query: blocks from max(StartBlock, 1) to the checkpoint, and from the realtime start to its loop variable, were in answered queries whose logs were sent on, and once recovery has ended the two leave no gap |
| FetchProtocol.SafeIffOwnQueries | pkg/evm/client.go:199-202 | for every StartBlock, all runs are safe if and only if the two loops do not share the query |
| FetchProtocol.SharedQueryUnsafe | pkg/evm/client.go:199-202 | for every StartBlock, a run on the shared query that stores a checkpoint at a block recovery never asked for |
| FetchProtocol.NeverBlocks | pkg/evm/fetcher.go:28-74 | a loop inside the coverage invariant can always take its next step, except into a full channel |
| FetchProtocol.IterationIsOneStep | pkg/evm/fetcher.go:28-74 | the atomic steps of an iteration of either loop, answered or refused, amount to one step of the fetch loop on variables, query and checkpoint row, mark exactly its blocks as sent, put its batch at the end of the channel if there are logs, and touch nothing of the other loop |
| FetchProtocol.IterationsAreRun | pkg/evm/fetcher.go:23-76 | a whole script of replies to an activation of either loop has the effect of the fetch loop's run on it, with the processor making room in the channel |
| FetchProtocol.RoundIsOneStep | pkg/evm/client.go:225-249 | a round of the realtime goroutine has the effect of one round of the realtime loop |
| FetchProtocol.RecoveryIsOneRun | pkg/evm/client.go:271-324 | a boot and its recovery pass have the effect of the recovery code, for any row, readable or not |
| FetchProtocol.PolledHeadsAreFetched | pkg/evm/client.go:225-249 | in every run without overlapping iterations on a shared query: once the round of a polled head is over every block from the realtime start to it was asked for, and between rounds the loop variable is one past the head polled last |
| FetchProtocol.CheckpointNeverFalls | pkg/db/block.go:67-90 | between any two points of a run whose recovery queries do not wrap and whose boots can read the row, or need not, the checkpoint does not fall |
| FetchProtocol.LogsConserved | pkg/evm/fetcher.go:45-49 | logs sent on are saved, in the channel or lost, and lost only through a stop or a failed save |
| FetchProtocol.KeptUnlessLost | pkg/evm/fetcher.go:45-66 | in every reachable state the checkpointed logs are all saved or queued if and only if the lost ones among them are; without stops and failed saves they always are |
| FetchProtocol.StopKeeps | pkg/evm/fetcher.go:48-66 | a stop keeps the checkpointed logs if and only if those in the channel were already saved |
| FetchProtocol.FailedSaveKeeps | pkg/evm/processing.go:84-95 | a failed save keeps them if and only if the batch's checkpointed blocks are saved or queued again |
| FetchProtocol.StoreKeeps | pkg/evm/fetcher.go:55-66 | storing a checkpoint keeps them if and only if no block it passes was lost for good |
| FetchProtocol.OtherStepsKeep | pkg/evm/fetcher.go:28-74 | no other step loses a checkpointed block |
| FetchProtocol.RunKeepsLogs | pkg/evm/fetcher.go:28-74 | over every run without overlapping iterations on a shared query, the checkpointed logs are in hand throughout if and only if each step keeps them |
| FetchProtocol.SharedQueryLosesBlocks | pkg/evm/client.go:199-202 | for every StartBlock with two blocks above it, a run on the shared query that ends recovery with the checkpoint past a block no query asked for |
| FetchProtocol.StopLosesCheckpointedLogs | pkg/evm/fetcher.go:48-66 | for every StartBlock with a block above it, a reachable state in which a checkpointed block's logs are lost and recovery starts behind it |
| FetchProtocol.UnreadableRowLowersCheckpoint | pkg/evm/client.go:276-289 | any other boot with an unreadable row has a continuation that stores a smaller checkpoint |
| FetchProtocol.UnreadableBootExact | pkg/evm/client.go:276-304 | a boot with an unreadable row leaves the checkpoint safe if and only if recovery is not started or the checkpoint is below max(StartBlock, 1) |
| Reorg.Database.FindForkPoint | pkg/btc/reorg.go:55-70 | the loop finds what the walk down the heights finds |
| Reorg.Database.DetectAndHandleReorg | pkg/btc/reorg.go:24-52 | tables and result follow from the outcome for every table, height and fault |
| Reorg.WalkMeaning | pkg/btc/reorg.go:55-70 | the walk returns the greatest readable height with the wanted hash, falls back exactly if it runs past height 0, else fails |
| Reorg.DetectMeaning | pkg/btc/reorg.go:24-52 | the handler's outcome for every table, height and read faults: connected, greatest anchor, genesis fallback or failure, each if and only if |
| Reorg.ReorgOutcome | pkg/btc/reorg.go:24-70 | without negative heights: success is exactly the existence of an anchor, rollback keeps exactly the rows up to the fork in both tables, anything else changes nothing, the fallback is unreachable |
| Reorg.ForeignHashesDisableRollback | pkg/btc/reorg.go:36-49 | if no stored hash is the wanted one the handler fails and changes nothing |
| BlockIndexer.StoreVaultTransactions | pkg/btc/db.go:40-68 | the chunk loop inserts all transactions that are absent, or those before the first refused chunk |
| BlockIndexer.IndexBlock | pkg/btc/btcnode.go:213-270 | indexing a block with any faults has the effect of the step function: skip, check, insert header, insert rows |
| BlockIndexer.HeadersAfter | pkg/btc/btcnode.go:213-246 | the header table after a block, height by height, with any faults: when the block is checked (above the tip minus 12), what a rollback removes, when its header is stored and with which hashes, and that all else stays |
| BlockIndexer.VaultRowsAfter | pkg/btc/db.go:40-68 | the vault table after a block, key by key, with any faults: of its transactions, or the first 1000 for each chunk before the refused one, the first with a free key is stored; what a rollback does not cover stays; no other key appears |
| BlockIndexer.RunAppends | pkg/btc/btcnode.go:208-272 | a run indexes one block after the other |
| BlockIndexer.InsertLinks | pkg/db/block.go:36-41 | exactly when inserting a header keeps adjacent headers hash-linked |
| BlockIndexer.StepKeepsLinks | pkg/btc/btcnode.go:213-246 | a block in any order, checked or not, with any faults, keeps the table linked if and only if it is skipped, its header is lost or its height taken, it rolls back, or it fits its neighbours |
| BlockIndexer.RunKeepsLinks | pkg/btc/btcnode.go:208-272 | over every run in any order and with any faults, the table is linked throughout if and only if each block keeps the links |
| BlockIndexer.InOrderRunLinked | pkg/btc/btcnode.go:220-246 | for checked blocks in increasing height without faults, the table is linked throughout if and only if no walk back fails |
| BlockIndexer.OutOfOrderUnlinks | pkg/btc/btcnode.go:156-191 | two blocks out of order that leave unlinked headers without a fault or a failed walk back |
| BlockIndexer.HeadersAreStable | pkg/db/block.go:36-41 | over every run with any faults, a stored header keeps its value until some rollback covers its height |
| BlockIndexer.RollbackRemoves | pkg/db/block.go:133-145 | a rollback that covers a height removes its header, unless the new block itself takes the height |
| BlockIndexer.VaultRowsAreStable | pkg/btc/db.go:60-62 | over every run with any faults, a stored vault row keeps its value, whatever blocks bring its transaction again, until some rollback covers its block |
| BlockIndexer.VaultRollbackRemoves | pkg/db/block.go:133-145 | a rollback that covers a vault row removes it, unless the new block brings its transaction again |
| BlockIndexer.RollbackReferential | pkg/db/block.go:133-145 | a rollback that stops between its deletes leaves no vault row without header |
| BlockIndexer.StepReferential | pkg/btc/btcnode.go:245-266 | under any faults, a step keeps every vault row's header if and only if the header is stored in the end or no new row was |
| BlockIndexer.RunStaysReferential | pkg/btc/btcnode.go:208-272 | over every run whose header inserts do not fail, every vault row has a header |
| HeightEmitter.OrchestrateFetching | pkg/btc/btcnode.go:60-118 | for every sequence of tips the heights sent are the consecutive run from max(StartHeight, last + 1), and they are exactly the heights from there that are within a positive EndHeight and not above every tip seen |
| HeightEmitter.SentExactly | pkg/btc/btcnode.go:92-104 | the heights before the cursor are those within a positive EndHeight that some tip has reached |
| HeightEmitter.IntervalDistinct | pkg/btc/btcnode.go:102-115 | each height of the run is sent exactly once |
| HeightEmitter.ChunkReach | pkg/btc/btcnode.go:136-145 | a chunk of heights holds its own start if and only if its end does not overflow int64 |
| HeightEmitter.StepReach | pkg/btc/btcnode.go:136 | the step past a chunk fails to move forward if and only if it overflows int64 |
| HeightEmitter.DefineChunks | pkg/btc/btcnode.go:127-150 | when no step overflows int64 the chunks partition [start, end], all but the last hold the batch size, 64 if none is set, and the last no more |
| HeightEmitter.LastStepFormula | pkg/btc/btcnode.go:136 | if k whole steps fit between start and end the last step ends at start + (k + 1) * size, so that number below 2^63 is the guard |
| BlockPipeline.StepConserves | pkg/btc/btcnode.go:152-305 | every step of every worker keeps the number of places each height is in, and lowers the weighted work |
| BlockPipeline.EachHeightInOnePlace | pkg/btc/btcnode.go:152-305 | in every reachable state each planned height is in exactly one place, and no other height in any |
| BlockPipeline.NeverStuck | pkg/btc/btcnode.go:152-305 | with capacities and pools of at least 1, every state with pending work has an enabled step, and every running call may be answered or fail |
| BlockPipeline.RunRpcs | pkg/btc/btcnode.go:172-301 | along every run a height is dropped exactly as often as an RPC call for it failed, is past the fetchers as often as its block arrived, and past the hashers as often as its hash arrived |
| BlockPipeline.PipelineDrains | pkg/btc/btcnode.go:152-305 | runs have at most ten steps per height; where nothing can move every height was indexed as often as its block arrived, which is as often as planned less its failed calls; without errors nothing is dropped |
| BlockPipeline.OneWorkerKeepsOrder | pkg/btc/btcnode.go:152-305 | with one worker in each pool and no RPC error, heights are indexed in the order of the plan |
| BlockPipeline.ReorderIffManyWorkers | pkg/btc/btcnode.go:156-191 | two heights can be indexed in the wrong order without an error if and only if some pool has a second worker |
| ChainInfoCodec.FromString | pkg/types/chain_info.go:101-124 | writes the parsed bytes in place, 0 to 3 for the four names, or leaves the array untouched on any error |
| ChainInfoCodec.BytesRoundTrip | pkg/types/chain_info.go:126-161 | bytes to struct succeeds exactly for types up to 3, and back to bytes is the identity |
| ChainInfoCodec.StructRoundTrip | pkg/types/chain_info.go:126-161 | struct to bytes to struct is the identity if and only if the type is valid and the id below 2^56 |
| ChainInfoCodec.ParseTruncates | pkg/types/chain_info.go:113-122 | text with a number below 2^64 parses to its low 56 bits, a larger number is rejected |
| ChainInfoCodec.TextRoundTrip | pkg/types/chain_info.go:97-124 | printing then parsing is the identity if and only if the type is valid |
| ChainInfoCodec.ParseAccepts | pkg/types/chain_info.go:101-116 | the accepted texts are a known name, one separator and the digits of a number below 2^64 |
| Text.ParseUintMeaning | pkg/types/chain_info.go:113-116 | the texts of a number are its decimal digits behind any number of zeroes, if it is below 2^64 |
| Text.MostSignificantFirst | pkg/types/chain_info.go:120-122 | in big-endian bytes the first one counts most |
| VaultPayload.ParsePoolRedeem | pkg/btc/parser.go:188-208 | needs 45 bytes after the header and reads service tag, session and group id in place |
| VaultPayload.ParseUpcRedeem | pkg/btc/parser.go:210-221 | needs the service tag only |
| VaultPayload.ParseStaking | pkg/btc/parser.go:223-256 | needs 54 bytes after the header and a valid chain type |
| VaultPayload.ParseVaultReturnTxOutput | pkg/btc/parser.go:148-186 | accepts exactly the payloads meeting the tag, version, length and chain-type rules, never reading out of bounds, with the error that applies first |
| VaultPayload.DecodeEncoded | pkg/btc/parser.go:148-256 | the parser inverts the reference encoder for each layout, whatever bytes follow |
| VaultPayload.EncodeDecoded | pkg/btc/parser.go:148-256 | an accepted payload's record encodes back to exactly the 63, 54 or 14 bytes read |
| VaultPayload.ReadBytesDetermined | pkg/btc/parser.go:148-256 | two payloads give the same record if and only if the bytes read are the same |
| VaultPayload.ParseVaultMsgTx | pkg/btc/parser.go:44-65 | exactly which transactions are refused and with which error, are no vault transactions, or yield a record |
| VaultPayload.OnlyStakingPasses | pkg/btc/parser.go:62-64 | what the id check passes is staking with type up to 3 and 0 < id < 2^56; no redeem layout passes |
| OrderedQueues.OrderedQueue.Push | pkg/types/queue.go:24-55 | scan, append and shift are sorted insertion, for any compare function |
| OrderedQueues.OrderedQueue.Pop | pkg/types/queue.go:59-71 | removes and returns the first item, or reports an empty queue |
| OrderedQueues.OrderedQueue.Contains | pkg/types/queue.go:100-110 | finds an item exactly if one compares equal |
| OrderedQueues.QueueRefinesSet | pkg/types/queue.go:24-71 | every sequence of pushes and pops keeps the slice strictly increasing and answers as a set with extract-min |
| OrderedQueues.SetRunDetermined | pkg/types/queue.go:24-71 | the set's answers and final content are determined by the operations |
| OrderedQueues.PushAllSorts | pkg/types/queue.go:22-55 | pushing items leaves them sorted and without duplicates |
| OrderedQueues.PushOrderIrrelevant | pkg/types/queue.go:22-55 | the order and repetition of pushes make no difference |
| OrderedQueues.DrainReturnsContents | pkg/types/queue.go:59-71 | popping until empty returns the content in order |
| Chunking.CalculateOptimalBatchSize | pkg/evm/processing.go:103-133 | the largest batch of at most 1000 within the parameter limit, 1 when even one record exceeds it, 1000 for anything but a struct |
| Chunking.OptimalBatchUnique | pkg/evm/processing.go:118-130 | there is only one such batch size, and a full batch stays within 65535 parameters if and only if a single record does |
| Chunking.ChunkRecords | pkg/evm/processing.go:136-150 | chunks concatenate to the input, none empty or too long, all but the last full, as many as n / b rounded up |
| EventTables.EventIDInjective | pkg/evm/parser/converter.go:15-16 | an event id determines transaction hash and log index |
| Text.HexAt | pkg/evm/parser/converter.go:15-16 | a hash prints each byte as two lower-case hex digits, the high one first |
| EventTables.RowsOfOne | pkg/evm/parser/converter.go:15-158 | the row of a single log, column by column, or none if its topic is another event's or it does not decode |
| EventTables.Database.SaveRecords | pkg/evm/processing.go:152-208 | saves all records independent of the chunk size, or exactly the chunks before the first refused one |
| EventTables.Database.ProcessBatch | pkg/evm/processing.go:64-95 | grouping by topic and saving the groups in any order has the effect of inserting each event's rows in log order, up to its first refused chunk; a failed event does not affect the other; all block heights are passed on |
| EventTables.DeliveredRows | pkg/evm/processing.go:84-95 | a table after a delivery, id by id: of the event's rows, or those in the chunks before the refused one, the first with a free id is stored, and what was there stays |
| EventTables.SameLogsSameTable | pkg/db/token.go:73-84 | insert-if-absent of the same unique logs in any order and multiplicity gives the same table |
| EventTables.HistoryIsOneBatch | pkg/evm/processing.go:58-95 | where deliveries are cut into batches makes no difference |
| EventTables.BatchingIndependence | pkg/evm/processing.go:64-95 | histories that deliver the same unique logs leave the same TokenSent and ContractCall tables |
| EventTables.EveryLogHasItsRow | pkg/evm/parser/converter.go:139-158 | every delivered log of the event that decodes has its row under hash-index in the table of its event, with transaction hash, block, index and data |
| EventTables.EveryRowHasItsLog | pkg/db/manipulation.go:48-59 | every row of a table comes from a delivered log of its event, with that log's columns |
| EventTables.FailedSavesLoseExactly | pkg/evm/processing.go:84-95 | with failed saves, a table equals that of a run without failures if and only if every row of a delivered log was there before or was saved by some delivery |
| EventTables.RedeliveryChangesNothing | pkg/db/token.go:73-84 | delivering a batch again changes nothing |
| EvmEndToEnd.RunSavesBatches | pkg/evm/processing.go:58-95 | over every run, the logs of the blocks marked saved are those of the batches the processor handled |
| EvmEndToEnd.TablesOfSavedBlocks | pkg/evm/processing.go:58-95 | for any interleaving and stops, the tables are those of one batch that holds all logs of the saved blocks |
| EvmEndToEnd.TablesOfFetchedBlocks | pkg/evm/client.go:163-178 | once the channel has drained after a run without stops and failed saves, the tables are those of one batch that holds all logs of all fetched blocks |
| EvmEndToEnd.EveryChainLogIsStored | pkg/evm/client.go:163-203 | if moreover iterations on a shared query did not overlap and recovery has ended, every decodable log of every block from max(StartBlock, 1) to before the realtime loop variable has its row |
| EvmEndToEnd.EveryChainCanBeStored | pkg/evm/client.go:163-203 | for every chain, StartBlock and head there is a run that meets those conditions with the loop variable one past that head |

## Left out

- RPC clients, sockets, timers, sleeps and logging: their results are parameters; `calculateSleepTime` only decides whether a realtime round looks at the head.
- The regular expression that finds a block range in a failure message: an optional number.
- gorm and PostgreSQL beyond maps with insert-if-absent, upsert and range delete; statement size and types of columns.
- SHA-256, header hashing, transaction and PSBT (de)serialisation and address conversion: external libraries; the stored header hash is an opaque field.
- The rest of a vault transaction record (amounts, change, previous output) and the conversion from raw transactions.
- `MarshalTo` and `Unmarshal` of chain identifiers: the latter copy into a temporary, so no round trip through them holds.
- Events other than TokenSent and ContractCall: their converters can return nil or their keys are not the event id; their rows go to other tables.
- The EVM header fetcher's workers, which use the ordered queue, and the Electrum client, which the service does not start.
- Cancellation of the Bitcoin pipeline, and any claim that its restarts leave no missing heights: it resumes after the greatest stored height while workers finish out of order and drop heights on RPC errors, so none holds.
- How many workers the configuration gives each pool: any number of at least 1, which its rules always yield.
- LogFetcher.FetchRangeLogs: the query belongs to one loop; sharing it is modelled in FetchProtocol.
- FetchProtocol.SharedQueryUnsafe: both ends of a shared query are written in one step, so intervals with one end from each loop, which overlapping iterations could also produce, are not modelled; where iterations do not overlap nothing is written in between.
- EvmEndToEnd.TablesOfSavedBlocks: a batch whose save fails counts as not handled; what a partly saved batch leaves is in EventTables.FailedSavesLoseExactly. The logs of a block are taken not to change.
- HeightEmitter.DefineChunks: the step past the last chunk must not overflow int64, where the loop need not end; the program does not call it.
- Integers other than block numbers, ranges, chain ids and stored heights are unbounded.
- Configuration, command line, Docker and scripts.
