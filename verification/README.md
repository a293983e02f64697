# Tab: the credit model, the index, the witness, the feedback writer and the hash, verified

Tab lets an agent pay services on credit. How much credit is a pure function of its settlement
history on chain, and most of the off-chain code exists to get that function the right history.
This project models five parts of that code in Dafny and proves what they promise.

- **The Credit Limit** (`Concentration`, `CreditLimit`, `CreditCurve`). The reference is written
  as per-service sums and a greatest feasible value; the code's one pass over two lists of slots,
  its four-candidate closed form and its curve are methods proved equal to it, over unbounded
  integers with the code's own floors. The reference is then shown to be independent of order,
  monotone in history, stake and time, and inside its published bounds.
- **The index** (`Chain`, `Sink`, `Indexer`, `IndexRuns`, `IndexSync`, `DeepReorg`, `HyperSync`,
  `CompositeTick`). A tick over an in-memory sink is proved equal to a step on its state; whole
  runs of ticks, over chains that change between them, are compared with the chain's own rows,
  with exact conditions where a change is deeper than the window. The archive source and the
  composite that chooses between archive and RPC are proved to answer as the RPC would.
- **The witness** (`LogScan`, `History`, `Witness`). The two adaptive scans, the incremental
  cache with an untrusted second source, and the check against the contract's rolling hash.
- **Walks and writes** (`Cursor`, `PageWalk`, `Reputation`, `Feedback`, `FeedbackFacts`,
  `FeedbackCalls`, `FeedbackRuns`, `FeedbackReports`, `LostSends`, `FeedbackWriter`). Keyset pagination
  over a table that changes underneath it, and the writer that puts at most one feedback entry per
  Settlement on chain with nothing but an on-chain count to remember by. `Feedback` is the writer as
  functions, `FeedbackWriter` the object whose methods are proved equal to them, `FeedbackCalls`
  which call decides what, `FeedbackRuns` what every run keeps, `FeedbackReports` what a report
  accounts for, and `LostSends` what is lost when a send is lost.
- **Keccak-256** (`Bits`, `Keccak`, `KeccakPermutation`, `RoundConstants`, `Sponge`). The in-place
  permutation is proved to be Keccak-f[1600] of section 3 of FIPS 202, bit by bit, and a permutation;
  the constants to be the ones its shift register gives, and the digest to be the sponge's with
  pad10*1.

## How it is modelled

Code that updates something in place is a class or a method over an array: `Sink.MemorySink`,
`HyperSync.CatchUpSource`, `History.HistorySource`, `FeedbackWriter.Writer` and the Keccak state.
Each method is tied to a function of the state before it, and the theorems are about those
functions and about runs of those methods. Pure code is functions and lemmas.

What is outside the code answers truthfully or not at all. The chain is a list of blocks whose
hash at a height is the chain up to it, so equal hashes mean equal blocks below. The rolling
history hash is an injective constructor. Refusals, archive failures, page failures, timeouts and
reverts come from arbitrary functions of the request number, so every theorem holds for every
pattern of them.

The feedback writer's world moves on by itself: before each of the writer's calls returns,
Settlements land and transactions are mined in any order. Every world passed through is kept in
`moments`, which for every script ends in the present world and whose neighbours differ by one
event or one send (`Traced`, kept by every step). The writer itself is modelled for every script
and every state. The safety of its runs assumes one address per agentId, a fixed identity,
Settlements that land only above the ones before them, a fresh process only when nothing is
unmined, and that no send is lost: none throws after the node has taken the transaction.

## What the code does not do

Six statements a reader might expect are false of the code. It is modelled as it is.

- **A deep reorganisation can leave stale rows.** The tick after one leaves no row of an abandoned
  block exactly when at most eight blocks are stored below the window or one of the nine most
  recent still stands (`DeepReorgIsSound`; `TickIsSoundIff` is the condition on any one tick, and
  `SplitRun` makes it apply to every later tick on the new chain).
  `apps/registry/src/indexer.ts:44-51` says more than eight divergent anchors are corrected over
  successive ticks. `RunEndsCleanIff` decides that before the first of them, for ticks that read to
  the head: a tick whose walk is cut short rewrites eight of the most recent rows that no longer
  stand, until eight or fewer are left. The run ends with no stale row exactly when it has a tick
  more than are cut short, and the new branch has no indexed log from the last row those rewrite up
  to the new window. With one such log the walk
  ends on it, and no later tick that covers the window touches a row below (`CutShortIsStuck`,
  `MatchStopsTheWalk`); without, eight stale rows go in each tick (`QuietBranchIsCorrected`).
  `DeepReorgCanLeave` reaches the first from an empty sink: of ten logged blocks, all re-mined with
  logs, the rows at heights 0 and 1 stay stale after every such run.
- **It can also leave a gap.** A re-mined block below the range that had no log before and has one
  now is not read. `DeepReorgIsCompleteIff` gives the exact condition and `DeepReorgCanMiss` a
  chain of three blocks on which it fails.
- **The cursor can stop, and move back.** Below the head a tick sets the cursor to the smaller of
  the head and the end of one chunk from the window's start, so it moves on exactly when the chunk
  is longer than the part already read and back exactly when it is shorter (`ProgressIff`,
  `CursorCanMoveBack`). Configuration does not prevent either, and with a chunk no longer than the
  window a run never passes its first chunk (`ShortChunksStall`).
- **The fallback of the concentration cap is dead code.** `apps/registry/src/credit.ts:238-239`
  keeps the smallest candidate for a rounding tie. The first test holds at every candidate
  reached and the last candidate always passes the second, so the loop always returns from inside
  (`StepDown`, `ThirdCandidateRests`, `Scan`).
- **`HISTORY_RECORD_DUPLICATED` can be wrong.** It is true exactly when the count 0 is not carried
  by one record alone (`DuplicateReport`, `CheckRun`, `BuildWitness`); `CountZeroMisreported` is
  the input. `HISTORY_RECORD_MISSING` is always true of the records read.
- **A restart is not the only way to a duplicate entry.** `apps/gateway/src/reputation.ts:54-55`
  names a restart with a write unmined as the one gap. A send that throws after the node has taken
  the transaction leaves an unmined write whose hash nobody holds. The next send for that agent is
  sound exactly when the write was mined before the entries were counted, or was reverted before
  the send; otherwise both, once mined, are a duplicate (`NextSendIsSoundIff`).
  `LostSendBreaksARun` is a run of two passes, every other call answered, that ends with two
  entries for one Settlement.

When no send is lost one branch of the writer is never taken: the on-chain count does not exceed
the Settlements held (`apps/gateway/src/reputation.ts:669-675`), because a complete read holds at
least what every earlier entry was for. `CompleteIsReady` says so, and with it no true report
names `CountAbove` (`TickedEnds`).

## Model

| member | source | states |
|---|---|---|
| Concentration.ConcentrationCapped | apps/registry/src/credit.ts:242-260 | returns the greatest integer m with 4m <= 4 * baseline + sum of min(4c, m), whatever order the contributions come in |
| Concentration.Scan | apps/registry/src/credit.ts:249-259 | over sorted contributions the loop returns from inside with that value; nothing after it is reached |
| Concentration.TestCandidate | apps/registry/src/credit.ts:250-257 | one turn computes the k-th candidate and accepts it exactly when both tests pass |
| Concentration.StepDown | apps/registry/src/credit.ts:249-257 | a candidate that fails only the second test is followed by one no larger whose first test holds |
| Concentration.ThirdCandidateRests | apps/registry/src/credit.ts:248-257 | the candidate for k = 3 always passes the second test |
| Concentration.AcceptedIsGreatest | apps/registry/src/credit.ts:257 | a candidate passing both tests is feasible and nothing greater is |
| Concentration.CandidateIsBound | apps/registry/src/credit.ts:252 | no integer or real value that baseline and the capped shares reach exceeds any candidate |
| Concentration.GreatestIsFloorOfRealCap | apps/registry/src/credit.ts:234-241 | the integer returned is the floor of a real fixed point of L = baseline + sum of min(c, L/4) |
| Concentration.GreatestBounds | apps/registry/src/credit.ts:242-260 | it lies between the baseline and the uncapped value, and with three contributions is at most four times the baseline |
| CreditLimit.CreditLimit | apps/registry/src/credit.ts:174-232 | the slot-filling pass returns the reference limit and throws exactly where it does |
| CreditLimit.FillBuckets | apps/registry/src/credit.ts:181-208 | the slots are the counterparties with non-zero weight and their sums; it throws exactly past 32 of them |
| CreditLimit.FindSlot | apps/registry/src/credit.ts:200 | the first slot holding an id, or none holds it |
| CreditLimit.BondCap | apps/registry/src/credit.ts:148-155 | one scaling over the sum of the entries in the Asset |
| CreditLimit.Grow | apps/registry/src/credit.ts:218-231 | the smallest of the uncapped, the concentration-capped and the bond-capped value over a map of contributions |
| CreditLimit.CapIsGreatest | apps/registry/src/credit.ts:224-225 | the reference cap is feasible over the map of contributions and nothing above it is |
| CreditLimit.CounterpartyIffBucket | apps/registry/src/credit.ts:195-207 | a service is a counterparty exactly when its weighted sum is not zero, so dust makes none |
| CreditLimit.DependsOnBuckets | apps/registry/src/credit.ts:179-232 | past the length check only per-service sums and the bond sum decide value and error |
| CreditLimit.OrderDoesNotMatter | apps/registry/src/credit.ts:174-232 | value and choice of error depend only on the multisets of records and bonds |
| CreditLimit.WeightlessRecordIsIgnored | apps/registry/src/credit.ts:183-198 | within the length cap, removing a record that is filtered out or weighs nothing changes nothing |
| CreditLimit.AgeWeightMonotone | apps/registry/src/credit.ts:134-139 | the age weight stays between 25% and 100% and never falls as the evaluation moves forward |
| CreditLimit.AgeWeightRamp | apps/registry/src/credit.ts:134-139 | with d whole days of age the weight is 2,500 basis points plus d thirtieths of 7,500, floored, up to thirty days; it is 10,000 exactly from the thirtieth on and 2,500 up to the settlement |
| CreditLimit.WeightOfRecord | apps/registry/src/credit.ts:183-198 | a record weighs its amount by its age exactly when it is of the Asset, curated, bonded and delivered strictly before it settled, and otherwise nothing |
| CreditLimit.BucketsAdd | apps/registry/src/credit.ts:195-207 | a service's sum over two histories is the sum of its sums |
| CreditLimit.BucketOfOne | apps/registry/src/credit.ts:195-207 | one record adds its weight to its own service's sum and to no other |
| CreditLimit.BondsAdd | apps/registry/src/credit.ts:148-155 | the stake over two lists of entries is the sum of theirs |
| CreditLimit.BondOfOne | apps/registry/src/credit.ts:148-155 | one entry adds its amount in its own Asset and nothing in another |
| CreditLimit.ScaledOnce | apps/registry/src/credit.ts:148-221 | the cap is 19/20 of the summed stake and a growth the factor's share of the summed bucket, each floored once |
| CreditLimit.LimitIsGreatest | apps/registry/src/credit.ts:174-232 | below three counterparties the smaller of baseline and bond cap; from three on the greatest value within the bond cap that baseline and quarter shares cover; refused past 512 records and then past 32 counterparties |
| CreditLimit.ContributionOf | apps/registry/src/credit.ts:210-221 | each service with a bucket contributes its growth on it, and no other does |
| CreditLimit.LimitMonotone | apps/registry/src/credit.ts:174-232 | no smaller sums and no less stake give no smaller limit, when neither call throws |
| CreditLimit.MoreNeverLowers | apps/registry/src/credit.ts:174-232 | adding records anywhere, raising amounts, stake or baseline, moving the evaluation forward and reordering never lowers the limit; if the larger call does not throw neither does the smaller |
| CreditLimit.LimitBounds | apps/registry/src/credit.ts:210-231 | min(baseline, cap) <= limit <= min(cap, baseline + growth); a non-zero limit is strictly below the stake; three counterparties give at most four baselines |
| CreditLimit.FeasibleIsDownwardClosed | apps/registry/src/credit.ts:234-241 | every value below a feasible one is feasible |
| CreditLimit.QuarterPerCounterparty | apps/registry/src/credit.ts:210-231 | on every path baseline plus shares of at most a quarter each covers the limit, and where the stake does not bind nothing larger has that property |
| CreditCurve.Curve | apps/registry/src/credit.ts:334-369 | throws exactly when the point at now does, with the error of its earliest moment that throws; otherwise it shows exactly the start, the most recent settlements, the evenly spaced moments that fit and now, each under its kind, from the start with nothing settled, at most max(3, maxPoints) of them, times rising strictly to now, limits never falling, each the limit over the records settled by then |
| CreditCurve.CurveTimes | apps/registry/src/credit.ts:347-364 | exactly the start, the kept settlements, the evenly spaced moments that fit and now, each under its own kind |
| CreditCurve.SettlementTimes | apps/registry/src/credit.ts:351-354 | exactly the start and the kept settlements |
| CreditCurve.AgingTimes | apps/registry/src/credit.ts:356-363 | every free slot adds its evenly spaced moment and nothing else, and no moment changes kind |
| CreditCurve.EvenMoment | apps/registry/src/credit.ts:360 | an evenly spaced moment is never before the first settlement and always before now |
| CreditCurve.AgingIsEven | apps/registry/src/credit.ts:359-360 | the i-th ageing moment is the one that splits the span i to slots + 1, floored to a second |
| CreditCurve.KeptAre | apps/registry/src/credit.ts:351 | the settlements kept are the last half of maxPoints, never none, and all there are when they are fewer |
| CreditCurve.MomentsAre | apps/registry/src/credit.ts:351-364 | a moment is shown exactly when it is now, a second before the first settlement, a kept settlement, or one of the evenly spaced ones that the room left allows |
| CreditCurve.EvenTimesAre | apps/registry/src/credit.ts:356-363 | the evenly spaced moments are those that some slot, from the first to the last, splits the span at |
| CreditCurve.KindIs | apps/registry/src/credit.ts:353-363 | a kept settlement's time is a settlement, the second before the first is the start, and the rest are ageing |
| CreditCurve.SettledOfBoth | apps/registry/src/credit.ts:341-343 | a cut at a time keeps or drops each record for itself, in order |
| CreditCurve.Draw | apps/registry/src/credit.ts:366-368 | one point per time in order, or the error of the first time that has one |
| CreditCurve.PointAt | apps/registry/src/credit.ts:342-345 | a point carries the limit and the number of records settled by its time |
| CreditCurve.LimitNeverFalls | apps/registry/src/credit.ts:328-333 | over one history the limit never falls with time, and a moment that does not throw has no earlier one that does |
| CreditCurve.DecidedAtNow | apps/registry/src/credit.ts:341-345 | some moment of a curve throws exactly when now does |
| CreditCurve.SortedGivesSame | apps/registry/src/credit.ts:341-345 | sorting and pre-filtering the records changes no point |
| Chain.HashBindsBelow | apps/registry/src/indexer.ts:20-43 | an equal hash at a height makes every block at and below it equal |
| Chain.SplitLogs | apps/registry/src/indexer.ts:191-202 | the logs of a range are those of its two parts in order |
| Sink.MemorySink.ApplyBatch | apps/registry/src/sink.ts:139-162 | deletes the range by block number and inserts the batch, cursor included; the whole new state is stated |
| Sink.MemorySink.ReadBlockHashes | apps/registry/src/sink.ts:124-130 | the hashes of the indexed blocks of a range, and no other |
| Sink.FirstRowStays | apps/registry/src/sink.ts:153-158 | under each key stays the row that was there, or else the first of the events with the key, the typed row with it |
| Sink.LastBlockStays | apps/registry/src/sink.ts:152 | under each height is the last block row given for it, or else what was there |
| Sink.ApplyIsIdempotent | apps/registry/src/sink.ts:12-23 | applying a batch twice leaves what applying it once does |
| Indexer.RunTick | apps/registry/src/indexer.ts:176-340 | one tick is one step of the reference, writes at most one batch, and its report is true of its range, the cursor it leaves and what it read, wrote, skipped and found rewritten |
| Indexer.FindDeepDivergence | apps/registry/src/indexer.ts:151-167 | the walk returns the lowest anchor above the first one that still matches |
| Indexer.Plan | apps/registry/src/indexer.ts:191-202 | window, anchors and chunk give the reference range |
| Indexer.ReadRange | apps/registry/src/indexer.ts:223-316 | the batch is the decoded logs of the range with their blocks, and the reported divergence is the lowest there is |
| Indexer.DecodeAll | apps/registry/src/indexer.ts:225-237 | what is decoded and what is skipped are all that was read |
| Indexer.DifferingHashes | apps/registry/src/indexer.ts:248-257 | the lowest block known under one hash and found under another, or the anchor walk's divergence if that is lower |
| Indexer.FindReorg | apps/registry/src/indexer.ts:248-266 | the lowest block known under another hash or no longer found, or the deep divergence below it |
| Indexer.ReorgNotBelow | apps/registry/src/indexer.ts:248-267 | divergence inside the range never moves the delete below the range; only the anchor walk does |
| Indexer.TabulateBlocks | apps/registry/src/indexer.ts:239-246 | the hash and count tables of the decoded logs |
| IndexRuns.BatchKeepsCoherent | apps/registry/src/indexer.ts:267-317 | a batch keeps the log rows exactly those of the listed blocks and rewrites the block table of its range with the chain's |
| IndexRuns.TickStep | apps/registry/src/indexer.ts:176-340 | a tick leaves the state alone or sets the cursor to what it read and rewrites exactly its range |
| IndexRuns.BlocksDetermineRows | apps/registry/src/sink.ts:12-23 | two coherent sinks with the same blocks hold the same rows, typed rows included |
| IndexRuns.KeyDeterminesRow | apps/registry/src/indexer.ts:14-18 | block hash and log index determine the row, whichever branch it came from |
| IndexRuns.InsertRange | apps/registry/src/indexer.ts:239-297 | the inserted block rows are the chain's own table of the range |
| IndexRuns.EventRows | apps/registry/src/indexer.ts:223-289 | the inserted rows are exactly the indexed logs of the canonical blocks of the range |
| IndexRuns.CountIsOfIndexed | apps/registry/src/indexer.ts:239-246 | a block's count is the number of its logs that are indexed |
| IndexRuns.CursorStep | apps/registry/src/indexer.ts:299-307 | the next cursor names the height read to, the hash of the highest block of the range with something indexed, kept where there is none, and one reorganisation more exactly when the walk diverged or a stored block of the range is no longer the chain's |
| IndexRuns.ChangedAre | apps/registry/src/indexer.ts:248-266 | the blocks a tick counts as rewritten are the stored ones of the range that the chain now has under another hash or with nothing indexed |
| IndexRuns.BlocksTouched | apps/registry/src/indexer.ts:328-335 | the blocks reported as touched are those of the range with something indexed |
| IndexSync.ShallowRunIsSynced | apps/registry/src/indexer.ts:6-39 | over every run in which the chain changes only inside the re-scan window, the stored table up to the cursor is the chain's own after every tick |
| IndexSync.SyncedRows | apps/registry/src/indexer.ts:6-18 | then the stored rows up to the cursor are exactly the chain's indexed logs |
| IndexSync.TickSyncs | apps/registry/src/indexer.ts:176-340 | one tick after such a change restores it |
| IndexSync.WalkFacts | apps/registry/src/indexer.ts:151-167 | the walk ends at the first match, and returns the anchor just above it |
| DeepReorg.TickIsSoundIff | apps/registry/src/indexer.ts:151-267 | with old rows below a height and the new chain's own from it on, a tick leaves no row of an abandoned block exactly when there was none among the old ones, or nothing is stored between that height and the window and the walk reaches |
| DeepReorg.DeepReorgIsSound | apps/registry/src/indexer.ts:193-267 | however deep the change, the tick leaves no row of an abandoned block up to its cursor exactly when at most eight blocks are stored below the window or one of the nine most recent still stands |
| DeepReorg.DeepReorgIsCompleteIff | apps/registry/src/indexer.ts:193-267 | the table is again the new chain's own exactly when, besides, no block below the range gained its first indexed log |
| DeepReorg.DeepReorgCanMiss | apps/registry/src/indexer.ts:44-51 | three blocks on which that condition fails and a log is missed |
| DeepReorg.DeepReorgCanLeave | apps/registry/src/indexer.ts:44-51 | ten logged blocks, all re-mined with logs: the rows at heights 0 and 1, and no others, stay stale after the tick and after every later run of ticks on the new chain that cover the window |
| DeepReorg.MatchStopsTheWalk | apps/registry/src/indexer.ts:44-51 | once the highest row below the window is the new chain's own, no later run of ticks that cover the window, or read the whole chain, touches any row below that window |
| DeepReorg.QuietBranchIsCorrected | apps/registry/src/indexer.ts:44-51 | where the new branch has no indexed log from the lowest stale row up to the new window, a run of ticks to the head removes eight stale rows in each, to the last |
| DeepReorg.CutShortIsStuck | apps/registry/src/indexer.ts:44-51 | after a tick to the head whose walk was cut short, one indexed log of the new branch between where it began and the new window leaves stale rows after every later run that covers the window |
| DeepReorg.SplitRun | apps/registry/src/indexer.ts:151-267 | after every run on the new chain the stored rows are the old branch's below some height and the new one's from it on, so the condition on one tick applies to each of them |
| DeepReorg.RunEndsCleanIff | apps/registry/src/indexer.ts:44-51 | a run of ticks to the head ends with no row of an abandoned block exactly when it has more ticks than there are eights before the last among the most recent rows that no longer stand, and the new branch has no indexed log from the last row so rewritten up to the new window |
| IndexSync.Confluence | apps/registry/src/indexer.ts:6-18 | on a fixed chain any two runs that reach the head store the same rows, whatever the chunks and ticks |
| IndexSync.FixedChainIsSynced | apps/registry/src/indexer.ts:6-18 | on a fixed chain every run is in step with it after every tick, with no assumption on the window |
| IndexSync.FixedChainCountsNone | apps/registry/src/indexer.ts:299-307 | on a fixed chain no run of ticks ever counts a reorganisation |
| IndexSync.ProgressIff | apps/registry/src/indexer.ts:191-202 | below the head of an unchanged chain a tick sets the cursor to min(head, window start + chunk - 1), so it moves on exactly when the chunk is longer than the part already read, and back exactly when it is shorter |
| IndexSync.CursorCanMoveBack | apps/registry/src/indexer.ts:191-202 | ten blocks, a window of four and a chunk of two: a reachable cursor at 5 goes back to 3 |
| IndexSync.ShortChunksStall | apps/registry/src/indexer.ts:191-202 | with a chunk no longer than the window and nothing offered, no run on any chains gets past the first chunk |
| IndexSync.CatchUp | apps/registry/src/indexer.ts:354-367 | on a fixed chain the table stays the chain's own whatever the chunks; with chunks longer than the window it ends at the head within one tick per remaining block |
| HyperSync.GetArchiveLogs | apps/registry/src/hypersync.ts:215-241 | every log of the range in (block, index) order exactly when every page answers, moves on and stays within the archive's height until one passes the end within 1,000 pages; otherwise the error of the page that ended it, never a part |
| HyperSync.EndDecides | apps/registry/src/hypersync.ts:215-241 | a row of pages, each asked from where the one before stopped, that ends past the range is a read carried to its end, and one that ends on a failure, a height passed, no progress or the thousandth page is not |
| HyperSync.OrderedIsUnique | apps/registry/src/hypersync.ts:215-241 | an ordered permutation of the range's logs is the range's logs |
| HyperSync.CatchUpSource.ChunkBlocks | apps/registry/src/hypersync.ts:345-365 | an offer is made exactly when the archive is not resting, at least one RPC chunk of it remains and it has answered or answers now; it runs to the smaller of the archive's chunk and the edge of the live window, never across it; the archive rests exactly when its first answer failed |
| HyperSync.CatchUpSource.GetLogs | apps/registry/src/hypersync.ts:367-378 | the answer is the RPC's for every behaviour of the archive; a read it covers leaves it trusted or resting as it carried the read or not, one it does not cover leaves it alone |
| HyperSync.CatchUpSource.ReadLive | apps/registry/src/hypersync.ts:330-337 | the split requests together are the whole range |
| CompositeTick.RunOnComposite | apps/registry/src/indexer.ts:176-340 | a tick whose head, anchor reads, chunk and range all go through the composite takes the step of a tick on the chain itself with the chunk offered, and reports it truly, whatever the archive does at each read; the chunk never reaches into the live window, is the archive's own wherever the archive carries every read, and when both chunks are longer than the re-scan window the cursor moves on, below the head |
| CompositeTick.WalkOnComposite | apps/registry/src/indexer.ts:151-167 | the anchor walk through the composite finds what the walk on the chain finds |
| CompositeTick.FairOfferMovesOn | apps/registry/src/hypersync.ts:345-365 | no offer of the composite stalls the cursor at the live window's edge |
| LogScan.HistoryLogs | apps/gateway/src/witness.ts:397-467 | every log of the range once and in order exactly when the replies carry the scan to its end, and otherwise the error of the request that stopped it, which narrowing cannot cure or is a one-block refusal; its requests are those of its course, at most 2 * blocks + 7 |
| LogScan.WindowPotential | apps/gateway/src/witness.ts:123-127 | a refusal halves the window and costs one halving, a clean pass doubles it up to a hundred and gives back at most one |
| LogScan.CourseRefused | apps/gateway/src/witness.ts:436-449 | k refusals in a row leave the window halved k times at the same block; one more than there are halvings stops the scan at one block |
| LogScan.CourseAnswered | apps/gateway/src/witness.ts:462-463 | k answers in a row read each window whole and leave it doubled k times |
| LogScan.CourseOfAnswers | apps/gateway/src/witness.ts:426-467 | with nothing refused a full window reads the range a hundred blocks a request |
| LogScan.CourseStopsAt | apps/gateway/src/witness.ts:441-448 | a failed scan names the range it asked for: inside the scan's, at most a hundred blocks wide and cut at its end |
| LogScan.KeeperLogs | apps/keeper/src/chain.ts:282-344 | with a window of at least 1: the whole range once and in order exactly when the replies carry the scan, and otherwise the last reply as an error at ten blocks or fewer; the error and the requests are those of its course, within blocks + narrowings; below 1 it never ends while it is answered |
| LogScan.KeeperWindow | apps/keeper/src/chain.ts:296-312 | one window is asked for again, half as wide, until it is answered or narrow |
| LogScan.NarrowFacts | apps/keeper/src/chain.ts:296-312 | every reply before the last was bad, a bad one is handed back only at ten blocks or fewer, and every halving is paid for by one request |
| LogScan.NarrowSpan | apps/keeper/src/chain.ts:296-312 | a window above ten blocks is answered at its width halved once for each request lost, and never below ten |
| LogScan.NarrowingsAre | apps/keeper/src/chain.ts:309-310 | the narrowings of a window are the fewest halvings that leave at most ten blocks |
| LogScan.KeeperOfAnswers | apps/keeper/src/chain.ts:282-344 | from where the endpoint answers the scan asks once for each width of blocks left |
| LogScan.KeeperRecovers | apps/keeper/src/chain.ts:282-344 | k bad replies at the start of a window cost k requests, and that window and every later one are narrowed by them |
| LogScan.BetweenOfOne | apps/gateway/src/witness.ts:426-467 | the logs of one height are what was logged at it |
| LogScan.SplitBetween | apps/gateway/src/witness.ts:426-467 | the logs of a range are those of its two parts in order |
| History.HistorySource.HistoryRecords | apps/gateway/src/history.ts:241-272 | a call answers exactly when the reads it needs are answered and the scan it needs is carried to its end; one that fails leaves what is held, any other answers and holds what the reference says, and from good copies answers at least the view's records and only true ones, and holds a good copy again |
| History.HistorySource.ScanSince | apps/gateway/src/history.ts:214-233 | the base merged with the records past its horizon, by count, exactly when the replies carry the scan |
| History.AnswerIsRight | apps/gateway/src/history.ts:241-272 | from good copies the answer is the contract's first records and misses none of the view's, and it is the view's own scan exactly when no copy the call uses is ahead of the view; unless it was held already it is held afterwards, complete to the later of the head and where its base was |
| History.CopyOf | apps/gateway/src/history.ts:189-210 | the registry's answer is a copy exactly when it has a horizon and its count is its list's length; a true answer makes a good copy, numbered from 1 and complete to that horizon |
| History.BaseIsNear | apps/gateway/src/history.ts:250-258 | what is held serves while it is at most 2,000 blocks behind the head or no older than the copy; past that the newer of the two does |
| History.FailsWhen | apps/gateway/src/history.ts:241-272 | without the commitment a call fails; with it a count of zero and a held history of that length need nothing else; any other call needs the head, and logs only past its base; an endpoint that answers never makes one fail |
| History.HeldServes | apps/gateway/src/history.ts:244-248 | once an answer is its view's own scan, a later call of the same count answers from what is held, with no head, registry or log read, and changes nothing |
| History.MergeFacts | apps/gateway/src/history.ts:214-228 | a merge keeps the base first, adds each count of the logs that is not there yet, and gives no count two places |
| History.RegistryAhead | apps/gateway/src/history.ts:241-272 | two blocks and a registry one record ahead: the answer is longer than the view |
| History.ScannedExtends | apps/gateway/src/history.ts:214-233 | scanning a good copy forward gives a good copy: the longer of copy and view |
| History.EveryRunHolds | apps/gateway/src/history.ts:241-272 | in every run over registry answers true to their own horizons the held history is the contract's records 1..m with everything up to its horizon |
| History.EveryAnswerIsAFullScan | apps/gateway/src/history.ts:137-274 | with forward heads and copies not ahead of their view, every answer of a run is that view's full scan |
| Witness.BuildWitness | apps/gateway/src/witness.ts:561-663 | with a truthful commitment it succeeds exactly when the records are the contract's whole history in some order, the bounds hold and stakes are readable; it returns that history in order with one bond entry per counterparty; a mismatch means the records are not the history, a length or counterparty report is past its bound, a failed read did fail, a gap is there, and a duplicate is exactly when the count 0 is not carried by one record alone |
| Witness.RootBindsHistory | apps/gateway/src/witness.ts:188-214 | equal roots are equal histories |
| Witness.CommitmentOf | apps/gateway/src/witness.ts:207-214 | the fold over a history and its length |
| Witness.CounterpartiesOf | apps/gateway/src/witness.ts:229-249 | exactly the services the history deals with in the Asset and the authorised ones, each once, the history's first, each group in order of first appearance |
| Witness.CounterpartiesAre | apps/gateway/src/witness.ts:218-249 | the same of the list the bonds are read for, an Agent with no history and one authorised service included |
| Witness.FirstSeenFacts | apps/gateway/src/witness.ts:229-249 | first appearance keeps every element, none twice, in order |
| Witness.CheckRun | apps/gateway/src/witness.ts:595-613 | passes exactly a run 1..n; a gap it reports is there, and a duplicate exactly when the count 0 is not carried by one record alone |
| Witness.MissingReport | apps/gateway/src/witness.ts:600-611 | a gap reported is a count no record carries |
| Witness.DuplicateReport | apps/gateway/src/witness.ts:600-611 | a run that breaks on a count too small is truly reported as a duplicate exactly when the count 0 is not carried by one record alone |
| Witness.CountZeroMisreported | apps/gateway/src/witness.ts:600-611 | a single record with count 0 is reported as a duplicate, wrongly |
| Witness.CompleteSorts | apps/gateway/src/witness.ts:590-593 | any arrangement of the whole history sorts to it |
| Witness.ReadBonds | apps/gateway/src/witness.ts:655-660 | one bond entry per service, or none when some stake cannot be read |
| Witness.BuiltWitnessIsComputable | apps/gateway/src/witness.ts:561-663 | the Credit Limit over a built witness never throws |
| Cursor.CursorRoundTrip | apps/registry/src/cursor.ts:84-127 | decoding inverts encoding on safe integers and refuses every other position by name |
| Cursor.DecodesIff | apps/registry/src/cursor.ts:96-127 | a token is accepted exactly when its bytes are "v1", a bar, a block, a bar and a log in decimal digits, both numbers below 2^53, and it is then that position |
| Cursor.RefusedAs | apps/registry/src/cursor.ts:104-117 | not three fields is malformed, then another version is unknown, and only then are the numbers looked at |
| Cursor.TokensAreDistinct | apps/registry/src/cursor.ts:84-94 | two positions never share a token |
| Cursor.SextetsRoundTrip | apps/registry/src/cursor.ts:84-127 | base64url groups decode to the bytes they came from, for every length |
| Cursor.SextetsOfGroup | apps/registry/src/cursor.ts:84-94 | three bytes are four sextets of one number, the highest first; a short group is filled with zero bits |
| Cursor.BytesOfGroup | apps/registry/src/cursor.ts:96-102 | four sextets are three bytes of one number; of a short group the bits that make no byte are dropped |
| Cursor.AlphabetIsUrlSafe | apps/registry/src/cursor.ts:84-94 | the alphabet is that of section 5 of RFC 4648 |
| Cursor.SkippedInText | apps/registry/src/cursor.ts:96-102 | padding ends a token and a character of neither alphabet is skipped |
| Cursor.CarriedByText | apps/registry/src/cursor.ts:96-102 | every other character carries its sextet, in either alphabet |
| Cursor.DigitsRoundTrip | apps/registry/src/cursor.ts:84-127 | decimal text parses back |
| Cursor.DigitsArePlaces | apps/registry/src/cursor.ts:118-121 | digits are read in base ten, the highest first |
| Cursor.NoLeadingZero | apps/registry/src/cursor.ts:84-87 | a number is written with no leading zero |
| Cursor.JoinUndoesSplit | apps/registry/src/cursor.ts:104 | splitting at bars gives bar-free pieces that joined with bars are the text |
| Cursor.SplitUndoesJoin | apps/registry/src/cursor.ts:104 | and there is no other way to split it |
| PageWalk.PageFacts | apps/registry/src/cursor.ts:173-185 | a page is at most pageSize rows after its cursor in falling order; it hands out a token exactly while a row is left over, which decodes to its last row's position, and every row left over lies below it |
| PageWalk.PageOfRows | apps/registry/src/cursor.ts:173-185 | a page is the first pageSize of the rows; a token is handed out exactly when there are more, and names the last row served |
| PageWalk.ServedFalls | apps/registry/src/queries.ts:579-619 | over tables that change between requests, what a walk serves falls strictly, so it ends |
| PageWalk.PresentIsServed | apps/registry/src/queries.ts:579-619 | a row there at every request is served |
| PageWalk.WalkServesOnce | apps/registry/src/cursor.ts:157-185 | a walk serves no position twice and every row present throughout exactly once |
| Reputation.EventIsSound | apps/gateway/src/reputation.ts:41-58 | no landing and no mining, in any order, breaks the prefix property while unmined writes are next entries |
| Reputation.SendIsSound | apps/gateway/src/reputation.ts:572-580 | a send keeps it exactly when it writes the next entry and the agent has nothing unmined |
| Reputation.AtMostOneEntryEach | apps/gateway/src/reputation.ts:41-58 | then no Settlement has two entries, under any agentId |
| Reputation.SecondSendDuplicates | apps/gateway/src/reputation.ts:52-55 | an entry sent twice and mined twice breaks the prefix property, in every sound world |
| Reputation.RisingIsUnique | apps/gateway/src/reputation.ts:151-152 | chain order leaves nothing open: the same Settlements in order are the same list |
| FeedbackFacts.SettlementsAreOwed | apps/gateway/src/reputation.ts:661 | after a complete read, what is filtered and sorted for an address is exactly what the ledger owes it so far |
| FeedbackFacts.SortFacts | apps/gateway/src/reputation.ts:661 | sorting by chain order keeps every row and rises |
| FeedbackFacts.RestIsHeld | apps/gateway/src/reputation.ts:470-473 | at the first row not above the newest read, everything below is already held |
| FeedbackFacts.ReadIsComplete | apps/gateway/src/reputation.ts:452-487 | a read down to the first row holds exactly the own Settlements landed so far, and its top may become the newest position |
| FeedbackFacts.CompleteIsReady | apps/gateway/src/reputation.ts:661-675 | after a complete read no agentId has more entries, one being mined included, than Settlements held |
| FeedbackFacts.AnsweredWrite | apps/gateway/src/reputation.ts:580-594 | a sent write with a receipt leaves nothing of its agent unmined, and one entry more exactly if it succeeded |
| FeedbackRuns.TakenPageReads | apps/gateway/src/reputation.ts:464-483 | the rows of a page leave no gap down to where they stop, mark every address they gain, and end the read only where the rest is held |
| FeedbackRuns.ReadNewReads | apps/gateway/src/reputation.ts:452-487 | a read that ends holds exactly the own Settlements landed up to a point no earlier than its start, each gain marked; a failed one keeps the newest position |
| FeedbackRuns.WroteOneEnds | apps/gateway/src/reputation.ts:533-595 | when no send is lost, an entry reported written is the agent's one new entry and nothing of it is unmined; one that is not has a failed call, an unconfirmed write or a revert behind it; a dry run sends nothing |
| FeedbackRuns.SettledKeeps | apps/gateway/src/reputation.ts:649-659 | an agent is left alone while an earlier write has no receipt, and touched only when nothing of it is unmined |
| FeedbackRuns.CountedEnds | apps/gateway/src/reputation.ts:661-699 | the Settlements past the on-chain count are written in order up to the first that is not, and afterwards the agent is kept for a retry, reported as refused, or has an entry for every Settlement held |
| FeedbackRuns.ServedEnds | apps/gateway/src/reputation.ts:620-704 | every marked address is done, kept for the next pass or reported as refused, and what the report says went wrong did |
| FeedbackRuns.TickedEnds | apps/gateway/src/reputation.ts:597-714 | every step of a pass is sound and its report true; a pass that reads leaves each Agent that was due with an entry for every Settlement landed before it, unless it has no identity, is kept for the next pass or is reported as refused; a pass that does not read keeps all it had marked |
| FeedbackRuns.QuietPassWritesAll | apps/gateway/src/reputation.ts:597-714 | a pass in which no call failed, and after which no write is unconfirmed and none was reverted, has written everything that was due and leaves nothing for the next |
| Feedback.IsMultipleIff | apps/gateway/src/reputation.ts:608 | the passes that recheck are those whose number is a multiple of recheckEvery |
| FeedbackRuns.RecheckReachesEveryone | apps/gateway/src/reputation.ts:606-617 | in a run from a fresh process every recheckEvery-th pass that reads leaves every Agent with an identity, marked or not, with an entry for every Settlement landed before it, kept for the next pass or reported as refused |
| FeedbackCalls.OutcomeByCalls | apps/gateway/src/reputation.ts:533-595 | a write's five calls decide it: no document is a failure, a simulation that throws a refusal, an estimate that throws nothing, a send that throws a failed submission, a receipt that is not had an unconfirmed write; a dry run ends after the third |
| FeedbackCalls.SettledByCall | apps/gateway/src/reputation.ts:649-659 | an earlier write costs one call and is forgotten exactly when that brings a receipt |
| FeedbackCalls.CountByCall | apps/gateway/src/reputation.ts:662-675 | a count that cannot be read is a failure, one above the Settlements held is reported, and neither writes anything |
| FeedbackCalls.AgainIff | apps/gateway/src/reputation.ts:648-700 | an agentId is kept for the next pass exactly when a call about it failed or an earlier write of it is unmined, so not when it is refused |
| FeedbackCalls.KeptAreRetried | apps/gateway/src/reputation.ts:648-704 | nobody else is kept on its account |
| FeedbackCalls.ResolvedByCall | apps/gateway/src/reputation.ts:623-640 | an identity read sets that address alone and reports one without an identity; one that fails is a failure, records nothing and keeps the address |
| FeedbackCalls.PageIsNewest | apps/gateway/src/reputation.ts:452-458 | a page is the newest 200 rows below its cursor, or all there are |
| FeedbackCalls.OneCallReadsNew | apps/gateway/src/reputation.ts:464-486 | with an own row at or below the newest position among the newest 200, a read is one call |
| FeedbackCalls.WholeReadCalls | apps/gateway/src/reputation.ts:452-487 | with no position counted as read, a read takes one call for every 200 rows |
| FeedbackCalls.RecheckRereads | apps/gateway/src/reputation.ts:606-611 | a recheck reads the whole list again, whatever was read before |
| FeedbackReports.TickedAccounts | apps/gateway/src/reputation.ts:489-714 | whatever fails and whatever is lost: an entry is reported written only if its transaction was sent in the pass and succeeded; every transaction sent is in the report; as many were sent as entries written and writes unconfirmed or reverted, more only where a send threw; a write held in flight is one reported unconfirmed or held before; a dry run sends nothing |
| FeedbackReports.ServedAgentAccounts | apps/gateway/src/reputation.ts:648-699 | after an agentId is served a write of it is held in flight only if it is reported unconfirmed or not mined |
| FeedbackRuns.FreshIsGood | apps/gateway/src/reputation.ts:41-58 | over a sound world a fresh process starts well exactly when nothing is unmined |
| FeedbackRuns.RunIsSafe | apps/gateway/src/reputation.ts:41-58 | at every step of every run in which no send is lost, each Agent's entries are a prefix of its Settlements in chain order and no Settlement has two; the steps begin with the first world and differ by one event or one send |
| LostSends.NextSendIsSoundIff | apps/gateway/src/reputation.ts:661-699 | with an unmined write of the agent that is not held, the pass's next send for it is one of its steps, and is sound exactly when that write was mined before the count was read or was reverted before the send; otherwise both mined are a duplicate |
| LostSends.LostLeavesUnmined | apps/gateway/src/reputation.ts:574-580 | a send that throws after the node took it leaves such a write, is itself sound, and is reported as not submitted |
| LostSends.LostSendBreaksARun | apps/gateway/src/reputation.ts:52-55 | two passes of a fresh process, every call answered but the one lost send: the only Settlement has two entries |
| FeedbackWriter.Writer.Await | apps/gateway/src/reputation.ts:597-714 | a call moves the world event by event, and records each |
| FeedbackWriter.Writer.WriteOne | apps/gateway/src/reputation.ts:533-595 | the writer's new state and outcome are the reference's, in every state and for every script |
| FeedbackWriter.Writer.Submit | apps/gateway/src/reputation.ts:574-594 | a send that throws leaves no hash, whether or not the node took it |
| FeedbackWriter.Writer.Confirm | apps/gateway/src/reputation.ts:580-594 | a write without a receipt stays in flight; with one it is forgotten, and counts exactly if it succeeded |
| FeedbackWriter.Writer.SettleInFlight | apps/gateway/src/reputation.ts:649-659 | an earlier write is asked for its receipt and forgotten once it has one, as in the reference |
| FeedbackWriter.Writer.CountAndWrite | apps/gateway/src/reputation.ts:662-699 | the count, the two refusals and the loop over the rest are the reference's, a count above the Settlements held included |
| FeedbackWriter.Writer.ReadNewSettlements | apps/gateway/src/reputation.ts:452-487 | the paged read is the reference's, page ends, garbled rows and the newest position included |
| FeedbackWriter.Writer.Resolve | apps/gateway/src/reputation.ts:623-640 | the addresses are resolved one by one as in the reference |
| FeedbackWriter.Writer.ServeAll | apps/gateway/src/reputation.ts:648-700 | the agentIds are served one by one as in the reference |
| FeedbackWriter.Writer.Tick | apps/gateway/src/reputation.ts:597-714 | one pass is the reference's, in every state and for every script; its report accounts for what it sent as TickedAccounts says, and from a good state with no lost send it leaves what TickedEnds says, a recheck being every pass whose number is a multiple of recheckEvery |
| FeedbackWriter.Writer.Run | apps/gateway/src/reputation.ts:716-732 | any number of passes: the moments stay a record of every step for every script, and with no lost send every one of them has the prefix property |
| FeedbackWriter.LosingRun | apps/gateway/src/reputation.ts:52-55 | the writer, run on the losing script, passes through a world without the prefix property |
| Bits.RotlRotates | packages/shared/src/keccak256.ts:70-73 | shift, or and mask rotate: bit z comes from bit z - n modulo 64 |
| Keccak.ThetaInPlace | packages/shared/src/keccak256.ts:80-88 | the two loops are theta of section 3.2.1 of FIPS 202 |
| Keccak.TablesAreWalk | packages/shared/src/keccak256.ts:57-68 | the two tables are rho's walk, its offsets modulo 64 and a visit to each lane but the first |
| Keccak.FusedIsPiOfRho | packages/shared/src/keccak256.ts:90-97 | a lane rotated by its offset and put at the walk's next place is where rho and then pi put it |
| Keccak.RhoPiInPlace | packages/shared/src/keccak256.ts:90-97 | the exchange loop is pi after rho (sections 3.2.2 and 3.2.3) |
| Keccak.RhoAt | packages/shared/src/keccak256.ts:57-63 | rho rotates each lane of its walk once and leaves the first alone |
| Keccak.ChiInPlace | packages/shared/src/keccak256.ts:99-105 | the row loops are chi (section 3.2.4) |
| Keccak.IotaInPlace | packages/shared/src/keccak256.ts:107-108 | lane (0, 0) takes the constant, the rest stays |
| Keccak.Permute | packages/shared/src/keccak256.ts:76-110 | the 24 rounds in place are Keccak-f[1600] on every state |
| KeccakPermutation.RoundsInjective | packages/shared/src/keccak256.ts:76-110 | Keccak-f[1600] is a permutation: no two states go to the same one, after any number of rounds and for any constants |
| KeccakPermutation.ThetaInjective | packages/shared/src/keccak256.ts:80-88 | theta loses nothing: a state it clears has column parities that are each the sum of their neighbours, and only zero is |
| KeccakPermutation.RhoInjective | packages/shared/src/keccak256.ts:57-63 | rho loses nothing |
| KeccakPermutation.PiInjective | packages/shared/src/keccak256.ts:65-68 | pi loses nothing |
| KeccakPermutation.ChiInjective | packages/shared/src/keccak256.ts:99-105 | chi loses nothing, row by row |
| RoundConstants.ConstantsAreStandard | packages/shared/src/keccak256.ts:29-55 | every bit of every constant is the one the register of section 3.2.5 gives |
| Sponge.PaddingIsStandard | packages/shared/src/keccak256.ts:116-121 | the padded bytes are the message's bits and pad10*1 of section 5.1, in whole blocks |
| Sponge.UnpadInverts | packages/shared/src/keccak256.ts:116-121 | the padding has a left inverse for messages of every length, the one-byte 0x81 included |
| Sponge.Pad | packages/shared/src/keccak256.ts:116-121 | the buffer as it is filled and marked is the padded message |
| Sponge.Word | packages/shared/src/keccak256.ts:125-128 | eight bytes from the highest down are a lane's 64 bits |
| Sponge.AbsorbInPlace | packages/shared/src/keccak256.ts:123-132 | absorbing block by block leaves the sponge's state |
| Sponge.Keccak256 | packages/shared/src/keccak256.ts:113-142 | the digest is 0x and 64 digits that, read two to a byte and the higher first, are the first 256 bits of the sponge over the message and pad10*1 |
| Sponge.HexTellsBits | packages/shared/src/keccak256.ts:134-141 | equal digest texts are equal digest bits |
| Sponge.HexReads | packages/shared/src/keccak256.ts:134-141 | the text of any row of whole bytes reads back as the row, byte by byte and high digit first |
| Sponge.ByteOfBits | packages/shared/src/keccak256.ts:123-138 | a byte is its eight bits, lowest first, each for its power of two |
| Sponge.ShortMessagesDiffer | packages/shared/src/keccak256.ts:113-132 | no two messages shorter than a block lead to the same state |

## Left out

- RunTick: the report carries no per-event counts, which decide nothing.
- ReadRange: the batch carries no block times, which decide nothing.
- CatchUp: the chain is the same for all the ticks of one call; `ShallowRunIsSynced` and `DeepReorg` are about runs over chains that change.
- RunEndsCleanIff: the new chain reaches at least to the cursor, and every tick reads to its head.
- CreditLimit: identifiers are compared as given; the source lower-cases them first.
- DeepReorgIsSound: assumes the stored rows up to the cursor come from one earlier branch; `TickIsSoundIff` covers rows of two, and rows of three or more branches are not covered.
- EveryAnswerIsAFullScan: assumes the commitment and the head are read in one view, as the whole `History` module does; the source reads them one after the other.
- RunIsSafe: the identity of an address is fixed and belongs to it alone; several addresses of one agentId, of which some do not resolve, are not covered. `Writer` itself takes any identities.
- Tick: ticks never overlap, so the `running` flag that makes a second call return at once is not a field.
- The writer's page cursor is a place in the ledger; the token it stands for is what `Cursor` and `PageWalk` are about. `refusedFor` only silences repeated log lines.
- Gas estimation and its clamps, the feedback document's text, and the choice between several agents of one address are not modelled.
- The index is one stream. `PostgresSink` keeps the same contract through SQL and is not modelled.
- A failing RPC stops a tick before it writes, and a failing sink write is a batch not applied; neither is a step here.
- The keeper's retries with a delay, HTTP, ethers, Drizzle and the archive's native client are answers or refusals.
- ABI widths and byte layout, signature recovery and the security of the hash: the history fold is an injective constructor, and Keccak is verified as a computation only.
- `keccak256Ascii` only refuses non-ASCII text and copies the rest.
- A page request's text form beyond its cursor, filters and joins of the page query are not modelled; the table a request sees is any table in the query's order.
- The Dashboard, the SDK, the MCP server, the plugin, the remaining caches and the Solidity contracts are not part of this model.
