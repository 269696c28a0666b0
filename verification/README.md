# Verified model of the CPU paged-attention engine

This project models, in Dafny, how vLLM computes paged attention on a CPU, and proves that
what comes out is attention. The engine splits a batch into work items for the threads of a
parallel region (`csrc/cpu/cpu_attn_impl.hpp`), keeps K and V in paged caches whose layout
depends on the instruction set (`csrc/cpu/cpu_attn_amx.hpp`, `csrc/cpu/cpu_attn_vec.hpp`),
multiplies tiles, runs an online softmax with a lazily moved base, and merges the results of
KV splits behind flags. Four smaller components whose correctness can be stated on its own
are modelled too: the primitive cache with its scratchpad, flat logprobs, half-precision
conversion and scalar type ids.

The main results:

- `EndToEnd.AttentionIsExact`: for every batch, thread count, window, sink, tile size and
  KV-split choice, from arbitrary stale scratch memory and in every interleaving, the finished
  parallel region has written exactly the (head, request, token) slots of the batch. Each holds
  the exp-weighted mean of the values over exactly the positions the token sees, with the sink
  counted once, except for output elements that a mask has overwritten (see below); how many
  these are is a function of positions, window and tile sizes, and `EndToEnd.BatchIsExact` says
  the batch comes out right exactly if it is zero throughout.
- `PagedAttention.PagedAttentionIsExact`: the same from `reshape_and_cache` on, with logits
  scale * (query . key) and values taken from the tensors that any number of calls have written
  into the caches. `KernelStep.Attend` with `KernelStep.RowsOfModel`: the kernels, the mask and the
  softmax take all rows of an inner tile, in place, through just the steps that theorem folds.
- `EndToEnd.RegionFinishes` and `EndToEnd.FairRegionFinishes`: the region cannot get stuck, and
  every run that keeps giving each thread a turn ends within a bound known at the start.
- `Scheduler.Schedule` and `PlanFacts.AssignedOnce`: the greedy splitter assigns every visible
  (token, position) pair to exactly one work item, and split groups, ids and thread slices fit.
- `ThreadLoads.StaysIff`, `ThreadLoads.SplitIff`, `ThreadLoads.ScheduleDetermined` and
  `ThreadLoads.LoadBound`: when a tile stays on its thread, leaves it or is split, and where it is
  cut; these rules leave no choice of schedule; and no thread but the machine's last is given more
  KV work than its budget and one excess.
- `OnlineSoftmax.PassExact` and `OnlineSoftmax.MergeExact`: sums and outputs stay exact
  relative to the stored base whether or not a tile rescaled, every exponential is at most
  exp(8), and merging splits with arbitrary bases is exact.
- `TileGemm.Gemm`, `PagedTile.QkTile`, `PagedTile.PvTile`, `QueryPack.LogitIsScaledProduct` and
  `PagedTile.ReadAfterWrite`: packed or plain, the tile kernels and block-table walks multiply
  the very rows that `reshape_and_cache` stored for the positions of the tile.
- `Scratchpad.MainLoopFits` and `Scratchpad.HeadsDisjoint`: the size reserved once is enough for
  every tile the main loop can choose, and no two threads or kv heads share a byte of it.
- `MatmulPrimitives.ExecutesLastMade`, `MatmulPrimitives.SharesIff` and `MatmulPrimitives.SizeIs`:
  over any history of handlers and schedules, which primitive an execution runs, which handlers
  share a table, and how large the scratchpad is.
- `PrimitiveCache.RunRefinesLru`, `MatmulPrimitives.ScratchAlwaysSuffices`,
  `FlatLogprobs.RunRefinesList`, `HalfFloat.FloatToHalf`, `HalfFloat.LeftInverse`,
  `ScalarTypes.IdRoundTrip`.

Properties that turned out to hold only under a condition, with the exact condition:

- Attention with a sliding window can lose output elements. `apply_mask` fills the columns before
  a token's window without stopping at the end of the row. Past the last row this runs into the
  partial outputs, which lie right behind the logits (`Scratchpad.PadHolds`), and puts minus
  infinity into the first elements of the first row of the Q tile. `QTileWalk.LostIs` says how
  many are lost: the largest `Overhang` of the full inner Q tiles after the first. An inner tile
  has one exactly if KV tiles are as narrow as the alignment and a KV tile boundary lies strictly
  between the window starts of its first and last token. So nothing is lost without a window, with
  wider KV tiles, in Q tiles of one iteration, or in KV splits. `QTileWalk.LossCase` and
  `EndToEnd.LossyBatch` are a case: float32, head dimension 256, a 256 KiB level-2 cache, 24 new
  tokens of 124, left window 46; the first token loses five elements in every interleaving.
- `FlatLogprobs.SliceReadsBack`: a slice reads back as the selected dicts exactly if it selects
  something, and its step is positive, or it selects one position, or the selected positions are
  empty. An empty selection raises IndexError (`FlatLogprobs.EmptySlice`).
- `ScalarTypes.FloatingPointMaxInt`: the assembled double is the largest finite value exactly if the
  type has infinities just in case it is an IEEE 754 type, an IEEE 754 type has more than one
  exponent bit, and an extended-range type has a mantissa. `ScalarTypes.Unforeseen` has two types
  the constructors accept and the method gets wrong: an IEEE 754 type declared finite-only, whose
  top exponent with mantissa 0 is one more number, and a type without NaNs declared with
  infinities. The source does not say which code is the infinity of a type that is not IEEE 754;
  the model takes the last code that is not a NaN, which is also what IEEE 754 does.
- `ScalarTypes.IdsEqual`: ids collide exactly if the fields agree modulo their widths, so the
  Python id map can rebind an id for fields out of range (`ScalarTypes.Rebinding`).

## How to read it

| file | what it models |
|---|---|
| `KvRanges`, `Flatten`, `Powers`, `Wrappers` | alignment arithmetic, concatenation, products and powers of two, options |
| `Scheduler`, `PlanFacts`, `ThreadLoads` | `AttentionScheduler::schedule`; a ghost plan of units (an unsplit item, or a tile with its cut points) stands for the emitted vectors, a ghost run of stages for the decisions |
| `OnlineSoftmax`, `TileWalk` | a row of `apply_softmax`, P.V, `reduce_splits`, `final_output`; the KV tiles a row executes |
| `QTileWalk` | both loops over a Q tile, and what the masks of other rows do to a row |
| `SplitProtocol`, `WorkPrograms` | the parallel region as a state machine, and the programs the metadata gives its tasks |
| `EndToEnd` | all of the above against plain attention |
| `CacheLayout`, `TileGemm`, `PagedCache`, `PagedTile`, `QueryPack` | layouts, tile products, cache writes, block-table walks, the Q copy |
| `PagedAttention` | logits and values from the caches, put under `EndToEnd` |
| `KernelStep` | `Attention::operator()`: the kernels, the mask and the softmax on one set of buffers |
| `Scratchpad`, `LogitsMask` | buffer sizes and the mask on the flat buffer |
| `PrimitiveCache`, `MatmulPrimitives` | the LRU cache object and the scratchpad; the matmul handlers that share them |
| `FlatLogprobs`, `HalfFloat`, `ScalarTypes` | the companion components |

Arithmetic in attention is over `real`; `exp` is any positive, monotone function that turns
sums into products (`ExpLaws`). Steps of the parallel region are sequentially consistent, with
one OS thread per loop iteration; the fences around the split flags are what this rests on.
C++ division of possibly negative numbers is written out (`Scratchpad.TruncDiv`).

## Model

| member | source | states |
|---|---|---|
| `EndToEnd.AttentionIsExact` | csrc/cpu/cpu_attn_impl.hpp:1339-1808 | in every interleaving, from stale memory, the finished region has written exactly the keys of the batch; each holds plain causal (windowed) attention with the sink counted once, but for the overwritten elements its work item implies, and is plain attention exactly if there are none |
| `EndToEnd.BatchIsExact` | csrc/cpu/cpu_attn_impl.hpp:1339-1808 | the whole batch comes out as plain attention exactly if no work item loses an element |
| `EndToEnd.ReferenceIff` | csrc/cpu/cpu_attn_impl.hpp:1929-1972 | an output with lost elements is not the reference |
| `EndToEnd.WholeLoss` | csrc/cpu/cpu_attn_impl.hpp:1491-1723 | what the walk of an unsplit work item loses is what positions, window and tile sizes say |
| `EndToEnd.OneTokenLosesNothing` | csrc/cpu/cpu_attn_impl.hpp:1734-1753 | a work item of one token, so every split, loses nothing |
| `EndToEnd.NothingLost` | csrc/cpu/cpu_attn_impl.hpp:1126-1128 | nothing is lost without a window, or where KV tiles are wider than the alignment |
| `EndToEnd.LossyItem` | csrc/cpu/cpu_attn_impl.hpp:1126-1128 | a work item and a window for which the first token loses five elements |
| `EndToEnd.LossySchedule` | csrc/cpu/cpu_attn_impl.hpp:441-589 | on one thread the schedule of such a request is that item |
| `EndToEnd.LossyBatch` | csrc/cpu/cpu_attn_impl.hpp:1339-1808 | so this batch, finished in any interleaving, has an output that is not plain attention |
| `EndToEnd.SameWalk` | csrc/cpu/cpu_attn_impl.hpp:1491-1540 | the Q tile, inner tile and KV range of a token are those the two loops walk |
| `EndToEnd.TokenTile` | csrc/cpu/cpu_attn_impl.hpp:1491-1643 | for every token of a work item: the Q tile whose token offsets it lies between, with that tile's start, own token number, KV tile for that number and KV range; the inner tile likewise |
| `EndToEnd.QTiles` | csrc/cpu/cpu_attn_impl.hpp:1491-1540 | the loop over a work item emits Q tiles that divide its tokens, each with the KV tile of the rows it actually has, rounded up to whole iterations |
| `EndToEnd.KernelTile` | csrc/cpu/cpu_attn_impl.hpp:1499-1514 | with the sizes of a kernel, the Q tile of a token is the one that loop emits for its place |
| `EndToEnd.Served` | csrc/cpu/cpu_attn_impl.hpp:441-589 | every token has a work item that computes it |
| `EndToEnd.RegionFinishes` | csrc/cpu/cpu_attn_impl.hpp:1425-1452 | any run can be continued to the end of the region, and its steps that are not spins are bounded by a number known at the start |
| `EndToEnd.FairRegionFinishes` | csrc/cpu/cpu_attn_impl.hpp:1425-1452 | once every thread has had a turn in more rounds than that number, in any order, all threads have left |
| `EndToEnd.ScheduleGivesSetting` | csrc/cpu/cpu_attn_impl.hpp:373-667 | what schedule() accepts for a kernel meets the assumptions of the theorems above |
| `EndToEnd.KernelModel` | csrc/cpu/cpu_attn_impl.hpp:690-740 | every size assumption follows from the constants of the kernels, for every cache and input |
| `EndToEnd.ExpectedIsOutput` | csrc/cpu/cpu_attn_impl.hpp:1725-1803 | the value the protocol is expected to write for a key, by an unsplit item or a reduction, is plain attention less the elements lost |
| `EndToEnd.WholeOutput` | csrc/cpu/cpu_attn_impl.hpp:1491-1756 | an unsplit work item computes plain attention for each of its tokens, less the elements lost |
| `EndToEnd.SplitReference` | csrc/cpu/cpu_attn_impl.hpp:1781-1797 | folding all splits of a tile and normalising gives plain attention for its token, nothing lost |
| `EndToEnd.SplitSees` | csrc/cpu/cpu_attn_impl.hpp:544-581 | every split of a tile contains a position its token may attend to |
| `EndToEnd.MergePartsExact` | csrc/cpu/cpu_attn_impl.hpp:1839-1900 | merging two parts that are exact on adjacent ranges is exact on their union, head by head |
| `Scheduler.Schedule` | csrc/cpu/cpu_attn_impl.hpp:373-667 | rejected exactly if a split tile would need more than 16 rows or there are more than 1024 threads; otherwise the metadata of a plan that covers all tokens of all requests, with total KV length equal to that of the Q tiles, emitted thread by thread in a run of decisions over all tiles |
| `Scheduler.SplitTasks` | csrc/cpu/cpu_attn_impl.hpp:431-589 | after all requests, plan, items, reductions and thread counts agree, nothing is left over, and every tile was placed by the rules, in order |
| `Scheduler.PlaceRequest` | csrc/cpu/cpu_attn_impl.hpp:442-588 | one request is covered completely, tile by tile by the rules, and the collected item is written back |
| `Scheduler.PlaceTile` | csrc/cpu/cpu_attn_impl.hpp:467-581 | the splitting loop ends, never leaves the thread range, hands out exactly the KV length of the tile, and leaves, joins or splits as the rules say |
| `Scheduler.TakeRest` | csrc/cpu/cpu_attn_impl.hpp:468-494 | the thread takes what is left; a split tail closes its group as an item of its own |
| `Scheduler.PushToNext` | csrc/cpu/cpu_attn_impl.hpp:496-514 | what was collected becomes an item, the next thread starts with a whole budget and no items |
| `Scheduler.TakeWhole` | csrc/cpu/cpu_attn_impl.hpp:516-542 | a tile that may not be split is taken as one, on a fresh thread where the Q tile is full |
| `Scheduler.CutSplit` | csrc/cpu/cpu_attn_impl.hpp:551-576 | the emitted split is aligned, at least the minimum long, strictly shorter than the rest, and extends its group |
| `Scheduler.SplitOff` | csrc/cpu/cpu_attn_impl.hpp:544-581 | cutting a split keeps the loop invariant and moves on by one thread |
| `Scheduler.TotalKvLen` | csrc/cpu/cpu_attn_impl.hpp:399-426 | the total is the sum of the aligned KV lengths of all Q tiles |
| `Scheduler.PrefixTable` | csrc/cpu/cpu_attn_impl.hpp:611-625 | the table is the prefix sum of the counts, and the effective threads are exactly those with work |
| `Scheduler.DeriveValid` | csrc/cpu/cpu_attn_impl.hpp:376-398 | the constants derived from the input are ones the splitter accepts |
| `Scheduler.TileRight` | csrc/cpu/cpu_attn_impl.hpp:669-688 | the aligned end lies after the tile's first token; for the last tile it is the sequence length rounded up |
| `ThreadLoads.StaysIff` | csrc/cpu/cpu_attn_impl.hpp:468-542 | a tile stays on the thread in one piece exactly if it fits what is left of the budget and the minimal split length, or the thread is the last, or it may not be split and need not leave; otherwise a later thread becomes the current one; with the budget left afterwards |
| `ThreadLoads.SplitIff` | csrc/cpu/cpu_attn_impl.hpp:496-581 | a tile is split exactly if it may be and does not fit the thread it comes to; every cut point in closed form, and when the cutting stops |
| `ThreadLoads.ScheduleDetermined` | csrc/cpu/cpu_attn_impl.hpp:431-625 | two schedules by the rules have the same items, reductions, split ids and prefix table |
| `ThreadLoads.LoadBound` | csrc/cpu/cpu_attn_impl.hpp:431-625 | the work items of every thread but the machine's last have at most the budget and the larger of the minimal split length and the longest tile that may not be split |
| `ThreadLoads.OverdrawnMovesOn` | csrc/cpu/cpu_attn_impl.hpp:475-478 | a thread that exceeds its budget by a tile tested to fit is given no other tile of the request |
| `ThreadLoads.BudgetIs` | csrc/cpu/cpu_attn_impl.hpp:427-430 | the budget is a multiple of the alignment times the heads that share the work, within one such multiple of the average KV length of a thread times these heads; which heads these are |
| `ThreadLoads.ConstantsAre` | csrc/cpu/cpu_attn_impl.hpp:376-398 | tokens of an iteration and of a Q tile, minimal split length and splitting threshold, by arithmetic |
| `ThreadLoads.TileRangeIs` | csrc/cpu/cpu_attn_impl.hpp:408-423 | a tile's KV range runs from its first token's window to its last token, widened to the alignment by less than one step |
| `KvRanges.AlignDown` | csrc/cpu/cpu_attn_impl.hpp:679-688 | the aligned position at or just below x |
| `KvRanges.AlignUp` | csrc/cpu/cpu_attn_impl.hpp:679-688 | the aligned position at or just above x |
| `PlanFacts.AssignedOnce` | csrc/cpu/cpu_attn_impl.hpp:441-589 | every position a token may attend to is assigned to it by exactly one work item |
| `PlanFacts.ExactCover` | csrc/cpu/cpu_attn_impl.hpp:441-589 | every token of every request belongs to exactly one unit of the plan |
| `PlanFacts.SplitRanges` | csrc/cpu/cpu_attn_impl.hpp:544-581 | splits are at least two, aligned, non-empty, consecutive, and run from the aligned window start to the sequence end; local ids count from 0 |
| `PlanFacts.SplitItemExists` | csrc/cpu/cpu_attn_impl.hpp:480-491 | every split id below the total was given to a work item |
| `PlanFacts.SplitItemUnique` | csrc/cpu/cpu_attn_impl.hpp:480-491 | and to only one |
| `PlanFacts.ReductionOfSplit` | csrc/cpu/cpu_attn_impl.hpp:551-581 | every split id lies in the range of a reduction item |
| `PlanFacts.ReductionsDisjoint` | csrc/cpu/cpu_attn_impl.hpp:551-581 | and of only one |
| `PlanFacts.ReductionUnit` | csrc/cpu/cpu_attn_impl.hpp:551-581 | a reduction item's splits are all the splits of one tile of one request |
| `OnlineSoftmax.TileStepExact` | csrc/cpu/cpu_attn_impl.hpp:1157-1253 | whether or not the tile rescales, sum and output stay the exact exponential sums relative to the stored base, and logits stay at most base + 8 |
| `OnlineSoftmax.PassExact` | csrc/cpu/cpu_attn_impl.hpp:1587-1723 | the same after any non-empty sequence of tiles, whatever the output buffer held before |
| `OnlineSoftmax.WeightsBounded` | csrc/cpu/cpu_attn_impl.hpp:1176-1183 | no exponential exceeds exp(8) |
| `OnlineSoftmax.RowMax` | csrc/cpu/cpu_attn_impl.hpp:1161-1173 | the largest logit of the tile, or the old base |
| `OnlineSoftmax.Exponentiate` | csrc/cpu/cpu_attn_impl.hpp:1185-1216 | logits become weights in place, and their sum is returned |
| `OnlineSoftmax.ScaleRow` | csrc/cpu/cpu_attn_impl.hpp:1234-1244 | the partial output is multiplied by the factor |
| `OnlineSoftmax.ApplySoftmax` | csrc/cpu/cpu_attn_impl.hpp:1140-1254 | new base, sum, probabilities and rescaled output of a row |
| `OnlineSoftmax.AccumulateValues` | csrc/cpu/cpu_attn_impl.hpp:1033-1081 | P.V is added to the output, or replaces it on the first tile |
| `OnlineSoftmax.AttendTile` | csrc/cpu/cpu_attn_impl.hpp:1019-1081 | softmax and P.V together are one step of the row, in place |
| `OnlineSoftmax.MergeExact` | csrc/cpu/cpu_attn_impl.hpp:1829-1900 | merging two exact rows with arbitrary bases is exact on the concatenated positions |
| `OnlineSoftmax.NormalizeIsAttend` | csrc/cpu/cpu_attn_impl.hpp:1929-1972 | normalising any exact row gives plain attention, whatever its base |
| `OnlineSoftmax.MassPositive` | csrc/cpu/cpu_attn_impl.hpp:1929-1972 | a row that saw something has a positive sum to divide by |
| `TileWalk.MaskIsVisible` | csrc/cpu/cpu_attn_impl.hpp:1109-1134 | the columns a mask row keeps are exactly the visible positions |
| `TileWalk.WalkCovers` | csrc/cpu/cpu_attn_impl.hpp:1624-1665 | the executed tiles, with skipped and trimmed ones left out, weigh exactly as much as the whole range |
| `TileWalk.ItemRowExact` | csrc/cpu/cpu_attn_impl.hpp:1560-1723 | the tiles of its own that a row executes give the exact sums over the range its work item stands for |
| `TileWalk.SomethingExecuted` | csrc/cpu/cpu_attn_impl.hpp:1651-1653 | if the token sees a position of the range, some tile is executed |
| `QTileWalk.AttendRange` | csrc/cpu/cpu_attn_impl.hpp:1587-1723 | both loops, in place, for one row: its base, sum and output are those of its own tiles, with exactly the elements lost that the masks of all rows overwrite |
| `QTileWalk.InnerLoop` | csrc/cpu/cpu_attn_impl.hpp:1630-1720 | the inner Q tiles on one KV tile: overwrites before and after the row's own tile, which restores everything if it is its first |
| `QTileWalk.WalkFormsMask` | csrc/cpu/cpu_attn_impl.hpp:1636-1665 | every mask the loops form is valid, aligned, no wider than a KV tile and has at most maxQ rows |
| `QTileWalk.MaskHasRoom` | csrc/cpu/cpu_attn_impl.hpp:1126-1128 | it never needs more than the logits buffer and one output row |
| `QTileWalk.HitsAtMost` | csrc/cpu/cpu_attn_impl.hpp:1126-1128 | it overwrites output only for a full inner tile, and no more than the overhang |
| `QTileWalk.OverhangHits` | csrc/cpu/cpu_attn_impl.hpp:1126-1128 | an overhang does happen: the KV tile is walked, the inner tile executed on it, and that much overwritten |
| `QTileWalk.OwnHarmless` | csrc/cpu/cpu_attn_impl.hpp:1587-1723 | the inner tile of row 0 itself can only overrun on its first KV tile |
| `QTileWalk.LostIs` | csrc/cpu/cpu_attn_impl.hpp:1624-1723 | exactly the largest overhang of the later full inner tiles is lost |
| `QTileWalk.OthersLoseNothing` | csrc/cpu/cpu_attn_impl.hpp:1624-1723 | no row but row 0 of the Q tile loses anything |
| `QTileWalk.OneIteration` | csrc/cpu/cpu_attn_impl.hpp:1624-1723 | nor does a Q tile of one iteration, whatever its KV range |
| `QTileWalk.LossCase` | csrc/cpu/cpu_attn_impl.hpp:1126-1128 | a Q tile, KV tile and mask for which five elements are lost |
| `QTileWalk.LossSizes` | csrc/cpu/cpu_attn_impl.hpp:690-740 | its tile sizes are what the cache model gives for a dispatched kernel |
| `SplitProtocol.InitInv` | csrc/cpu/cpu_attn_impl.hpp:1387-1401 | the invariant holds at the start, whatever flags and slots hold |
| `SplitProtocol.StepInv` | csrc/cpu/cpu_attn_impl.hpp:1387-1803 | every step of every thread keeps it |
| `SplitProtocol.FinishedOutputs` | csrc/cpu/cpu_attn_impl.hpp:1444-1803 | when all threads have left, in any interleaving, every key has its expected output and no other key was written |
| `SplitProtocol.WrittenOnce` | csrc/cpu/cpu_attn_impl.hpp:1725-1803 | a write never meets a key that is already written |
| `SplitProtocol.NoStaleFlag` | csrc/cpu/cpu_attn_impl.hpp:1387-1441 | once a thread is in the main loop, a flag is set exactly if its publisher has set it in this call |
| `SplitProtocol.ReadsPublished` | csrc/cpu/cpu_attn_impl.hpp:1829-1837 | a reducer loads and merges a slot only with its final published contents |
| `SplitProtocol.ReduceOther` | csrc/cpu/cpu_attn_impl.hpp:1781-1797 | a reduction leaves all slots of every other group alone |
| `SplitProtocol.ReduceFold` | csrc/cpu/cpu_attn_impl.hpp:1829-1900 | the k-th iteration turns the fold of k splits into that of k + 1 |
| `SplitProtocol.StepReset` | csrc/cpu/cpu_attn_impl.hpp:1387-1401 | resetting a flag keeps the invariant |
| `SplitProtocol.StepArrive` | csrc/cpu/cpu_attn_impl.hpp:1432-1433 | arriving at the barrier keeps it |
| `SplitProtocol.StepWait` | csrc/cpu/cpu_attn_impl.hpp:1434-1441 | leaving the barrier, only when all have arrived, keeps it |
| `SplitProtocol.StepAcquire` | csrc/cpu/cpu_attn_impl.hpp:1444-1452 | taking the next task from the counter keeps it |
| `SplitProtocol.StepRun` | csrc/cpu/cpu_attn_impl.hpp:1725-1803 | every operation of a task keeps it |
| `SplitProtocol.StepUsesWork` | csrc/cpu/cpu_attn_impl.hpp:1444-1803 | every step that is not a spin decreases a measure |
| `SplitProtocol.NoDeadlock` | csrc/cpu/cpu_attn_impl.hpp:1758-1763 | while a thread is unfinished, some thread can take a step that is not a spin |
| `SplitProtocol.Publisher` | csrc/cpu/cpu_attn_impl.hpp:1829-1837 | an awaited flag has a publisher whose thread holds its task, has not passed the raise, and is not waiting |
| `SplitProtocol.BoundedMoves` | csrc/cpu/cpu_attn_impl.hpp:1444-1803 | no interleaving has more moves than the measure at its start |
| `SplitProtocol.CanFinish` | csrc/cpu/cpu_attn_impl.hpp:1444-1803 | from every reachable state the region can be driven to its end |
| `SplitProtocol.FairRuns` | csrc/cpu/cpu_attn_impl.hpp:1444-1803 | each fair round either starts finished or uses up work |
| `WorkPrograms.TaskOfPair` | csrc/cpu/cpu_attn_impl.hpp:1452-1461 | task ids of (kv head, thread slice) or (kv head, reduction) pairs decode to the pair |
| `WorkPrograms.PairOfTask` | csrc/cpu/cpu_attn_impl.hpp:1452-1461 | every task id is that of some pair |
| `WorkPrograms.WriteUnique` | csrc/cpu/cpu_attn_impl.hpp:1725-1803 | one operation of one task writes a given output |
| `WorkPrograms.WriteExists` | csrc/cpu/cpu_attn_impl.hpp:1725-1803 | every output of the batch has such an operation |
| `WorkPrograms.PutUnique` | csrc/cpu/cpu_attn_impl.hpp:1734-1753 | one task fills and flags a given (kv head, split) slot |
| `WorkPrograms.PutExists` | csrc/cpu/cpu_attn_impl.hpp:1734-1753 | every slot has such a task |
| `WorkPrograms.FoldedUnique` | csrc/cpu/cpu_attn_impl.hpp:1781-1797 | one reduction reads a given slot |
| `WorkPrograms.ScheduleIsWellFormed` | csrc/cpu/cpu_attn_impl.hpp:1444-1803 | the programs of every schedule meet what the protocol needs |
| `CacheLayout.PackUnpack` | csrc/cpu/cpu_attn_amx.hpp:438-499 | the Q, K and V pack maps stay in their region and have a left inverse |
| `CacheLayout.UnpackPack` | csrc/cpu/cpu_attn_amx.hpp:438-499 | and a right inverse: they are bijections |
| `CacheLayout.AddrInjective` | csrc/cpu/cpu_attn_amx.hpp:374-409 | no two elements share an address |
| `CacheLayout.StridesAreGroups` | csrc/cpu/cpu_attn_amx.hpp:356-372 | the three stride functions move by whole groups of 32 tokens or head elements, for AMX and VEC |
| `TileGemm.Accumulate224` | csrc/cpu/cpu_attn_amx.hpp:104-133 | the 2-2-4 loop adds A.B to its four accumulators |
| `TileGemm.Accumulate122` | csrc/cpu/cpu_attn_amx.hpp:232-286 | the loop unrolled by two with its tail adds A.B to its two accumulators |
| `TileGemm.AccumulateVec` | csrc/cpu/cpu_attn_vec.hpp:79-100 | the vector loop adds A.B to its registers |
| `TileGemm.Gemm224` | csrc/cpu/cpu_attn_amx.hpp:49-139 | m by 32 entries of C gain the plain product, nothing else changes |
| `TileGemm.Gemm122` | csrc/cpu/cpu_attn_amx.hpp:186-291 | the same for at most 16 rows |
| `TileGemm.Gemm82` | csrc/cpu/cpu_attn_vec.hpp:50-110 | the same for the vector kernel and plain layouts |
| `TileGemm.Gemm` | csrc/cpu/cpu_attn_vec.hpp:14-47 | every dispatched kernel multiplies, for every m it is called with |
| `TileGemm.DotStep` | csrc/cpu/cpu_attn_amx.hpp:105-113 | one tile dot product advances an accumulator by 32 terms of the plain product |
| `TileGemm.LoadedA` | csrc/cpu/cpu_attn_amx.hpp:57-73 | an A tile load, packed or row-major, is in bounds and holds the 16 by 32 block |
| `TileGemm.LoadedB` | csrc/cpu/cpu_attn_amx.hpp:75-90 | a B tile load is in bounds and holds the interleaved pairs of the block |
| `PagedCache.PlaceInjective` | csrc/cpu/cpu_attn_amx.hpp:428-499 | no two elements of a cache share an address, within or across blocks and heads |
| `PagedCache.WriteKeyAmx` | csrc/cpu/cpu_attn_amx.hpp:438-466 | one key row is stored, nothing else changes |
| `PagedCache.WriteValueAmx` | csrc/cpu/cpu_attn_amx.hpp:467-499 | one value row is stored, nothing else changes |
| `PagedCache.WriteKeyVec` | csrc/cpu/cpu_attn_vec.hpp:217-230 | the same, column-major |
| `PagedCache.WriteValueVec` | csrc/cpu/cpu_attn_vec.hpp:231-241 | the same, row-major |
| `PagedCache.ReshapeAndCache` | csrc/cpu/cpu_attn_amx.hpp:412-502 | a slot of the mapping holds its token's rows, negative slots are skipped, every other slot is untouched |
| `PagedCache.OwnerUnique` | csrc/cpu/cpu_attn_amx.hpp:426-436 | with distinct slots a slot's contents come from the one token mapped to it |
| `PagedCache.OrderIrrelevant` | csrc/cpu/cpu_attn_amx.hpp:424-436 | so any order of the tokens leaves the same cache |
| `PagedTile.QkTile` | csrc/cpu/cpu_attn_impl.hpp:922-982 | column c is the (scaled) product with the key at position start + c |
| `PagedTile.PvTile` | csrc/cpu/cpu_attn_impl.hpp:1033-1081 | the output gains the weighted values of the same positions, each once |
| `PagedTile.WalkAdvances` | csrc/cpu/cpu_attn_impl.hpp:932-981 | every block the walk visits has groups left, and none is skipped |
| `PagedTile.WalkEnds` | csrc/cpu/cpu_attn_impl.hpp:912-920 | the walk consumes exactly token_group_num groups |
| `PagedTile.ReadAfterWrite` | csrc/cpu/cpu_attn_impl.hpp:932-940 | a position whose slot was written reads that token's row, any other reads as before |
| `QueryPack.CopyQ` | csrc/cpu/cpu_attn_amx.hpp:374-409 | every row of the Q tile ends up at its packed place, scaled for VEC only |
| `QueryPack.NextRowStart` | csrc/cpu/cpu_attn_amx.hpp:400-406 | the pointer steps within a tile and jumps to the next one after 16 rows |
| `QueryPack.IterationRead` | csrc/cpu/cpu_attn_impl.hpp:1680-1681 | the plain pointer step of an iteration finds its rows: any row for VEC, and whole tiles, where AMX iterations start, in the packed layout |
| `QueryPack.LogitIsScaledProduct` | csrc/cpu/cpu_attn_impl.hpp:952-972 | with both kernels a logit is scale * (query row . key of its position) |
| `PagedAttention.KernelLogit` | csrc/cpu/cpu_attn_impl.hpp:932-982 | copying Q and multiplying with K gives the logit of the row's query head and token |
| `PagedAttention.KernelValues` | csrc/cpu/cpu_attn_impl.hpp:1033-1081 | the P.V walk adds exactly the weighted values of the tile |
| `PagedAttention.KernelTile` | csrc/cpu/cpu_attn_impl.hpp:905-1081 | masked logits are the tile of a row's step, and P.V is the sum the step adds |
| `KernelStep.Attend` | csrc/cpu/cpu_attn_impl.hpp:905-1087 | one call takes every row of the inner tile through its step, in place |
| `KernelStep.MaskedLogits` | csrc/cpu/cpu_attn_impl.hpp:922-1017 | QK and the mask leave the masked tile of every row in the buffer |
| `KernelStep.SoftmaxRows` | csrc/cpu/cpu_attn_impl.hpp:1140-1254 | the softmax of all rows: bases, sums, probabilities and rescaled outputs |
| `KernelStep.SoftmaxAndValues` | csrc/cpu/cpu_attn_impl.hpp:1019-1081 | softmax and P.V complete the step of every row |
| `KernelStep.RowsOfModel` | csrc/cpu/cpu_attn_impl.hpp:1636-1681 | the rows of an iteration are the rows of the end-to-end model |
| `PagedAttention.EntryFromTensors` | csrc/cpu/cpu_attn_amx.hpp:412-502 | where slot mapping and block table agree, the cache holds the tensor's rows |
| `PagedAttention.LastWrite` | csrc/cpu/cpu_attn_amx.hpp:412-502 | a slot keeps what the last call that wrote it put there |
| `PagedAttention.SameReference` | csrc/cpu/cpu_attn_impl.hpp:905-1081 | attention over the cache is attention over the tensors |
| `PagedAttention.PagedAttentionIsExact` | csrc/cpu/cpu_attn_impl.hpp:1339-1808 | from any number of reshape_and_cache calls to the output: each slot holds attention over the tensors exactly if its work item loses nothing |
| `Scratchpad.Round64` | csrc/cpu/cpu_attn_impl.hpp:287-289 | the next multiple of 64 |
| `Scratchpad.ReservationSuffices` | csrc/cpu/cpu_attn_impl.hpp:627-651 | the size for a one-iteration Q tile bounds that of every legal (Q tile, KV tile) pair |
| `Scratchpad.MainLoopFits` | csrc/cpu/cpu_attn_impl.hpp:1493-1521 | every Q tile the main loop forms fits the reservation, and its iteration index stays below the flag array |
| `Scratchpad.DefaultTileShape` | csrc/cpu/cpu_attn_impl.hpp:690-712 | the default tile is a multiple of the iteration size, between one and 128 iterations |
| `Scratchpad.DefaultTileIs` | csrc/cpu/cpu_attn_impl.hpp:690-715 | the largest multiple of an iteration's rows, up to 128 iterations, whose Q, output, K, V rows and logits fit the cache, or one iteration |
| `Scratchpad.KvTileIs` | csrc/cpu/cpu_attn_impl.hpp:717-740 | the largest multiple of the alignment whose logits, and for several iterations keys and values, fit what the Q tile leaves of the cache, or one alignment |
| `Scratchpad.KvTileAligned` | csrc/cpu/cpu_attn_impl.hpp:714-740 | the KV tile is positive and aligned, also where the cache is too small and the quotient negative |
| `Scratchpad.ThreadsDisjoint` | csrc/cpu/cpu_attn_impl.hpp:199-233 | buffers of different threads never overlap and stay in the area |
| `Scratchpad.SplitsDisjoint` | csrc/cpu/cpu_attn_impl.hpp:278-328 | different splits use different bytes of a head's reduction area, and stay inside it |
| `Scratchpad.HeadsDisjoint` | csrc/cpu/cpu_attn_impl.hpp:218-233 | the reduction area of every kv head lies after all thread areas and inside the size given to realloc, and different heads have disjoint areas |
| `Scratchpad.PadHolds` | csrc/cpu/cpu_attn_impl.hpp:199-217 | every buffer of a thread holds its contents, and the outputs start exactly where the logits end |
| `LogitsMask.FillRow` | csrc/cpu/cpu_attn_impl.hpp:1109-1134 | exactly the cells of the two fill loops become minus infinity |
| `LogitsMask.ApplyMask` | csrc/cpu/cpu_attn_impl.hpp:1089-1138 | afterwards every cell of every row holds its logit if visible and minus infinity otherwise, and exactly the next cells up to the spill are minus infinity, whatever they belong to |
| `LogitsMask.StaysInLogitsBuffer` | csrc/cpu/cpu_attn_impl.hpp:1126-1128 | the fills stay in the buffer exactly if there is no spill, or the Q tile is not full, or the tile is narrower than the KV tile |
| `LogitsMask.OverrunIsSpill` | csrc/cpu/cpu_attn_impl.hpp:1126-1128 | how many cells after the logits buffer are overwritten: the spill of a full mask of full width, else none |
| `PrimitiveCache.Cache.GetValue` | csrc/cpu/dnnl_helper.cpp:90-102 | a hit returns the stored value and moves it to the front, a miss changes nothing |
| `PrimitiveCache.Cache.AddValue` | csrc/cpu/dnnl_helper.cpp:78-88 | the new value goes to the front, the last one leaves if the cache was full |
| `PrimitiveCache.Cache.GetOrCreate` | csrc/cpu/dnnl_helper.cpp:44-52 | list and map stay linked, and the contents follow the abstract step |
| `PrimitiveCache.HoldsMostRecent` | csrc/cpu/dnnl_helper.cpp:44-102 | after any run the keys are the `capacity` most recently used ones, most recent first |
| `PrimitiveCache.RunRefinesLru` | csrc/cpu/dnnl_helper.cpp:44-102 | a hit returns what the key's last miss created, and a call hits exactly if its key is among the most recent |
| `PrimitiveCache.LastMiss` | csrc/cpu/dnnl_helper.cpp:44-102 | every call returns what the creator made at the last miss of its key |
| `PrimitiveCache.Replay` | csrc/cpu/dnnl_helper.cpp:44-102 | any call sequence on the object returns what the abstract LRU says |
| `PrimitiveCache.ScratchPadManager.Realloc` | csrc/cpu/scratchpad_manager.cpp:9-18 | with the least multiple of 4096 not below the request: up to the size, size and block stay, beyond it the size becomes that multiple with a new block |
| `MatmulPrimitives.NextSufficient` | csrc/cpu/dnnl_helper.cpp:455-493 | one event keeps every cached primitive within the scratchpad, never shrinks it, and executes with enough |
| `MatmulPrimitives.ScratchAlwaysSuffices` | csrc/cpu/dnnl_helper.cpp:273-300 | over any interleaving of handlers and schedules the size never shrinks and covers every executed primitive, whoever created it |
| `MatmulPrimitives.ExecutesLastMade` | csrc/cpu/dnnl_helper.cpp:437-493 | after any history, an execution runs what was made at the last call of its table for its M-size key that the table could not answer |
| `MatmulPrimitives.ExecutesOwnClass` | csrc/cpu/dnnl_helper.cpp:480-493 | it is a primitive for that very key, made by a handler attached to the same table, with the same class key |
| `MatmulPrimitives.SharesIff` | csrc/cpu/dnnl_helper.cpp:425-487 | after any history, two handlers share a table exactly if their class keys agree and no first execution of that class missed the 128-entry class cache after the earlier and up to the later of theirs |
| `MatmulPrimitives.TableMaker` | csrc/cpu/dnnl_helper.cpp:425-487 | a handler's table was made by the handler of the last such miss |
| `MatmulPrimitives.SizeIs` | csrc/cpu/scratchpad_manager.cpp:5-18 | after any history the scratchpad has 524288 bytes or the largest size asked for, by schedules and by executions that make a primitive, rounded up to 4096, whichever is more |
| `FlatLogprobs.GetItemIsView` | vllm/logprobs.py:112-121 | indexing agrees with the list of dicts for every int, IndexError included |
| `FlatLogprobs.AppendedView` | vllm/logprobs.py:65-95 | a new position is one more dict, and leaves the others alone even after gapped slices |
| `FlatLogprobs.AscendingSlice` | vllm/logprobs.py:122-135 | an ascending slice is a valid container of exactly the selected dicts |
| `FlatLogprobs.SliceReadsBack` | vllm/logprobs.py:122-135 | for every slice, when it succeeds and reads back as the selected dicts, exactly |
| `FlatLogprobs.SelectedIff` | vllm/logprobs.py:122-135 | the positions a slice selects: negative bounds count from the end, bounds beyond the list are cut off, every step-th position from the first on |
| `FlatLogprobs.EmptySlice` | vllm/logprobs.py:122-135 | an empty selection raises IndexError |
| `FlatLogprobs.Container.Append` | vllm/logprobs.py:65-74 | one dict (or the empty one) is appended |
| `FlatLogprobs.Container.AppendFast` | vllm/logprobs.py:76-95 | the dict of the zipped arguments is appended |
| `FlatLogprobs.Container.Extend` | vllm/logprobs.py:97-100 | the dicts are appended in order |
| `FlatLogprobs.Container.Iterate` | vllm/logprobs.py:148-154 | iteration yields the dicts in order |
| `FlatLogprobs.OpRefines` | vllm/logprobs.py:65-154 | each operation commutes with the view as a list of dicts |
| `FlatLogprobs.RunRefinesList` | vllm/logprobs.py:65-154 | so does every run of them |
| `FlatLogprobs.AppendForNextPosition` | vllm/logprobs.py:177-208 | the flat path appends the very dict the list path appends, for every num_logprobs, and it is the one described next |
| `FlatLogprobs.NextPositionIs` | vllm/logprobs.py:186-208 | its keys are the tokens of the first places, the sampled one and num_logprobs more, as far as all lists reach (-1: all); each has log probability and text of its last place, and that place as rank, or the vocabulary rank at place 0; without repetitions it has all places in order |
| `FlatLogprobs.RepeatedToken` | vllm/logprobs.py:194-208 | a sampled token repeated among the top-k stays first and gets the entry of its last occurrence |
| `FlatLogprobs.LastWins` | vllm/logprobs.py:112-121 | a repeated token keeps its first place and its last entry |
| `HalfFloat.RoundMagnitude` | csrc/cpu/float_convert.hpp:45-75 | normal, subnormal and carry cases give the nearest half, ties to even |
| `HalfFloat.FloatToHalf` | csrc/cpu/float_convert.hpp:21-78 | nearest half with ties to even for every finite float, overflow and underflow included; sign, infinity and NaN as encoded |
| `HalfFloat.Overflow` | csrc/cpu/float_convert.hpp:36-40 | from the threshold on, infinity is the nearest |
| `HalfFloat.Underflow` | csrc/cpu/float_convert.hpp:41-44 | up to the threshold, zero is |
| `HalfFloat.NormalizeSubnormal` | csrc/cpu/float_convert.hpp:89-98 | the normalising loop ends and keeps the value |
| `HalfFloat.HalfToFloat` | csrc/cpu/float_convert.hpp:80-106 | the float has exactly the value of the half |
| `HalfFloat.NearestUnique` | csrc/cpu/float_convert.hpp:63-73 | the nearest half with ties to even is unique |
| `HalfFloat.LeftInverse` | csrc/cpu/float_convert.hpp:21-106 | float_to_fp16 undoes fp16_to_float on every half that is not a NaN |
| `HalfFloat.Determined` | csrc/cpu/float_convert.hpp:21-78 | the promises about float_to_fp16 leave no choice of result |
| `HalfFloat.WidenDetermined` | csrc/cpu/float_convert.hpp:80-106 | nor do those about fp16_to_float |
| `ScalarTypes.IdRoundTrip` | csrc/core/scalar_type.hpp:122-157 | from_id(id(t)) == t for all fields in range, negative bias included |
| `ScalarTypes.FromIdRoundTrip` | csrc/core/scalar_type.hpp:122-157 | id(from_id(i)) == i for every 58-bit i |
| `ScalarTypes.IdsEqual` | vllm/scalar_type.py:137-164 | two types share an id exactly if their fields agree modulo the field widths |
| `ScalarTypes.ExtractUndoes` | csrc/core/scalar_type.hpp:140-157 | extracting undoes packing for any list of fields |
| `ScalarTypes.OrDisjoint` | vllm/scalar_type.py:146-152 | or of disjoint bits is addition |
| `ScalarTypes.Registry.IdOf` | vllm/scalar_type.py:137-164 | the Python id is the C++ id, and is bound to the type in the map |
| `ScalarTypes.Registry.FromIdOf` | vllm/scalar_type.py:309-312 | an answer for exactly the ids handed out, a type with that very id, and with fields in range the type C++ decodes |
| `ScalarTypes.NeverRebound` | vllm/scalar_type.py:161-164 | with fields in range the map never rebinds an id to another type, and agrees with from_id in C++ |
| `ScalarTypes.Rebinding` | vllm/scalar_type.py:161-164 | two different types with one id, out of range |
| `ScalarTypes.LargestNormal` | vllm/scalar_type.py:71-101 | for a foreseen type the assembled double is the largest finite value |
| `ScalarTypes.FiniteOnlyIeee` | vllm/scalar_type.py:71-101 | an IEEE 754 type without infinities has a larger finite value |
| `ScalarTypes.TakesInfinity` | vllm/scalar_type.py:71-101 | for another type with infinities the assembled double is the infinity's |
| `ScalarTypes.Unforeseen` | vllm/scalar_type.py:71-101 | two concrete types for which the result is not the largest finite value |
| `ScalarTypes.OneBitExponent` | vllm/scalar_type.py:71-101 | with infinities and one exponent bit under IEEE 754 it is not even a value of the type |
| `ScalarTypes.FloatingPointMaxInt` | vllm/scalar_type.py:71-101 | fails exactly for more than 52 mantissa bits or 11 exponent bits, 10 if the type is not IEEE 754, and otherwise is right exactly for the foreseen types |
| `ScalarTypes.OrNegative` | vllm/scalar_type.py:75-101 | a mantissa of -1 makes the assembled integer negative, and no double |

## Left out

- Floating-point rounding in attention, `fast_exp`, softcap and alibi: logits and values are reals; a lost element stays minus infinity under rescaling.
- Weak memory: steps of the parallel region are sequentially consistent, and each loop iteration has its own OS thread.
- 32-bit overflow of positions, lengths and offsets; sizes are unbounded integers.
- EndToEnd.AttentionIsExact: asks that an iteration has at most as many tokens as the alignment and the head dimension have elements; `EndToEnd.KernelModel` proves it for the VEC, VEC16 and bfloat16 AMX kernels, and AMX has no other.
- Non-causal attention, which the entry point refuses, and windows other than the normalised ones of csrc/cpu/cpu_attn.cpp:87-105.
- QTileWalk.AttendRange: follows one row through both loops, with the masks of all rows; the other rows' own sums are left to their own walks.
- KernelStep.Attend: has the logits and outputs as separate arrays, so what a mask writes past the logits is left to QTileWalk; the probabilities are a buffer of their own. PagedAttention.PagedAttentionIsExact uses its rows through the logit and value functions and TileStep, not by calling it.
- PagedCache.ValidShape: block sizes are multiples of 32, so the caches of the VEC16 kernel with blocks of 16 are left out.
- TileGemm.Gemm: C is a two-dimensional array of row length ldc; the default state of the vector registers is zero, as on x86.
- PagedCache.ReshapeAndCache: runs the parallel loop in order; tokens with the same slot would race in the source, so `PagedCache.OwnerUnique` asks for distinct slots. Input strides of key and value are not modelled.
- QueryPack.CopyQ: the strides of the query tensor are not modelled, and a 64-byte vector copy is 32 element copies.
- The VEC16 kernel's gemm, tile configuration registers, prefetching and 16-wide loads of sinks and split statistics.
- PrimitiveCache.ScratchPadManager.Realloc: alignment of the block and failure of the allocation.
- oneDNN primitives and int8 kernels: a primitive is the handler and M-size key it was made for and its scratchpad requirement; class keys and M-size keys are numbers.
- FlatLogprobs.SliceReadsBack: slices are modelled on values.
- ScalarTypes.Registry.IdOf: the per-object caching of the id, which only repeats the same binding.
- ScalarTypes.FloatingPointMaxInt: min, max with bias, and the flag queries are left out.
- bfloat16 conversion, which drops 16 bits, and NaN payloads.
- The tournament scheduler and trace tree (vllm/v1/engine/core.py).
- Request scheduling, sampling, tensor plumbing, operator registration, build and configuration code.
