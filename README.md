# Constraint line extraction and SIMD lane primitives

This project models two pieces of the bepuphysics2 physics engine and its demo renderer in Dafny, with proofs about the model.

- **Lane primitives** (`BepuPhysics/GatherScatter.cs`). The solver stores its data as "bundles": runs of SIMD vectors `W` lanes wide, where one constraint or body occupies one lane of every vector of the bundle. The primitives are:
  - `CopyLane` copies one lane of a record into a lane of another record.
  - `SwapLanes` exchanges two lanes.
  - The two `ClearLane` overloads reset a lane.
  - `GetLane` and `SetLane` move a lane to and from a flat array.
  - The two `GatherSlot` overloads write a scalar quaternion or 3-vector into lane 0 of a wide one.
  - The reference helpers `Get`, `GetFirst` and `GetOffsetInstance`.
- **The renderer's constraint line extractor** (`DemoRenderer/Constraints/ConstraintLineExtractor.cs`).
  - A table of per-type extractors grows on demand (`AllocateSlot`).
  - `AddInstances` creates one job per shown type batch of the solver and estimates the line capacity. It bounds the job size, splits oversized jobs into sub-jobs, runs every job (`ExecuteJob`) and gathers the lines into the caller's list.
  - A job reserves room in the shared list and then copies its private lines there.
  - `TypeLineExtractor.ExtractLines` visits the live constraint slots of a range in ascending order. It skips slots whose handle is negative. For each live slot it reads the body references from the constraint's lane and masks them, and in an inactive set it resolves them through the handle table. It then hands the constraint's prestep lane to the type's extractor.

The model is split into these modules:

- `GatherScatter` (`gather_scatter.dfy`). The vector width `W` is a constant with no fixed value, of at least 4 lanes, so every proof holds for every width. A record is an `array` of 4-byte slots. Slot `p` is lane `p % W` of bundle `p / W`, and a reference into a record is the slot position it designates. Each primitive is a method over arrays. It is proved against a specification function on sequences:
  - `WithLane`: lane copied;
  - `Scatter` / `Gather`: lane written or read;
  - `Cleared`: lane reset;
  - `StridedCopy`: the plain strided loop that the unrolled copy implements.

  Round trips are lemmas about these functions.
- `LineExtraction` (`line_extraction.dfy`). The type batch, the bodies, the extractor and the body-reference mask are datatypes and functions. `ExtractedLines` is a recursive reference definition of the lines a slot range yields. `ExtractLines` is the loop proved equal to it.
- `JobPlanning` (`job_planning.dfy`). This module holds the planner's pure logic:
  - which sites (type batches) get a job, in walk order;
  - the jobs and their line offsets;
  - `MaximumJobSize`;
  - the banker's-rounded sub-job count;
  - `Split`;
  - the line budget of a job list;
  - the lines a job outputs.
- `ConstraintLineExtraction` (`constraint_line_extractor.dfy`). The `ConstraintLineExtractor` class has the extractor table and the job list as fields. Its methods follow `AddInstances` phase by phase: plan, split, run, copy.
- `Arith` (`arith.dfy`). Multiplication and division facts for the symbolic width.

One might expect the sub-job count to be `ceil(count / maximumJobSize)`. The code computes `Math.Round(0.5 + count / (double)maximumJobSize)`, and .NET's `Math.Round` rounds halves to even. The two differ when `count / maximumJobSize` is an odd integer: the code then makes one more sub-job. The model follows the code. See `JobPlanning.SubjobCountValue` and `JobPlanning.SubjobCountWithUnitSize`: with a maximum size of 1, an odd count yields one empty sub-job. Every property below still holds: the parts tile the job, their sizes differ by at most one and none exceeds the maximum.

## Model

| member | source | states |
|---|---|---|
| GatherScatter.SlotIsProduct | BepuPhysics/GatherScatter.cs:139 | slot `k` of lane `l` (the `i += Vector<int>.Count` stride) sits at `k * W + l` |
| GatherScatter.SlotDecompose | BepuPhysics/GatherScatter.cs:137-144 | the slot at bundle `b`, lane `l` belongs to bundle `b` and lane `l` (`/ W`, `% W`) |
| GatherScatter.BundleCountBounds | BepuPhysics/GatherScatter.cs:48 | the whole bundles of a record fill it to within less than one bundle |
| GatherScatter.WholeBundlesFit | BepuPhysics/GatherScatter.cs:139-144 | every lane of every whole bundle lies inside the record |
| GatherScatter.GetInBundle | BepuPhysics/GatherScatter.cs:22-25 | `Get(vector, index)` for a lane index below `W` stays inside that vector and is lane `index` of it |
| GatherScatter.OffsetInstanceReadsLane | BepuPhysics/GatherScatter.cs:246-261 | the first slot of vector `k` of the reference shifted by `GetOffsetInstance` is lane `innerIndex` of bundle `k` of the container |
| GatherScatter.SizeInInts | BepuPhysics/GatherScatter.cs:48 | `(size >> 2) & ~VectorMask` is a multiple of `W` within one bundle below the record's slot count |
| GatherScatter.CopiedBundles | BepuPhysics/GatherScatter.cs:48-90 | the copy touches at least one bundle (the first statement is unconditional) and every whole bundle; every lane below the length fits in that many |
| GatherScatter.StridedCopy | BepuPhysics/GatherScatter.cs:56-58 | the plain strided copy loop keeps the target's length |
| GatherScatter.WithLane | BepuPhysics/GatherScatter.cs:45-146 | replacing a lane over `n` bundles keeps the record's length |
| GatherScatter.CopyAt | BepuPhysics/GatherScatter.cs:89 | one copy statement advances the strided copy by one bundle toward the same final record |
| GatherScatter.CopyFour | BepuPhysics/GatherScatter.cs:75-81 | the block of four statements advances the offset by `4W` toward the same final record |
| GatherScatter.CopyTwo | BepuPhysics/GatherScatter.cs:82-86 | the block of two statements advances the offset by `2W` toward the same final record |
| GatherScatter.CopyLane | BepuPhysics/GatherScatter.cs:45-91 | the unrolled 8/4/2/1 copy equals the plain strided loop over `sizeInInts`, and the result is the target with its lane replaced by the source lane in every copied bundle, all other slots unchanged |
| GatherScatter.CopyLaneIsWithLane | BepuPhysics/GatherScatter.cs:53-58 | the first-slot copy followed by the strided loop from `W` is exactly the lane replacement `WithLane` |
| GatherScatter.StridedCopyCompletesLane | BepuPhysics/GatherScatter.cs:56-58 | continuing the strided copy from bundle `k` completes the lane replacement up to the last bundle below the limit |
| GatherScatter.WithLaneStep | BepuPhysics/GatherScatter.cs:139-145 | replacing one more bundle's lane is a single slot update at that bundle's lane |
| GatherScatter.WithLaneAhead | BepuPhysics/GatherScatter.cs:139-145 | slots of bundles not yet reached keep their old values |
| GatherScatter.SwapSlots | BepuPhysics/GatherScatter.cs:141-144 | the two slots trade values, nothing else changes |
| GatherScatter.SwapLanes | BepuPhysics/GatherScatter.cs:131-146 | after the loop, lane `innerIndexA` of A holds B's old lane `innerIndexB` in every bundle and vice versa; all other slots are unchanged |
| GatherScatter.SwapStep | BepuPhysics/GatherScatter.cs:141-144 | one iteration of the swap extends both lane replacements by one bundle |
| GatherScatter.SwapTwiceRestores | BepuPhysics/GatherScatter.cs:131-146 | swapping the same two lanes twice restores both records |
| GatherScatter.SwapLanesAssertAdmitsOverrun | BepuPhysics/GatherScatter.cs:133-139 | the debug assertion as written accepts a record whose slot count is not a whole number of bundles, and the loop then reaches past its end |
| GatherScatter.SwapLanesStaysInRecord | BepuPhysics/GatherScatter.cs:136-144 | when the slot count is a whole number of bundles, every slot the loop touches lies in the record |
| GatherScatter.Scatter | BepuPhysics/GatherScatter.cs:226-236 | writing a lane keeps the record's length |
| GatherScatter.ScatterStep | BepuPhysics/GatherScatter.cs:231-235 | writing one more value of the lane is a single slot update |
| GatherScatter.Gather | BepuPhysics/GatherScatter.cs:204-214 | reading `n` values of a lane yields `n` values |
| GatherScatter.GatherOfScatter | BepuPhysics/GatherScatter.cs:204-236 | reading back a lane just written returns the values written |
| GatherScatter.ScatterOfGather | BepuPhysics/GatherScatter.cs:204-236 | writing back a lane just read leaves the record unchanged |
| GatherScatter.ScatterKeepsOtherLanes | BepuPhysics/GatherScatter.cs:226-236 | writing one lane leaves every other lane's values unchanged |
| GatherScatter.Touched | BepuPhysics/GatherScatter.cs:206-209 | the count of touched values is at least one (the first is copied unconditionally) and at least `valueCount` |
| GatherScatter.GetLane | BepuPhysics/GatherScatter.cs:204-214 | the first `max(1, valueCount)` values become the lane's values in bundle order; the rest of the array is unchanged |
| GatherScatter.SetLane | BepuPhysics/GatherScatter.cs:226-236 | the lane's first `max(1, valueCount)` bundles take the array's values; every other slot is unchanged |
| GatherScatter.SetLaneThenGetLane | BepuPhysics/GatherScatter.cs:204-236 | `SetLane` then `GetLane` reproduces the values, and `GetLane` then `SetLane` leaves the record unchanged |
| GatherScatter.Cleared | BepuPhysics/GatherScatter.cs:160-191 | resetting a lane keeps the record's length |
| GatherScatter.ClearStrided | BepuPhysics/GatherScatter.cs:165-169 | the strided loop below `sizeInElements` resets the lane in exactly the bundles whose start lies below the bound |
| GatherScatter.StridesOfWhole | BepuPhysics/GatherScatter.cs:166 | a bound at the start of bundle `n` gives exactly `n` iterations |
| GatherScatter.StridesAtMost | BepuPhysics/GatherScatter.cs:166 | a bound at or below the start of bundle `m` gives at most `m` iterations |
| GatherScatter.ClearLaneAsWritten | BepuPhysics/GatherScatter.cs:160-170 | with the size computed as written (4-byte elements), the lane is reset only in the first `Strides(bundles * 4)` bundles |
| GatherScatter.ClearLaneAsWrittenWithFourLanes | BepuPhysics/GatherScatter.cs:164 | with four lanes the size as written covers every whole bundle |
| GatherScatter.ClearLaneAsWrittenMissesBundles | BepuPhysics/GatherScatter.cs:164-169 | with eight or more lanes and two or more bundles, the last bundle's lane keeps its old value |
| GatherScatter.ClearLane | BepuPhysics/GatherScatter.cs:160-170 | the lane is reset in every whole bundle and every other slot is unchanged |
| GatherScatter.ClearLaneCount | BepuPhysics/GatherScatter.cs:184-191 | the lane is reset in the first `count` bundles and every other slot is unchanged |
| GatherScatter.ClearedLane | BepuPhysics/GatherScatter.cs:160-191 | after a reset the lane reads back as all default values while every other lane reads back unchanged |
| GatherScatter.GatherSlotQuaternion | BepuPhysics/GatherScatter.cs:99-105 | x, y, z, w go to lane 0 of the four component vectors; nothing else changes |
| GatherScatter.GatherSlotVector3 | BepuPhysics/GatherScatter.cs:113-118 | x, y, z go to lane 0 of the three component vectors; nothing else changes |
| GatherScatter.GatherSlotQuaternionReadsBack | BepuPhysics/GatherScatter.cs:99-105 | lane 0 of the wide quaternion reads back as the scalar quaternion; every other lane is unchanged |
| GatherScatter.GatherSlotVector3ReadsBack | BepuPhysics/GatherScatter.cs:113-118 | lane 0 of the wide vector reads back as the scalar vector; every other lane is unchanged |
| LineExtraction.Masked | DemoRenderer/Constraints/ConstraintLineExtractor.cs:62 | a reference masked with `BodyReferenceMask` lies below `2^ReferenceBits` |
| LineExtraction.BundleIndices | DemoRenderer/Constraints/ConstraintLineExtractor.cs:55 | `GetBundleIndices(i)` gives an inner index below `W` and the bundle/lane pair that recomposes `i` |
| LineExtraction.BundleOfSlot | DemoRenderer/Constraints/ConstraintLineExtractor.cs:55-57 | every slot of a well-formed type batch has its bundle in both the prestep and body-reference buffers |
| LineExtraction.BodyIndex | DemoRenderer/Constraints/ConstraintLineExtractor.cs:62-84 | a body index, active or resolved through the handle table, is masked below `2^ReferenceBits` |
| LineExtraction.BodyIndices | DemoRenderer/Constraints/ConstraintLineExtractor.cs:59-85 | one body index per referenced body |
| LineExtraction.BodyIndicesFromLane | DemoRenderer/Constraints/ConstraintLineExtractor.cs:59-63 | body index `j` comes from lane `innerIndex` of the `j`-th reference vector, masked |
| LineExtraction.PrestepView | DemoRenderer/Constraints/ConstraintLineExtractor.cs:64 | the view from the constraint's lane is the prestep record shifted by `innerIndex` slots |
| LineExtraction.PrestepViewReadsLane | DemoRenderer/Constraints/ConstraintLineExtractor.cs:64 | the first slot of vector `k` of the prestep shifted by `GetOffsetInstance` is the constraint's lane of that vector |
| LineExtraction.ConstraintLinesAt | DemoRenderer/Constraints/ConstraintLineExtractor.cs:55-64 | a live slot's lines are the extractor applied to its prestep lane, the set index and its masked body indices |
| LineExtraction.ExtractedLinesSplit | DemoRenderer/Constraints/ConstraintLineExtractor.cs:51-66 | the lines of `[start, end)` are the lines of `[start, mid)` followed by those of `[mid, end)` |
| LineExtraction.SlotLinesBound | DemoRenderer/Constraints/ConstraintLineExtractor.cs:53-65 | a single slot yields at most `LinesPerConstraint` lines |
| LineExtraction.ExtractedLinesGrow | DemoRenderer/Constraints/ConstraintLineExtractor.cs:51-66 | one more slot adds at most `LinesPerConstraint` lines |
| LineExtraction.ExtractedLinesBound | DemoRenderer/Constraints/ConstraintLineExtractor.cs:217-218 | a range of `n` slots yields at most `LinesPerConstraint * n` lines, so the planner's estimate is conservative |
| LineExtraction.ExtendByLiveSlot | DemoRenderer/Constraints/ConstraintLineExtractor.cs:53-64 | appending a live slot's lines extends the range's lines by that slot |
| LineExtraction.LoadActiveBodyIndices | DemoRenderer/Constraints/ConstraintLineExtractor.cs:59-63 | the buffer holds each referenced body's masked index |
| LineExtraction.LoadInactiveBodyIndices | DemoRenderer/Constraints/ConstraintLineExtractor.cs:79-85 | the buffer holds each referenced handle resolved to its masked body index |
| LineExtraction.ExtractLines | DemoRenderer/Constraints/ConstraintLineExtractor.cs:35-90 | the lines appended are those of every live slot of the range, in ascending order, for both the active and the inactive branch |
| JobPlanning.TypeBatchSitesMembers | DemoRenderer/Constraints/ConstraintLineExtractor.cs:198-219 | a type batch of a batch gets a job if and only if its type has an extractor and its kind is shown (`TypeId >= Length` and null entries are skipped) |
| JobPlanning.BatchSitesMembers | DemoRenderer/Constraints/ConstraintLineExtractor.cs:195-221 | the sites of a set are exactly its shown type batches, batch by batch |
| JobPlanning.SetSitesMembers | DemoRenderer/Constraints/ConstraintLineExtractor.cs:190-223 | the sites of the first `n` sets are exactly the shown type batches of allocated sets below `n` |
| JobPlanning.PlannedSitesAreSelected | DemoRenderer/Constraints/ConstraintLineExtractor.cs:190-223 | a type batch gets a job if and only if it lies in an allocated set and is shown |
| JobPlanning.TypeBatchSitesPlace | DemoRenderer/Constraints/ConstraintLineExtractor.cs:198-216 | a site from the inner loop names that set and batch and a type batch below the bound |
| JobPlanning.BatchSitesPlace | DemoRenderer/Constraints/ConstraintLineExtractor.cs:195-221 | a site from the batch loop names that set and a batch below the bound |
| JobPlanning.SetSitesPlace | DemoRenderer/Constraints/ConstraintLineExtractor.cs:190-223 | a site from the set loop names a set below the bound |
| JobPlanning.AscendingJoin | DemoRenderer/Constraints/ConstraintLineExtractor.cs:190-223 | joining two walk-ordered runs, the first wholly before the second, stays in walk order |
| JobPlanning.TypeBatchSitesAscending | DemoRenderer/Constraints/ConstraintLineExtractor.cs:198-216 | the inner loop's jobs are in ascending type-batch order |
| JobPlanning.BatchSitesAscending | DemoRenderer/Constraints/ConstraintLineExtractor.cs:195-221 | a set's jobs are in ascending (batch, type batch) order |
| JobPlanning.SetSitesAscending | DemoRenderer/Constraints/ConstraintLineExtractor.cs:190-223 | the jobs of the first `n` sets are in ascending (set, batch, type batch) order |
| JobPlanning.PlannedSitesAscending | DemoRenderer/Constraints/ConstraintLineExtractor.cs:190-223 | the planned jobs follow walk order and no type batch gets two jobs |
| JobPlanning.JobsFor | DemoRenderer/Constraints/ConstraintLineExtractor.cs:207-218 | one job per site |
| JobPlanning.JobsForAt | DemoRenderer/Constraints/ConstraintLineExtractor.cs:207-218 | job `k` is site `k`'s job, its lines starting at the initial count plus the estimates of the sites before it |
| JobPlanning.JobsForSnoc | DemoRenderer/Constraints/ConstraintLineExtractor.cs:207-218 | one more site appends its job and grows the estimate by `LinesPerConstraint * ConstraintCount` |
| JobPlanning.MaximumJobSize | DemoRenderer/Constraints/ConstraintLineExtractor.cs:224 | the size is clamped to `[1, 32]` and equals `needed / (4 * processors)` when that is already in range |
| JobPlanning.RoundHalfToEvenIsNearest | DemoRenderer/Constraints/ConstraintLineExtractor.cs:232 | `Math.Round` picks a nearest integer and, on a tie, the even one |
| JobPlanning.SubjobCountValue | DemoRenderer/Constraints/ConstraintLineExtractor.cs:232 | `Round(0.5 + c/m)` is `c/m + 1` unless `m` divides `c`, then `c/m` when that is even and `c/m + 1` when it is odd |
| JobPlanning.SubjobCountBounds | DemoRenderer/Constraints/ConstraintLineExtractor.cs:230-232 | an oversized job gets at least two sub-jobs, enough that `subjobCount * m >= c`, and at most `c/m + 1` |
| JobPlanning.SubjobCountWithUnitSize | DemoRenderer/Constraints/ConstraintLineExtractor.cs:232-248 | with a maximum size of 1 an odd count gets `count + 1` sub-jobs, the last one empty |
| JobPlanning.SubjobOffsetValue | DemoRenderer/Constraints/ConstraintLineExtractor.cs:233-248 | sub-job `j` starts `j * per + min(j, remainder)` constraints into the job |
| JobPlanning.SubjobSizesTotal | DemoRenderer/Constraints/ConstraintLineExtractor.cs:233-248 | the sub-job sizes add up to the parent's constraint count |
| JobPlanning.SubjobPartition | DemoRenderer/Constraints/ConstraintLineExtractor.cs:233-248 | the sub-jobs tile the count, their sizes differ by at most one and every offset stays within the count |
| JobPlanning.SubjobSizeBound | DemoRenderer/Constraints/ConstraintLineExtractor.cs:230-248 | no sub-job of an oversized job exceeds the maximum job size |
| JobPlanning.Split | DemoRenderer/Constraints/ConstraintLineExtractor.cs:227-253 | a job splits into at least one part |
| JobPlanning.SubJobNext | DemoRenderer/Constraints/ConstraintLineExtractor.cs:243-246 | each sub-job starts its constraints and its lines where the previous one ends |
| JobPlanning.SplitContiguous | DemoRenderer/Constraints/ConstraintLineExtractor.cs:227-253 | the parts start where the job starts, each starts where the previous ends, and the last ends where the job ends, in constraints and in lines |
| JobPlanning.SplitLinked | DemoRenderer/Constraints/ConstraintLineExtractor.cs:240-251 | each part after the first starts, in constraints and lines, where the previous part ends |
| JobPlanning.SplitEnds | DemoRenderer/Constraints/ConstraintLineExtractor.cs:227-253 | the first part starts and the last part ends where the job does |
| JobPlanning.SplitBalanced | DemoRenderer/Constraints/ConstraintLineExtractor.cs:227-253 | a job within the maximum is kept whole; parts share the job's target, differ in size by at most one and, for an oversized job, none exceeds the maximum |
| JobPlanning.SplitWithin | DemoRenderer/Constraints/ConstraintLineExtractor.cs:227-253 | every part lies on the job's type batch, inside its constraint range |
| JobPlanning.FirstParts | DemoRenderer/Constraints/ConstraintLineExtractor.cs:236-238 | the in-place rewrite keeps one job per original job |
| JobPlanning.FirstPartsAt | DemoRenderer/Constraints/ConstraintLineExtractor.cs:229-238 | job `i` is replaced in place by its first part |
| JobPlanning.TailsMembers | DemoRenderer/Constraints/ConstraintLineExtractor.cs:241-251 | every appended job is a part of some original job |
| JobPlanning.SplitJobsKeepPlaces | DemoRenderer/Constraints/ConstraintLineExtractor.cs:225-253 | the first `originalJobCount` entries are the first parts (unchanged when small enough) and appended parts follow |
| JobPlanning.SplitJobsWithin | DemoRenderer/Constraints/ConstraintLineExtractor.cs:225-253 | every job after splitting lies within some original job |
| JobPlanning.JobBudgetAppend | DemoRenderer/Constraints/ConstraintLineExtractor.cs:218 | the estimate of two job lists joined is the sum of their estimates |
| JobPlanning.JobBudgetOfChain | DemoRenderer/Constraints/ConstraintLineExtractor.cs:244 | for parts linked by line offsets, the first start plus the estimate is the last part's line end |
| JobPlanning.SplitBudget | DemoRenderer/Constraints/ConstraintLineExtractor.cs:227-253 | splitting a job keeps its line estimate |
| JobPlanning.FirstPartsTailsBudget | DemoRenderer/Constraints/ConstraintLineExtractor.cs:227-253 | first parts plus appended parts carry the original estimate |
| JobPlanning.SplitJobsBudget | DemoRenderer/Constraints/ConstraintLineExtractor.cs:225-254 | splitting the job list keeps the capacity estimate that `EnsureCapacity` reserves |
| JobPlanning.JobsForBudget | DemoRenderer/Constraints/ConstraintLineExtractor.cs:207-218 | the planned jobs' estimate equals the summed site estimates |
| JobPlanning.WithinExecutable | DemoRenderer/Constraints/ConstraintLineExtractor.cs:176-179 | a part of a runnable job is runnable on the same type batch with the same extractor |
| JobPlanning.PlannedJobsExecutable | DemoRenderer/Constraints/ConstraintLineExtractor.cs:176-179 | every planned job names an existing type batch with a registered extractor (the debug assertion at line 178 holds) |
| JobPlanning.SplitJobsExecutable | DemoRenderer/Constraints/ConstraintLineExtractor.cs:176-179 | every job after splitting is still runnable |
| JobPlanning.JobOutputBound | DemoRenderer/Constraints/ConstraintLineExtractor.cs:179 | a job yields at most its estimate of lines |
| JobPlanning.PartOutput | DemoRenderer/Constraints/ConstraintLineExtractor.cs:179 | a part's lines are the parent type batch's lines over the part's range |
| JobPlanning.OutputsOfChain | DemoRenderer/Constraints/ConstraintLineExtractor.cs:240-251 | the lines of a chain of adjacent parts are the lines of the range they span |
| JobPlanning.ChainOutputs | DemoRenderer/Constraints/ConstraintLineExtractor.cs:240-251 | a chain ending at the job's end yields exactly the job's lines |
| JobPlanning.SplitChain | DemoRenderer/Constraints/ConstraintLineExtractor.cs:227-253 | the parts of a runnable job form a runnable chain that ends at the job's end |
| JobPlanning.SplitOutputs | DemoRenderer/Constraints/ConstraintLineExtractor.cs:227-253 | running the parts in order yields exactly the lines of the unsplit job |
| JobPlanning.OutputsBound | DemoRenderer/Constraints/ConstraintLineExtractor.cs:217-218 | a run of jobs yields no more lines than its summed estimate |
| JobPlanning.OutputsNext | DemoRenderer/Constraints/ConstraintLineExtractor.cs:264 | running one more job appends its lines |
| JobPlanning.OutputsPrefixBound | DemoRenderer/Constraints/ConstraintLineExtractor.cs:254-264 | any prefix of the jobs yields no more lines than the whole list's estimate |
| JobPlanning.SplitJobsNoLines | DemoRenderer/Constraints/ConstraintLineExtractor.cs:256-261 | splitting keeps every job's line list empty |
| JobPlanning.PlannedJobsExecutableAll | DemoRenderer/Constraints/ConstraintLineExtractor.cs:224-261 | every job that `AddInstances` runs is runnable and starts with an empty line list |
| JobPlanning.PlannedJobsBudget | DemoRenderer/Constraints/ConstraintLineExtractor.cs:218-254 | the final jobs' estimate equals the capacity estimate accumulated in planning |
| JobPlanning.OutputsAppend | DemoRenderer/Constraints/ConstraintLineExtractor.cs:264 | running two runs of jobs one after the other yields the first run's lines followed by the second's |
| JobPlanning.OutputsFirstRest | DemoRenderer/Constraints/ConstraintLineExtractor.cs:264 | a nonempty run yields its first job's lines followed by the rest's |
| JobPlanning.SplitOutputsFirstRest | DemoRenderer/Constraints/ConstraintLineExtractor.cs:232-251 | the first part, which stays in the job's place, followed by the appended parts yields exactly the unsplit job's lines |
| JobPlanning.FirstPartsTailsStep | DemoRenderer/Constraints/ConstraintLineExtractor.cs:225-253 | splitting one more job adds its first part's lines to the in-place parts and its other parts' lines to the appended parts |
| JobPlanning.FirstPartsTailsOutputs | DemoRenderer/Constraints/ConstraintLineExtractor.cs:225-253 | the in-place first parts and the appended parts are runnable and together yield the original jobs' lines, up to order |
| JobPlanning.SplitJobsOutputs | DemoRenderer/Constraints/ConstraintLineExtractor.cs:225-253 | the split job list is runnable and yields the same lines as the unsplit list, up to order |
| JobPlanning.PlannedJobOutput | DemoRenderer/Constraints/ConstraintLineExtractor.cs:188-214 | each unsplit planned job is runnable and extracts its type batch's whole constraint range through the registered extractor |
| JobPlanning.PlannedOutputPermutes | DemoRenderer/Constraints/ConstraintLineExtractor.cs:188-264 | the lines of a whole `AddInstances` run are, up to order, the lines of the unsplit planned jobs, one per shown type batch in walk order |
| ConstraintLineExtraction.AllocatedSlot | DemoRenderer/Constraints/ConstraintLineExtractor.cs:116-121 | the table grows to `typeId + 1` entries only when too short, keeps its entries and adds empty ones |
| ConstraintLineExtraction.RegisteredCovers | DemoRenderer/Constraints/ConstraintLineExtractor.cs:125-164 | the table keeps at least 32 entries and covers every registered type id |
| ConstraintLineExtraction.RegisteredLast | DemoRenderer/Constraints/ConstraintLineExtractor.cs:126-160 | the last registration of a type id is the one in the table |
| ConstraintLineExtraction.RegisteredUnset | DemoRenderer/Constraints/ConstraintLineExtractor.cs:125-160 | an id never registered stays empty |
| ConstraintLineExtraction.RegisteredEntries | DemoRenderer/Constraints/ConstraintLineExtractor.cs:122-169 | the constructor's table: at least 32 entries, each id holding its last registration, every other entry empty |
| ConstraintLineExtraction.ConstraintLineExtractor.constructor | DemoRenderer/Constraints/ConstraintLineExtractor.cs:122-169 | the table is the registrations applied to 32 empty entries through `AllocateSlot`; no jobs |
| ConstraintLineExtraction.ConstraintLineExtractor.AllocateSlot | DemoRenderer/Constraints/ConstraintLineExtractor.cs:116-121 | the table becomes `Allocated(table, typeId)`; the jobs are unchanged |
| ConstraintLineExtraction.EnsureCapacity | DemoRenderer/Constraints/ConstraintLineExtractor.cs:254 | the buffer holds at least the requested capacity and keeps its first `count` lines |
| ConstraintLineExtraction.CopyTo | DemoRenderer/Constraints/ConstraintLineExtractor.cs:182 | the lines land at `targetStart` and nothing else in the buffer changes |
| ConstraintLineExtraction.ExtractJobLines | DemoRenderer/Constraints/ConstraintLineExtractor.cs:177-179 | the job's list gets the lines of its type batch over its range |
| ConstraintLineExtraction.ConstraintLineExtractor.ExecuteJob | DemoRenderer/Constraints/ConstraintLineExtractor.cs:174-183 | only job `jobIndex` changes, gaining its lines; the shared count grows by their number and they are copied into the reserved range; the rest of the buffer is unchanged |
| ConstraintLineExtraction.ConstraintLineExtractor.PlanTypeBatch | DemoRenderer/Constraints/ConstraintLineExtractor.cs:200-219 | one type batch appends its job when shown and grows the estimate by its lines |
| ConstraintLineExtraction.ConstraintLineExtractor.PlanTypeBatches | DemoRenderer/Constraints/ConstraintLineExtractor.cs:198-220 | a batch's type batches append their jobs in order, the estimate growing with each |
| ConstraintLineExtraction.ConstraintLineExtractor.PlanBatches | DemoRenderer/Constraints/ConstraintLineExtractor.cs:195-221 | a set's batches append their jobs in order, the estimate growing with each |
| ConstraintLineExtraction.ConstraintLineExtractor.PlanJobs | DemoRenderer/Constraints/ConstraintLineExtractor.cs:188-223 | the jobs are one per planned site, in walk order, and the estimate is the line count plus the site estimates |
| ConstraintLineExtraction.ConstraintLineExtractor.AppendSubjobs | DemoRenderer/Constraints/ConstraintLineExtractor.cs:240-251 | the loop appends exactly the sub-jobs after the first |
| ConstraintLineExtraction.NextSubjob | DemoRenderer/Constraints/ConstraintLineExtractor.cs:243-248 | the loop's next sub-job is the previous one moved past it, with `per` or `per + 1` constraints as `remainder > j` |
| ConstraintLineExtraction.FirstSubjob | DemoRenderer/Constraints/ConstraintLineExtractor.cs:232-238 | the in-place first sub-job keeps the job but takes `per` constraints, plus one when `remainder > 0` |
| ConstraintLineExtraction.SmallJobStays | DemoRenderer/Constraints/ConstraintLineExtractor.cs:230 | a job within the maximum is not split |
| ConstraintLineExtraction.ConstraintLineExtractor.SplitJob | DemoRenderer/Constraints/ConstraintLineExtractor.cs:229-252 | job `i` is replaced by its first part and the other parts are appended |
| ConstraintLineExtraction.ConstraintLineExtractor.SplitNext | DemoRenderer/Constraints/ConstraintLineExtractor.cs:227-253 | one more original job is split: the list stays the first parts of the jobs seen so far followed by all their appended parts |
| ConstraintLineExtraction.ConstraintLineExtractor.SplitOversizedJobs | DemoRenderer/Constraints/ConstraintLineExtractor.cs:225-253 | the job list becomes `SplitJobs(old jobs, maximumJobSize)` |
| ConstraintLineExtraction.ConstraintLineExtractor.ClearJobLines | DemoRenderer/Constraints/ConstraintLineExtractor.cs:256-261 | every job gets a fresh empty line list and is otherwise unchanged |
| ConstraintLineExtraction.ConstraintLineExtractor.RunNext | DemoRenderer/Constraints/ConstraintLineExtractor.cs:174-183 | running one more job keeps the invariant that the jobs run so far hold their lines and the buffer holds them in order within the estimate |
| ConstraintLineExtraction.ConstraintLineExtractor.ExecuteJobs | DemoRenderer/Constraints/ConstraintLineExtractor.cs:264 | each job holds its own lines; the buffer gains all jobs' lines in job order after the original lines and stays within capacity |
| ConstraintLineExtraction.ConstraintLineExtractor.Plan | DemoRenderer/Constraints/ConstraintLineExtractor.cs:188-253 | the jobs become the planned and split jobs; the returned capacity is the line count plus the estimate |
| ConstraintLineExtraction.ConstraintLineExtractor.RunJobs | DemoRenderer/Constraints/ConstraintLineExtractor.cs:256-272 | the buffer gains all jobs' lines in order, within the estimate; the job list is as before |
| ConstraintLineExtraction.ConstraintLineExtractor.AddInstances | DemoRenderer/Constraints/ConstraintLineExtractor.cs:186-273 | the lines list keeps its original lines and gains the lines of the planned and split jobs in job order, whose number stays within the reserved estimate; by `JobPlanning.PlannedOutputPermutes` these are, up to order, the lines of every shown type batch's whole constraint range |

## Left out

- Floating point: prestep data and line geometry are opaque 4-byte words, and the tint colour passed to the extractors is not modelled.
- GatherScatter.CopyLane and the other lane primitives: every record slot is 4 bytes. `TVector`s of other widths are not modelled.
- GatherScatter.CopyLane: requires two distinct records, and so do `CopyAt`, `CopyFour` and `CopyTwo`. Copying between two lanes of one and the same record, which the source allows, is not modelled.
- GatherScatter.SwapLanes: requires two distinct records. Swapping two lanes of one and the same record (aliasing) is not modelled.
- LineExtraction.Masked: the body-reference mask is taken to be `2^k - 1` for some `k` between 1 and 31, with `k` left unknown.
- Integer overflow: counts, offsets and the capacity estimate are unbounded; 32-bit wrap-around is not modelled.
- The per-type line extractors (`BallSocketLineExtractor`, `Contact4LineExtractor`, …) are not part of this model. Each is an abstract function together with its lines per constraint and its body count.
- The constraint types' `BatchTypeId` values and `NarrowPhase.IsContactConstraintType` are not part of this model. They are given as the constructor's registrations and as the filter's predicate.
- Concurrency: `looper.For` and `Interlocked.Add` are modelled as running the jobs one after the other in index order. Other interleavings reserve different ranges and are not modelled.
- `QuickList`, `BufferPool`, `Dispose` and the pool-backed allocation of per-job lists are modelled as sequences and arrays.
- Debug assertions are modelled as preconditions or as lemmas showing they hold, with one exception below. They are not runtime checks.
- LineExtraction.LoadInactiveBodyIndices: the debug assertion at DemoRenderer/Constraints/ConstraintLineExtractor.cs:83, that the body an inactive constraint refers to lives in the constraint's own set, is not modelled. `Bodies` holds only the handle-to-index map, not the handle-to-set map.
- The `bodies`, `solver` and `targetLines` fields that `AddInstances` sets around the parallel loop are passed as parameters. The stale `this.solver = solver` at line 266 has no effect in the model.
- `Enabled` and the `IConstraintLineExtractor` interface are not part of this model, and neither are the demo files that call the renderer.
- GatherScatter.ClearStrided and the `ClearLane` overloads: the zero value of `TVector` (`default(TVector)`) is a parameter.

## Findings

| source | as written | input that shows it | evidently intended | confidence | as-written member | corrected member |
|---|---|---|---|---|---|---|
| BepuPhysics/GatherScatter.cs:164 | `sizeInElements` multiplies the bundle count by `Unsafe.SizeOf<TVector>()` instead of by `Vector<TVector>.Count` | `W = 8` (256-bit vectors), 4-byte `TVector`, a record of two bundles (64 bytes): `sizeInElements = 64 / 32 * 4 = 8`, so only bundle 0's lane is cleared | clear the lane in every whole bundle | not executed | GatherScatter.ClearLaneAsWrittenMissesBundles | GatherScatter.ClearLane |
| BepuPhysics/GatherScatter.cs:133 | the assertion masks the byte size with `VectorMask` (`W - 1`), which checks byte-size divisibility, not slot-count divisibility | `W = 8`, a 40-byte record (10 slots): `40 & 7 == 0` passes, but the iteration at `i = 8` touches slots up to `15` | the slot count is a whole number of bundles | not executed | GatherScatter.SwapLanesAssertAdmitsOverrun | GatherScatter.SwapLanesStaysInRecord |
