# raster-h3: a model and its proofs

This project models the parts of raster-h3 that carry its guarantees and proves them for all inputs, all
orders and all runs. Arithmetic on statistics is exact (`real`); everything else follows the source branch
by branch.

1. **Cell statistics as mergeable summaries** (`Samples`, `RunningMoments`, `Accumulator`, `AffineSamples`,
   `Variance`; `ClassCounts`, `Categorical`, `Majority`, `Histogram`; `PartialStates`, `TreeShapes`,
   `MergeUdaf`). An
   accumulator object carries a ghost list of the samples it has taken in; its invariant says that every
   field has its list-defined value. Welford updates, two-pass blocks, sums of squares, affine maps and
   Chan merges all keep it, so they form a homomorphism from lists of samples. Categorical accumulators
   refine a map from class to weight across the spill to the heap. Iterating over a hash map yields an
   arbitrary order, and what is computed from it is proved independent of that order, or exactly when it is.
2. **Partitioned scan and merge** (`PartitionPlan`, `PartitionSet`, `BoundaryCells`, `RecordBatches`,
   `PartialRows`, `PartialMerger`, `MergeBatches`, `PartitionMerge`, `MergePartitions`, `Observations`,
   `PartitionedScan`). Planning cuts chunk grids into rectangles and packs them; workers classify cells as
   interior or boundary; the merge checks the headers, streams final rows and merges partial rows. The
   stream's contract is one equation per step: the rows owed before equal the rows yielded and the rows owed
   after, where nothing is owed if something ahead fails. The end-to-end theorem says that the output is the
   unpartitioned scan's rows in another order.
3. **Query pushdown** (`Floats`, `BoundingBox`, `ScanConfig`, `QueryTable`, `Filters`, `FilterCases`, `Pushdown`,
   `Projection`). SQL filters become scan predicates with a status, boxes are widened on the wrapped globe,
   limits are deferred. The specification is "filter the whole table, then limit"; `FilterCases` tells by the
   form of a filter what is pushed of it.
4. **WKB and EWKB envelopes** (`Wkb`, `Doubles`, `WkbRoundTrip`, `Envelopes`, `WkbReader`). An encoder of geometry
   trees (section 8.2 of OGC 06-103r4 with the EWKB flags), a parser proved to be its exact inverse, and the
   source's reader with cursor and running envelope proved against both, with a bound on its work. `Doubles`
   fixes the number of a coordinate by the laws of binary64 of IEEE 754.
5. **SHA-256** (`Words`, module `Fips180` and module `Sha256` in `Sha256.dfy`, `Fips180Laws`, `ExtensionHash`), refined
   against sections 4.1.2, 5.1.1, 5.2.1 and 6.2.2 of FIPS 180-4.
6. **Hex text and cell hashing** (`Names`, `FastHex`, `CellHash`): a round trip and a bijection over all
   64-bit values.

`dafny verify dfyconfig.toml` checks everything.

## What is not so, or not quite

- The comment at crates/raster-h3-cli/src/lib.rs:528-529 says that partitions of different plans with one
  count would overlap. They need not: `PartitionPlan.MixedPlansAccepted` gives two plans whose mixture passes
  the check and misses chunks. `PartitionSet.AcceptedCovers` gives the exact condition: the chunk counts of
  the partitions add up to the number of streamed chunks.
- `intersect_bbox` is not a superset of the true intersection on one meridian. `BoundingBox.IntersectKeeps`
  says exactly which common points are lost, `BoundingBox.SeamLost` is an instance, and
  `BoundingBox.NarrowingKeeps` shows that scans are not affected, since boxes are widened first.
- The majority of a cell depends on the order of iteration for chains of near ties
  (`Majority.ChainOfTies`); it is independent of it if and only if one class beats every other
  (`Majority.MajorityOrderFree`).
- The variance differs from its documented formula below a relative tolerance; `Variance.VarianceIsEstimator`
  says exactly when, `Variance.VarianceSliver` is an instance.
- Merging sketches is not associative in general (`PartialStates.SketchShape` is an instance).
  `TreeShapes.MergeAssociates` says exactly when it is for three states, and `TreeShapes.EveryTreeIsFlat`
  exactly when all trees over some states equal their flat merge. They do when no state has a sketch, and
  when every state that counts samples has a complete one (`PartialStates.TreeIsFlat`). Statistics and class
  weights never depend on the tree.
- The overlap test of `check_partition_set` also refuses an empty block inside another one, which shares no
  chunk with it (`PartitionSet.OverlapIsSharing`; `PartitionSet.EmptyBlockOverlaps` is an instance). Workers
  refuse such blocks (`PartitionPlan.ValidFor`), so it can only come from a header that was edited.

## What is assumed

- Workers: `PartitionedScan.Sound` says what a scan of a partition must emit: each cell it reaches once,
  with the state over its own observations, and as final only if no other partition observes the cell.
  `BoundaryCells.ClassifiedWorkers` derives the last part from the classifier's code and the plan, given that
  the certified bounds of chunks hold their samples (`CertifiedHold`) and the boxes of cells hold the samples
  of the cells (`AllBoxesHold`).
- Geometry: a cell is the set of points of its planar geometry, which has a part on each side of the
  antimeridian where the cell crosses it (crates/raster-h3-core/src/encoding/wkb.rs:196-207).
  `QueryTable.MarginsCover` says that the samples of a cell with a point in a box lie strictly within the
  margins, around the globe, of a point of that box. `Filters.SpatialSound` says that a spatial predicate of
  the query engine which holds between a cell and a constant geometry implies that a point of the cell lies in
  the envelope of the constant geometry, or within the distance of it. `Pushdown.SplitCellInScope` and
  `Filters.ReachingEngineSound` show that rasters and engines meet both.
- Thresholds and the configured western bound are ordinary numbers: thresholds are not NaN, and the
  configured box does not start east of 180 degrees.
- Batches of a file conform to its schema, and a file has a column besides `partial_state`. The writer
  refuses scans without `h3_index` and `resolution` (crates/raster-h3-core/src/columnar/partitioned.rs:48-65).
- Rendering a record as columns (`from_continuous_records`, `from_categorical_wide_records`) is a parameter
  `build` that yields one row for each record, in order.

## Model

| member | source | states |
|---|---|---|
| PartitionedScan.MergedScanIsScan | crates/raster-h3-cli/src/lib.rs:357-449 | The merge theorem: for files that hold what soundly classifying workers wrote, a merge that succeeds yields exactly the rows of an unpartitioned scan over all observations, as a multiset, each cell once |
| PartitionedScan.MergedIsScan | crates/raster-h3-cli/src/lib.rs:357-364 | The record form of it: final records of all partitions plus one merged record per shared cell are the records of one scan, with the state that one accumulator over all observations of the cell has: statistics and, for scans with quantiles, a sketch of exactly all samples; or class weights |
| PartitionedScan.ScansAgree | crates/raster-h3-cli/src/lib.rs:357-359 | Two scans of the same observations have the same records as multisets, so "an unpartitioned scan" is well defined up to order |
| PartitionedScan.PlannedWorkers | crates/raster-h3-core/src/aggregator/multi_horizon/partition.rs:216-316 | Workers that scan the partitions of a plan meet every hypothesis of the theorem: their files are accepted and every observation is read by exactly one of them |
| PartitionedScan.SameShares | crates/raster-h3-core/src/aggregator/multi_horizon/partial.rs:52-73 | A state decodes as one kind only, whatever the budget, so a merge that takes the files for the other kind of scan fails unless there is nothing to merge |
| PartitionedScan.OneFinal | crates/raster-h3-core/src/aggregator/multi_horizon/partition.rs:558-598 | A cell written as final by one partition has been seen by no other |
| Observations.SeenIsAll | crates/raster-h3-core/src/aggregator/multi_horizon/partition.rs:74-76 | When every observation is read once, what the partitions see of a cell is together exactly its observations, as a multiset |
| Observations.WholeState | crates/raster-h3-core/src/aggregator/accumulator.rs:240-283 | The state over what all partitions see of a cell, its sketch included, equals the state of one scan, whatever the order |
| PartitionSet.CheckPartitionSet | crates/raster-h3-cli/src/lib.rs:470-552 | Accepts if and only if scan, count and fingerprint agree, the indices are a permutation of 0..count and no two blocks overlap; a refusal names a reason and files for which it is true |
| PartitionSet.CheckScan | crates/raster-h3-cli/src/lib.rs:473-494 | Accepts exactly headers of one scan and one plan; otherwise names an offending file |
| PartitionSet.CheckIndices | crates/raster-h3-cli/src/lib.rs:495-527 | Accepts exactly when every index of the plan is given once; otherwise names the index out of range, the two files, or all missing indices |
| PartitionSet.MissingSlots | crates/raster-h3-cli/src/lib.rs:516-521 | Lists exactly the indices that no file has, ascending |
| PartitionSet.CheckBlocks | crates/raster-h3-cli/src/lib.rs:530-550 | Accepts exactly when no two blocks of any files overlap |
| PartitionSet.OverlapIsSharing | crates/raster-h3-cli/src/lib.rs:537-541 | The overlap test finds every shared chunk, and finds nothing else unless a block is empty |
| PartitionSet.EmptyBlockOverlaps | crates/raster-h3-cli/src/lib.rs:537-541 | An empty block that the test takes for overlapping a block with which it shares no chunk |
| PartitionSet.AcceptedAtMostOnce | crates/raster-h3-cli/src/lib.rs:470-552 | An accepted set assigns each chunk to at most one partition |
| PartitionSet.DisjointIsAtMostOnce | crates/raster-h3-cli/src/lib.rs:535-549 | Without empty blocks the test is exact: it passes if and only if no chunk lies in two blocks |
| PartitionSet.AcceptedCovers | crates/raster-h3-cli/src/lib.rs:361-362 | An accepted set covers every streamed chunk if and only if its partitions' chunk counts add up to their number: the condition that the check does not test |
| PartitionPlan.MixedPlansAccepted | crates/raster-h3-cli/src/lib.rs:528-529 | The comment there is false: for a row of five chunks, two plans of two partitions each (for three and for four chunks) meet all that planning promises; the first partition of one with the last of the other is accepted, although no file covers two of the chunks |
| PartitionPlan.PlanPartitions | crates/raster-h3-core/src/aggregator/multi_horizon/partition.rs:226-316 | Refuses only a zero target; a plan is numbered 0..count and holds every streamed chunk once, in disjoint non-empty blocks that are the rectangles of each tile in order; each partition is within the target or a single block, and has no room for the first block of the next |
| PartitionPlan.PlanAccepted | crates/raster-h3-core/src/aggregator/multi_horizon/partition.rs:216-222 | The files of a plan pass the set check, every streamed chunk is in a partition and no chunk is in two |
| PartitionPlan.PlanValid | crates/raster-h3-core/src/aggregator/multi_horizon/partition.rs:107-144 | Every worker accepts its own partition of a plan |
| PartitionPlan.CutTile | crates/raster-h3-core/src/aggregator/multi_horizon/partition.rs:239-283 | The rectangles are the cells, row by row, of a grid over the smallest box around the tile's streamed chunks that hold one of them: as wide as asked within the box, and of the fewest rows that reach the target, or all. They are disjoint, hold every streamed chunk, and each holds as many as it says |
| PartitionPlan.FillGrid | crates/raster-h3-core/src/aggregator/multi_horizon/partition.rs:258-261 | The flags of the grid say for each cell of the box whether its chunk is streamed |
| PartitionPlan.CountBlock | crates/raster-h3-core/src/aggregator/multi_horizon/partition.rs:265-268 | The number of streamed chunks in a rectangle |
| PartitionPlan.BoxOf | crates/raster-h3-core/src/aggregator/multi_horizon/partition.rs:244-252 | The box encloses the streamed chunks of a tile, and each of its four edges is reached by one of them |
| PartitionPlan.CutMosaic | crates/raster-h3-core/src/aggregator/multi_horizon/partition.rs:238-283 | Tile by tile the rectangles of each, which together hold every streamed chunk once |
| PartitionPlan.Pack | crates/raster-h3-core/src/aggregator/multi_horizon/partition.rs:286-309 | Packing keeps the blocks in order, each partition within the target unless it is a single block, and closes a partition only when the next block would exceed the target |
| PartitionPlan.Number | crates/raster-h3-core/src/aggregator/multi_horizon/partition.rs:310-314 | Numbering changes only index and count |
| PartitionPlan.PackTurn | crates/raster-h3-core/src/aggregator/multi_horizon/partition.rs:289-300 | One block more: it joins the partition being filled unless that would exceed the target |
| PartitionPlan.SizeIs | crates/raster-h3-core/src/aggregator/multi_horizon/partition.rs:253-256 | Width and height of the rectangles: the width clamped to the box, and the fewest rows that reach the target, or all |
| PartitionPlan.ValidForIs | crates/raster-h3-core/src/aggregator/multi_horizon/partition.rs:107-144 | A worker accepts a partition of a plan for its mosaic, with an index below the count and blocks that fit, and no other |
| PartitionPlan.BlockFitsGrid | crates/raster-h3-core/src/aggregator/multi_horizon/partition.rs:123-142 | A block fits a mosaic exactly when it is not empty and all its cells lie in the chunk grid of a tile |
| BoundaryCells.ClassifierSound | crates/raster-h3-core/src/aggregator/multi_horizon/partition.rs:1-22 | A cell called interior has no observation in another partition, given that chunk bounds and cell boxes are conservative |
| BoundaryCells.ClassifiedWorkers | crates/raster-h3-core/src/aggregator/multi_horizon/partition.rs:526-598 | Plan, classifier and merge form one chain: workers of a plan that write as final only what their classifiers call interior meet all hypotheses of the merge theorem |
| BoundaryCells.ClassifiedIsSound | crates/raster-h3-core/src/aggregator/multi_horizon/partition.rs:558-598 | Such a worker's output is sound: its final cells have no observation in another partition |
| BoundaryCells.CertifiedBounds | crates/raster-h3-core/src/aggregator/multi_horizon/partition.rs:529-548 | Normalized, the certified bounds of the chunks outside a partition hold every sample outside it |
| BoundaryCells.ClassifierOf | crates/raster-h3-core/src/aggregator/multi_horizon/partition.rs:526-556 | The classifier of a partition indexes exactly the normalized bounds of the streamed chunks outside it |
| BoundaryCells.BoundaryClassifier.IsInterior | crates/raster-h3-core/src/aggregator/multi_horizon/partition.rs:558-567 | Interior only for a stated reason (no foreign chunk, or a cell whose box, or the box of the descendants of its third or first ancestor, misses every foreign chunk), boundary only when in doubt; counts both |
| BoundaryCells.BoundaryClassifier.ReasonOrDoubt | crates/raster-h3-core/src/aggregator/multi_horizon/partition.rs:569-598 | Exactly one of reason and doubt is the case when no box is empty, so the verdict is determined |
| BoundaryCells.BoundaryClassifier.Classify | crates/raster-h3-core/src/aggregator/multi_horizon/partition.rs:569-598 | The verdict through the ancestor caches is the one computed afresh |
| BoundaryCells.BoundaryClassifier.Lookup | crates/raster-h3-core/src/aggregator/multi_horizon/partition.rs:585-592 | A cached verdict, kept or cleared, is always the verdict of the ancestor's box |
| BoundaryCells.ForeignChunks.Meets | crates/raster-h3-core/src/aggregator/multi_horizon/partition.rs:495-508 | The bucket lookup finds only intersecting bounds, and misses none that shares a point with the box |
| BoundaryCells.ForeignChunks.constructor | crates/raster-h3-core/src/aggregator/multi_horizon/partition.rs:440-479 | Every rectangle is entered in every bucket it covers |
| BoundaryCells.NormalizedKeeps | crates/raster-h3-core/src/aggregator/multi_horizon/partition.rs:363-372 | Normalizing chunk bounds loses no sample |
| BoundaryCells.NormalizedExactly | crates/raster-h3-core/src/aggregator/multi_horizon/partition.rs:363-372 | Nothing more is widened than has to be: of the globe, normalized bounds hold exactly what the bounds say, or all longitudes, or everything |
| BoundaryCells.BucketMonotone | crates/raster-h3-core/src/aggregator/multi_horizon/partition.rs:484-491 | Bucket numbers follow the order of coordinates |
| RecordBatches.RecordBatch.SliceRows | crates/raster-h3-core/src/columnar/mod.rs:354-369 | Slicing a batch gives the rows of the range |
| RecordBatches.RecordBatch.ProjectRows | crates/raster-h3-core/src/columnar/mod.rs:340-352 | Projecting a batch keeps the chosen columns of every row |
| RecordBatches.TryNew | crates/raster-h3-core/src/columnar/mod.rs:306-338 | Succeeds exactly for columns of one length and the schema's types |
| RecordBatches.JoinValidity | crates/raster-h3-cli/src/lib.rs:686-693 | A validity mask is made up only where one of the two columns has one |
| RecordBatches.AppendColumn | crates/raster-h3-cli/src/lib.rs:684-709 | Appending a column appends its cells, nulls included |
| RecordBatches.ConcatColumn | crates/raster-h3-cli/src/lib.rs:671-679 | A concatenated column has the cells of all batches in order |
| RecordBatches.ConcatBatches | crates/raster-h3-cli/src/lib.rs:668-682 | Concatenating batches of one schema succeeds and concatenates their rows |
| PartialMerger.Merger.Push | crates/raster-h3-core/src/aggregator/multi_horizon/partial.rs:100-110 | A share is merged into its cell or becomes it; other cells stay |
| PartialMerger.Merger.PushEncoded | crates/raster-h3-core/src/aggregator/multi_horizon/partial.rs:112-127 | Reads a state of its kind within the budget of bytes, or fails and changes nothing |
| PartialMerger.Merger.Finish | crates/raster-h3-core/src/aggregator/multi_horizon/partial.rs:139-149 | The merged cells that pass the filter, sorted by resolution and cell, whatever the order of the hash map |
| PartialMerger.CellIsFold | crates/raster-h3-core/src/aggregator/multi_horizon/partial.rs:100-110 | Each cell is the merge of its own shares, whatever other cells come in between |
| PartialMerger.ListingIsSorted | crates/raster-h3-core/src/aggregator/multi_horizon/partial.rs:141-143 | There is one sorted listing of a map of cells |
| PartialMerger.SortedOrder | crates/raster-h3-core/src/aggregator/multi_horizon/partial.rs:141-143 | In the listing a cell comes before another exactly when its resolution is smaller, or equal and its number smaller |
| PartialMerger.SortCells | crates/raster-h3-core/src/aggregator/multi_horizon/partial.rs:142-143 | Taking cells out of the hash map in any order and sorting them gives that listing |
| MergeBatches.MergePartialBatches | crates/raster-h3-core/src/columnar/partitioned.rs:345-414 | Succeeds exactly when the key columns are there (or there is nothing to merge) and every row has keys and a readable state of its kind within the budget; then yields each cell once, sorted, in non-empty batches |
| MergeBatches.PushBatch | crates/raster-h3-core/src/columnar/partitioned.rs:370-382 | Pushes every row of a batch or fails |
| MergeBatches.NoNulls | crates/raster-h3-core/src/columnar/partitioned.rs:311-332 | A key column is accepted exactly when it has no null |
| MergeBatches.BuildBatches | crates/raster-h3-core/src/columnar/partitioned.rs:393-396 | Cutting the records into batches of bounded size keeps their rows in order |
| PartialRows.Split | crates/raster-h3-cli/src/lib.rs:622-657 | The final rows of a batch, each as `row[..state] + row[state + 1..]` (None when there are none), and batches of its partial rows as they are, both in order |
| PartialRows.SplitRuns | crates/raster-h3-cli/src/lib.rs:636-651 | Runs of equal kind divide the batch's rows into final and partial ones |
| PartialRows.RunLength | crates/raster-h3-cli/src/lib.rs:639-643 | A run is not empty, uniform and inside the batch |
| PartialRows.Layout.SplitAppend | crates/raster-h3-cli/src/lib.rs:622-657 | Splitting rows into final and partial ones distributes over appending |
| PartialRows.Layout.Keep | crates/raster-h3-cli/src/lib.rs:400-402 | The kept columns ascend and lack the state |
| PartialRows.Layout.KeepHasTheRest | crates/raster-h3-cli/src/lib.rs:400-402 | Every column but the state is kept |
| PartialRows.Layout.KeptIsCut | crates/raster-h3-cli/src/lib.rs:648 | Keeping these columns gives `row[..state] + row[state + 1..]` |
| PartialRows.Layout.FinalRowAt | crates/raster-h3-cli/src/lib.rs:636-657 | Each row without a state is found among the final ones, cut in this way, right after the final rows before it; rows with a state are not |
| PartitionMerge.Stream.NextBatch | crates/raster-h3-cli/src/lib.rs:576-620 | One batch of the rows still owed, in order; the measure of remaining work decreases lexicographically; None exactly when nothing is owed, and then forever; after an error nothing was owed, since something ahead is unreadable |
| PartitionMerge.Stream.ReadItem | crates/raster-h3-cli/src/lib.rs:583-592 | Reads one batch of the open file or closes it; what is owed changes only by the rows yielded |
| PartitionMerge.Stream.ReadOne | crates/raster-h3-cli/src/lib.rs:585-588 | Final rows come out, partial rows are kept; together with what is still owed nothing is lost or doubled |
| PartitionMerge.Stream.OpenNext | crates/raster-h3-cli/src/lib.rs:594-603 | Opens the next file; fails if it cannot be read or its columns changed |
| PartitionMerge.Stream.MergeKept | crates/raster-h3-cli/src/lib.rs:605-618 | Merges exactly the kept partial rows and queues the result |
| PartitionMerge.Stream.TakeQueued | crates/raster-h3-cli/src/lib.rs:580-582 | Yields the queued batches first to last |
| PartitionMerge.ItemOwed | crates/raster-h3-cli/src/lib.rs:583-589 | What was owed before a batch is read is its final rows followed by what is owed after |
| MergePartitions.MergePartitionFiles | crates/raster-h3-cli/src/lib.rs:365-449 | Succeeds if and only if the files are a mergeable set; then the output is every file's final rows in file and row order, each as `row[..state] + row[state + 1..]`, followed by each cell of the partial rows once; a refusal says what is wrong with the set |
| MergePartitions.WriteAll | crates/raster-h3-cli/src/lib.rs:444-448 | Writing until None yields exactly what the stream owed at the start |
| MergePartitions.CheckColumns | crates/raster-h3-cli/src/lib.rs:371-387 | Opens every file and compares its columns with the first; a failure names a file for which it is true |
| MergePartitions.InferKind | crates/raster-h3-cli/src/lib.rs:408-427 | A scan is categorical when asked for or when a column is not one of a continuous scan; fails exactly when a column belongs to no scan of that kind |
| MergePartitions.LayoutOf | crates/raster-h3-cli/src/lib.rs:389-402 | The state is the first column named `partial_state`, in any case of letters, and the keys are the first columns named `resolution` and `h3_index` if they have the types of keys |
| MergePartitions.ScanNames | crates/raster-h3-cli/src/lib.rs:408-427 | The columns of a continuous and of a categorical scan: four that they share, and those of their own |
| MergePartitions.Run | crates/raster-h3-cli/src/lib.rs:430-448 | From files with the columns of the first: succeeds exactly when all can be read, and yields final rows then merged rows |
| Accumulator.H3Accumulator.Update | crates/raster-h3-core/src/aggregator/accumulator.rs:136-166 | Welford's update: every field again has its list-defined value (sum, count, sum of squared weights, bounds, weighted squared distance to the mean) with the finite value appended; a NaN or infinity is ignored |
| Accumulator.H3Accumulator.UpdateWeighted | crates/raster-h3-core/src/aggregator/accumulator.rs:168-199 | The same for a weighted sample; values or weights that are not finite and weights that are not positive are ignored |
| Accumulator.H3Accumulator.UpdateSlice | crates/raster-h3-core/src/aggregator/accumulator.rs:201-239 | The two-pass block form equals updating with each finite value of the block |
| Accumulator.H3Accumulator.Merge | crates/raster-h3-core/src/aggregator/accumulator.rs:240-283 | The fields are those of both sample lists together; the sketches are merged as multisets, and a state with samples but no sketch adopts none |
| Accumulator.H3Accumulator.ApplyAffine | crates/raster-h3-core/src/aggregator/accumulator.rs:106-121 | Equals accumulating the mapped samples, for either sign of the scale |
| Accumulator.H3Accumulator.Clear | crates/raster-h3-core/src/aggregator/accumulator.rs:123-134 | Back to no samples; a sketch stays, empty |
| Accumulator.H3Accumulator.GetMean | crates/raster-h3-core/src/aggregator/accumulator.rs:285-293 | The weighted mean, undefined without samples |
| Accumulator.CombineIs | crates/raster-h3-core/src/aggregator/accumulator.rs:240-283 | Chan's combination is a homomorphism: the statistics of two lists combine to those of their concatenation |
| Accumulator.AddOneIs | crates/raster-h3-core/src/aggregator/accumulator.rs:150-166 | Welford's step is the statistics of the list with one more sample |
| Accumulator.IntoH3 | crates/raster-h3-core/src/aggregator/accumulator.rs:373-393 | The sum-of-squares form equals updating one by one; the clamp at zero never changes the value |
| RunningMoments.SumOfSquares | crates/raster-h3-core/src/aggregator/accumulator.rs:376-392 | With unit weights the spread is the sum of squares less the squared sum over the count, and never negative |
| Samples.BoundsAreExact | crates/raster-h3-core/src/aggregator/accumulator.rs:150-156 | Minimum and maximum are attained and bound every sample |
| AffineSamples.AffineSummary | crates/raster-h3-core/src/aggregator/accumulator.rs:106-121 | The statistics of mapped samples are the mapped statistics |
| AffineSamples.AffineAppend | crates/raster-h3-core/src/aggregator/accumulator.rs:106-121 | Mapping before or after lists are merged makes no difference |
| AffineSamples.AffineBounds | crates/raster-h3-core/src/aggregator/accumulator.rs:118-120 | A decreasing map swaps the bounds |
| Variance.SummaryPermuted | crates/raster-h3-core/src/aggregator/accumulator.rs:240-283 | The statistics do not depend on the order of the samples, so not on the order of updates and merges |
| Variance.VarianceNonNegative | crates/raster-h3-core/src/aggregator/accumulator.rs:295-313 | A non-empty accumulator has a variance, and it is never negative |
| Variance.UnitVariance | crates/raster-h3-core/src/aggregator/accumulator.rs:295-313 | For n of at least 2 unit weights it is m2 / (n - 1); the tolerance never bites |
| Variance.SquaresBelow | crates/raster-h3-core/src/aggregator/accumulator.rs:295-310 | The squared weights sum to at most the square of their sum, with equality exactly for one sample |
| Variance.VarianceIsEstimator | crates/raster-h3-core/src/aggregator/accumulator.rs:295-313 | The variance is the documented estimator if and only if all samples have one value, or W^2 - sum(w^2) exceeds 1e-12 * W^2 for the total weight W |
| Variance.VarianceSpread | crates/raster-h3-core/src/aggregator/accumulator.rs:295-313 | When no sample carries more than the share 1 - 2e-12 of the weight, the variance is the documented estimator |
| Variance.VariancePair | crates/raster-h3-core/src/aggregator/accumulator.rs:305-312 | For two samples of different values it is, if and only if 2 * w1 * w2 exceeds 1e-12 * (w1 + w2)^2 |
| Variance.NoSpread | crates/raster-h3-core/src/aggregator/accumulator.rs:295-313 | The second moment is zero exactly when all samples have one value |
| Variance.VarianceSliver | crates/raster-h3-core/src/aggregator/accumulator.rs:305-312 | Two pixels, one of weight up to 1e-13: the documented estimator is positive, the code returns zero |
| Variance.VarianceReweighted | crates/raster-h3-core/src/aggregator/accumulator.rs:295-313 | Multiplying all weights by one positive factor changes nothing |
| Categorical.CategoricalAccumulator.UpdateWeighted | crates/raster-h3-core/src/aggregator/categorical.rs:72-106 | Adds the weight to the class in the map that both representations stand for, across the spill; weights that are not positive are ignored |
| Categorical.CategoricalAccumulator.Merge | crates/raster-h3-core/src/aggregator/categorical.rs:108-116 | The pointwise sum, in whatever order the classes come |
| Categorical.CategoricalAccumulator.Spill | crates/raster-h3-core/src/aggregator/categorical.rs:97-104 | The seventeenth class: the hash map holds all classes of the slots and the new one |
| Categorical.CategoricalAccumulator.GetClassCount | crates/raster-h3-core/src/aggregator/categorical.rs:51-64 | The weight of a class, zero when absent |
| Categorical.CategoricalAccumulator.Entries | crates/raster-h3-core/src/aggregator/categorical.rs:37-49 | The classes of the map, each once, in an arbitrary order for the hash map |
| Categorical.CategoricalAccumulator.UniqueClasses | crates/raster-h3-core/src/aggregator/categorical.rs:148-156 | The number of classes in the map |
| Categorical.CategoricalAccumulator.GetMajority | crates/raster-h3-core/src/aggregator/categorical.rs:118-146 | The winner of one pass in the order of iteration, its weight in the map, which is at most (k - 1) epsilons below that of any of the k classes, and its share of the total |
| Categorical.CategoricalAccumulator.HistogramJson | crates/raster-h3-core/src/aggregator/categorical.rs:158-212 | The histogram of the map, the same for every representation and order |
| ClassCounts.CountsAreClassWeights | crates/raster-h3-core/src/aggregator/categorical.rs:72-106 | Each class weighs what the observations give it; no class is lost or made up |
| ClassCounts.CountsOfPositive | crates/raster-h3-core/src/aggregator/categorical.rs:74-77 | Every class in the map has a positive weight |
| ClassCounts.PlusIs | crates/raster-h3-core/src/aggregator/categorical.rs:108-116 | Merging is a homomorphism from lists of observations |
| ClassCounts.AddAllIsPlus | crates/raster-h3-core/src/aggregator/categorical.rs:113-115 | Adding the other's classes one by one, in any order, is the pointwise sum |
| ClassCounts.CountsPermuted | crates/raster-h3-core/src/aggregator/categorical.rs:108-116 | The map does not depend on the order of the observations |
| ClassCounts.TotalAdded | crates/raster-h3-core/src/aggregator/categorical.rs:78 | The total grows by exactly the added weight, so it is the sum of the class weights |
| ClassCounts.TotalBounds | crates/raster-h3-core/src/aggregator/categorical.rs:140-144 | No class weighs more than the total |
| Majority.WinnerNearMaximum | crates/raster-h3-core/src/aggregator/categorical.rs:124-146 | In any order of k classes the winner is visited and its count is at least the maximum less (k - 1) times the epsilon |
| Majority.MajorityOrderFree | crates/raster-h3-core/src/aggregator/categorical.rs:118-123 | The winner is the same in every order if and only if one class beats every other |
| Majority.WinnerBeatsAll | crates/raster-h3-core/src/aggregator/categorical.rs:124-146 | Such a class wins in every order |
| Majority.SeparatedMajority | crates/raster-h3-core/src/aggregator/categorical.rs:120-123 | When counts are equal or more than the epsilon apart, the lowest class of maximal count wins in every order |
| Majority.ChainOfTies | crates/raster-h3-core/src/aggregator/categorical.rs:120-123 | Three classes whose winner depends on the order of iteration |
| Histogram.HistogramUnique | crates/raster-h3-core/src/aggregator/categorical.rs:158-212 | A map has only one histogram |
| Histogram.SortByCategory | crates/raster-h3-core/src/aggregator/categorical.rs:188 | The entries in strictly ascending order of class |
| Histogram.WriteEntry | crates/raster-h3-core/src/aggregator/categorical.rs:200-209 | A class and its share of the total to the nearest ten-thousandth; the clamp changes nothing |
| Histogram.EntryReads | crates/raster-h3-core/src/aggregator/categorical.rs:200-209 | The text of an entry is the class as a quoted integer without leading zeros, and a number with four digits after the point that reads as the share |
| Histogram.DecimalReads | crates/raster-h3-core/src/aggregator/categorical.rs:200-209 | The decimal text of a number reads as that number and has no leading zero |
| Histogram.Units | crates/raster-h3-core/src/aggregator/categorical.rs:205-207 | The share in ten-thousandths is within half a unit of the exact one and at most 10000 |
| MergeUdaf.MergeAccumulator.MergeRow | crates/raster-h3-sedona/src/merge.rs:203-229 | A null is skipped, the first state adopted, any other merged; an unreadable state changes nothing |
| MergeUdaf.MergeAccumulator.UpdateBatch | crates/raster-h3-sedona/src/merge.rs:199-245 | Takes in a column up to the first unreadable state |
| MergeUdaf.MergeAccumulator.Export | crates/raster-h3-sedona/src/merge.rs:247-254 | The intermediate state holds what was merged, and reads back unless it exceeds the budget |
| MergeUdaf.MergeAccumulator.Finish | crates/raster-h3-sedona/src/merge.rs:256-283 | Yields the merged content and leaves the accumulator empty |
| MergeUdaf.DecodeCategorical | crates/raster-h3-core/src/aggregator/multi_horizon/spill.rs:133-160 | A categorical state decodes to the map it was written from, in whatever order its classes were listed |
| MergeUdaf.ColumnSums | crates/raster-h3-sedona/src/merge.rs:199-232 | Taking in a column on top of a state stands for the observations of both |
| MergeUdaf.FoldColumnIsFold | crates/raster-h3-sedona/src/merge.rs:199-232 | A column of encoded states merges like the states themselves |
| PartialStates.StepRepresents | crates/raster-h3-core/src/aggregator/accumulator.rs:240-283 | Merging two states stands for both sources; the sketch is complete exactly when both were |
| PartialStates.TreeSums | crates/raster-h3-sedona/src/merge.rs:235-254 | Any tree of batches, exported states and merges stands for all its leaves; null only when all were; sketch complete exactly when all were |
| PartialStates.TreeIsFlat | crates/raster-h3-sedona/src/merge.rs:235-254 | A tree equals one flat merge in every statistic or class weight, and in the sketch too when the shape of trees over its leaves cannot matter: above all when no state has a sketch, and when every state that counts samples has a complete one |
| PartialStates.TreesAgree | crates/raster-h3-sedona/src/merge.rs:235-254 | Two trees over the same observations, grouped and ordered in any way, have the same statistics or class weights; when all states are complete they are equal if and only if something is counted or their first states are equal |
| TreeShapes.EveryTreeIsFlat | crates/raster-h3-core/src/aggregator/accumulator.rs:240-283 | All trees over the same states equal their flat merge, sketch included, if and only if nothing is counted; or the flat merge ends with a sketch and no samples in a sketch come after a state that counts samples without one; or it ends without one and no empty sketch comes before the first counted samples |
| TreeShapes.MergeAssociates | crates/raster-h3-core/src/aggregator/accumulator.rs:240-283 | Merging three states is associative if and only if there is neither a gap (a sketch, then samples without one, then samples in one) nor a lost sketch (nothing, then an empty sketch, then samples without one) |
| PartialStates.SketchShape | crates/raster-h3-core/src/aggregator/accumulator.rs:265-282 | Without complete sketches the grouping shows in the final sketch |
| Pushdown.PushdownAnswers | crates/raster-h3-sedona/src/table.rs:86-200 | For every table, list of filters, limit, compaction or partition setting and order of emission: scanning, evaluating the residual filters and then limiting is a valid answer of "filter the whole table, then limit" |
| Pushdown.SplitCellInScope | crates/raster-h3-core/src/encoding/wkb.rs:203-207 | Cells across the antimeridian are in scope: the hypotheses of the theorem hold of a raster with samples on both sides in one such cell and of an engine for which the cell intersects geometries on either side |
| QueryTable.SplitWorldValid | crates/raster-h3-core/src/encoding/wkb.rs:196-287 | Such a raster is valid; its cell touches boxes on both sides of the antimeridian and none between them |
| Filters.ReachingEngineSound | crates/raster-h3-sedona/src/spatial.rs:22-46 | For every raster the hypothesis on spatial predicates is met by the engine whose predicates hold exactly when a point of the cell reaches the constant geometry |
| Pushdown.ScannedRow | crates/raster-h3-sedona/src/table.rs:153-199 | The narrowed scan and the residual filters keep exactly the matching rows |
| Pushdown.PushedSound | crates/raster-h3-sedona/src/table.rs:99-141 | The pushed predicates and the residual filters together are the filters |
| Pushdown.TranslateForSound | crates/raster-h3-sedona/src/table.rs:92-109 | A translation is pushed only if the provider supports each predicate, and is exact only without a box |
| Pushdown.PlanScan | crates/raster-h3-sedona/src/table.rs:153-181 | What the adapter hands down: the configuration narrowed by the pushed predicates, and the limit if and only if the scan is not partitioned and applies every filter itself |
| Pushdown.PushdownCases | crates/raster-h3-sedona/src/table.rs:99-141 | The status of every filter on every table: exact if and only if it is a bound that is not strict, a range over two of them or a resolution; inexact if and only if it is a strict bound, a range with one bound or a spatial predicate with a constant envelope; a partitioned scan takes only resolutions and a compacted one nothing |
| Pushdown.BoundPushed | crates/raster-h3-sedona/src/filters.rs:87-108 | A comparison of a column with a number, on either side, is pushed as the threshold of that column, exactly unless it is strict |
| Pushdown.RangePushed | crates/raster-h3-sedona/src/filters.rs:38-69 | A range is pushed as the thresholds at its ends that are bounds |
| Pushdown.SpatialPushed | crates/raster-h3-sedona/src/spatial.rs:60-78 | A spatial predicate is pushed as the box of its constant geometry, which holds exactly the longitudes and latitudes within the distance of the envelope |
| Pushdown.PushedSnoc | crates/raster-h3-sedona/src/table.rs:167-171 | One more filter pushes what it is translated to, after the others |
| Pushdown.LimitPassed | crates/raster-h3-datafusion/src/table_provider.rs:226-241 | The reader gets the limit if and only if the scan is not partitioned and applies every filter itself |
| FilterCases.BoundMeans | crates/raster-h3-sedona/src/filters.rs:83-108 | A bound that is not strict says of a row exactly what its threshold says |
| FilterCases.BoundTranslated | crates/raster-h3-sedona/src/filters.rs:73-108 | Each bound on a numeric column of the kind of table is translated to its threshold |
| FilterCases.TranslatedBinary | crates/raster-h3-sedona/src/filters.rs:30-37 | Nothing else of the form of a comparison is translated |
| FilterCases.RangeTranslated | crates/raster-h3-sedona/src/filters.rs:38-69 | A range is translated if and only if one of its ends is a bound, and exactly when both are |
| FilterCases.TranslatedFunction | crates/raster-h3-sedona/src/spatial.rs:60-78 | No function is translated but a spatial predicate between the geometry of a cell and a constant one in range |
| FilterCases.GrowBoxIs | crates/raster-h3-sedona/src/spatial.rs:190-210 | An envelope has a grown box if and only if it is in range; the box holds exactly the longitudes and latitudes within the distance of it |
| Filters.TranslationSound | crates/raster-h3-sedona/src/filters.rs:22-71 | Every translated filter implies the predicates it pushes; an exact one is equivalent to them |
| Filters.ComparisonSound | crates/raster-h3-sedona/src/filters.rs:73-108 | Comparisons of a column with a literal |
| Filters.BinarySound | crates/raster-h3-sedona/src/filters.rs:22-71 | Also with the literal on the left, the operator swapped |
| Filters.BetweenSound | crates/raster-h3-sedona/src/filters.rs:22-71 | A range, also when only one of its bounds can be pushed |
| Filters.SpatialIsSound | crates/raster-h3-sedona/src/spatial.rs:60-78 | A spatial predicate that holds implies that the cell's geometry touches the pushed box |
| Filters.GrownTouches | crates/raster-h3-sedona/src/spatial.rs:190-210 | Growing and clamping the envelope keeps every cell with a point within the distance, also cells split at the antimeridian |
| QueryTable.NarrowedRows | crates/raster-h3-datafusion/src/table_provider.rs:86-147 | All pushed predicates: the narrowed scan has exactly the rows that satisfy them, with all their samples, once the boxes are checked again |
| QueryTable.NarrowedRow | crates/raster-h3-datafusion/src/table_provider.rs:104-147 | One pushed predicate |
| QueryTable.NarrowedByBox | crates/raster-h3-datafusion/src/table_provider.rs:96-103 | Narrowing by a box keeps the cells that touch the requested box with all their samples |
| QueryTable.BoxMembers | crates/raster-h3-datafusion/src/table_provider.rs:118-142 | Narrowing the box leaves the samples of such cells alone |
| QueryTable.SampleKept | crates/raster-h3-datafusion/src/table_provider.rs:96-101 | Every sample of such a cell lies in the widened box and survives the intersection |
| ScanConfig.Planner.ApplySharedFilter | crates/raster-h3-datafusion/src/table_provider.rs:104-147 | Narrows the configuration by one predicate |
| ScanConfig.Planner.Apply | crates/raster-h3-datafusion/src/table_provider.rs:700-710 | Narrows by a predicate of the kind of table, or a shared one |
| ScanConfig.Planner.Plan | crates/raster-h3-datafusion/src/table_provider.rs:677-729 | Narrows by all predicates in order; a compacted scan takes none, a partitioned one only resolutions; the reader gets no limit below a residual predicate |
| ScanConfig.BoxNarrows | crates/raster-h3-datafusion/src/table_provider.rs:120-142 | A box in range narrows a scan that is not compacted to the points within the margins of the coarsest resolution and within the scan's own box |
| BoundingBox.ExpandContains | crates/raster-h3-datafusion/src/table_provider.rs:167-203 | The widened box holds every point within the margins of a point of the box: wrapping, crossing, polar and whole-globe cases |
| BoundingBox.ExpandOnly | crates/raster-h3-datafusion/src/table_provider.rs:167-203 | Each point of the widened box is within the margins of a point of the box |
| BoundingBox.WidestIs | crates/raster-h3-datafusion/src/table_provider.rs:178-185 | The latitude at which the margin of longitude is taken is the widest within the margin of latitude |
| BoundingBox.ExpandNone | crates/raster-h3-datafusion/src/table_provider.rs:173-177 | A box is left alone exactly when it is out of range |
| BoundingBox.IntersectNarrows | crates/raster-h3-datafusion/src/table_provider.rs:205-219 | The intersection is a subset of the current box, and of the other one unless one of them crosses the antimeridian, which leaves the current one as it is |
| BoundingBox.IntersectKeeps | crates/raster-h3-datafusion/src/table_provider.rs:205-219 | A common point of both boxes is kept if and only if it is not on the seam: the meridian -180 that one box has as its west edge and the other as its east edge |
| BoundingBox.SeamLost | crates/raster-h3-datafusion/src/table_provider.rs:205-219 | Two boxes that share the antimeridian and are taken for disjoint |
| BoundingBox.NarrowingKeeps | crates/raster-h3-datafusion/src/table_provider.rs:131-142 | Narrowing by a widened box loses no point strictly within the margins, seam included |
| BoundingBox.WrapLonRange | crates/raster-h3-core/src/aggregator/multi_horizon/coordinates.rs:54-58 | Wrapped longitudes lie in [-180, 180); 180 becomes -180 |
| Projection.PartitionedProjection | crates/raster-h3-datafusion/src/table_provider.rs:359-396 | The reader list has no duplicates and is exactly the requested base columns and the merge keys; every requested column has its place in the output |
| Projection.ProjectionReads | crates/raster-h3-datafusion/src/table_provider.rs:359-362 | Reading and mapping gives exactly the requested columns, in order, with repeats, with or without the state |
| Projection.KeysRead | crates/raster-h3-datafusion/src/table_provider.rs:378-384 | `h3_index` and `resolution` are read whenever the schema has them |
| WkbReader.WkbEnvelope | crates/raster-h3-sedona/src/spatial.rs:212-224 | On arbitrary bytes: the envelope that parsing defines, with loop work bounded by the number of bytes |
| WkbReader.Reader.Geometry | crates/raster-h3-sedona/src/spatial.rs:283-333 | Reads one geometry: cursor, envelope and failure are those of the specification; work is paid for by bytes read |
| WkbReader.Reader.Points | crates/raster-h3-sedona/src/spatial.rs:265-281 | Grows the envelope by each point with both coordinates |
| WkbReader.Reader.Count | crates/raster-h3-sedona/src/spatial.rs:259-263 | A count is accepted exactly when its items can fit in what is left |
| WkbReader.Reader.Take | crates/raster-h3-sedona/src/spatial.rs:235-239 | Takes bytes only when there are so many, and never reads past the end |
| WkbReader.Reader.TakeU32 | crates/raster-h3-sedona/src/spatial.rs:241-248 | An integer in either byte order |
| WkbReader.Reader.TakeF64 | crates/raster-h3-sedona/src/spatial.rs:250-257 | A coordinate in either byte order |
| Doubles.One | crates/raster-h3-sedona/src/spatial.rs:250-257 | The word of high half 0x3FF00000 and low half 0 is 1.0 |
| Doubles.Signed | crates/raster-h3-sedona/src/spatial.rs:250-257 | The sign bit negates the number of an exponent and a fraction |
| Doubles.Doubled | crates/raster-h3-sedona/src/spatial.rs:250-257 | The next exponent doubles a normal number |
| Doubles.Stepped | crates/raster-h3-sedona/src/spatial.rs:250-257 | One more in the fraction is one step more, the step being 2^-52 of the first number of the exponent |
| Doubles.Carried | crates/raster-h3-sedona/src/spatial.rs:250-257 | The last number of an exponent is one step below the first of the next, subnormal ones included, and the first of all is zero |
| Doubles.Ascends | crates/raster-h3-sedona/src/spatial.rs:250-257 | The words of finite numbers that are not negative ascend as the numbers do |
| Doubles.NotFinite | crates/raster-h3-sedona/src/spatial.rs:250-257 | The largest exponent is that of the infinities and of what is not a number |
| Envelopes.EnvelopeOfEncoding | crates/raster-h3-sedona/src/spatial.rs:212-224 | The envelope of the encoding of a well-formed geometry tree is the exact minimum and maximum of its points, or None when it has none |
| Envelopes.EnvelopeIsExact | crates/raster-h3-sedona/src/spatial.rs:212-224 | An envelope is found only for the encoding of a well-formed tree, and is its exact bounds |
| Envelopes.NoEnvelope | crates/raster-h3-sedona/src/spatial.rs:212-224 | Bytes that encode no well-formed tree have no envelope |
| Envelopes.GeometryIsParsed | crates/raster-h3-sedona/src/spatial.rs:283-333 | Reading with a running envelope finds what parsing finds |
| Envelopes.GrownBounds | crates/raster-h3-sedona/src/spatial.rs:272-278 | The running minimum and maximum over points that are not NaN is attained and bounds them all |
| WkbRoundTrip.GeometryComplete | crates/raster-h3-sedona/src/spatial.rs:283-333 | The encoding of a well-formed tree parses to that tree, whatever follows: every node with its own byte order, ISO or EWKB dimensions, with or without SRID |
| WkbRoundTrip.GeometrySound | crates/raster-h3-sedona/src/spatial.rs:283-333 | What parses is the encoding of the tree found, followed by the rest |
| Wkb.IsoCodes | crates/raster-h3-sedona/src/spatial.rs:299-306 | The ISO type codes: base type and Z, M, ZM offsets |
| Wkb.EwkbCodes | crates/raster-h3-sedona/src/spatial.rs:293-298 | The EWKB flags for Z, M and SRID |
| Wkb.TypeCodes | crates/raster-h3-sedona/src/spatial.rs:291-308 | Every 32-bit code: refused if and only if its low 28 bits are 4000 or more, else its base type, dimensions and SRID flag |
| Wkb.NestingLimit | crates/raster-h3-sedona/src/spatial.rs:226-227 | Collections may be nested up to thirty-two deep and no deeper |
| Sha256.Hash256 | src/bin/package_extension.rs:34-120 | The digest of every byte string is the one FIPS 180-4 defines |
| Sha256.ProcessBlock | src/bin/package_extension.rs:41-94 | One block: the compression of section 6.2.2 |
| Sha256.MessageSchedule | src/bin/package_extension.rs:42-53 | The sixty-four words of the schedule |
| Sha256.RunRounds | src/bin/package_extension.rs:55-84 | Sixty-four rounds on eight variables |
| Sha256.PaddingIsTail | src/bin/package_extension.rs:96-113 | Full blocks and the one- or two-block tail are exactly the padded message of sections 5.1.1 and 5.2.1 |
| Sha256.FillTail | src/bin/package_extension.rs:101-113 | The tail buffer holds the rest, the byte 0x80, zeros and the length |
| Fips180.SmallestPadding | src/bin/package_extension.rs:101-113 | The zero bytes are the fewest that align the length field |
| Fips180Laws.RoundConstants | src/bin/package_extension.rs:24-31 | The round constants are the first 32 bits of the fractions of the cube roots of the first 64 primes |
| Fips180Laws.InitialConstants | src/bin/package_extension.rs:36-39 | The initial hash value holds the first 32 bits of the fractions of square roots of primes |
| Fips180Laws.BlockWordReads | src/bin/package_extension.rs:42-48 | A word of a block is the number of its four bytes, the most significant first |
| Fips180Laws.BigEndianReads | src/bin/package_extension.rs:117-121 | The bytes written of a word read as its number |
| Fips180Laws.PaddingReads | src/bin/package_extension.rs:101-113 | After the message come the byte 0x80, zeros, and the length in bits |
| ExtensionHash.ComputeExtensionHash | src/bin/package_extension.rs:122-137 | The digest of the digests of the chunks of 1 MiB; an empty payload is one empty chunk |
| ExtensionHash.ChunkingUnique | src/bin/package_extension.rs:122-137 | A payload has only one cut into chunks, so its hash is well defined |
| FastHex.FastHexU64 | crates/raster-h3-core/src/encoding/fast_hex.rs:8-22 | The canonical text, written at the end of the buffer |
| FastHex.ParseHexU64 | crates/raster-h3-core/src/encoding/fast_hex.rs:25-43 | Accepts exactly 1 to 16 hexadecimal digits after trimming, and yields their value |
| FastHex.Nibbles | crates/raster-h3-core/src/encoding/fast_hex.rs:31-38 | The hexadecimal digits of both cases have their values, and nothing else is one |
| FastHex.TrimIs | crates/raster-h3-core/src/encoding/fast_hex.rs:26 | Trimming removes white space at both ends, as much as there is, and nothing else |
| FastHex.RoundTrip | crates/raster-h3-core/src/encoding/fast_hex.rs:8-43 | Every 64-bit number survives formatting and parsing |
| FastHex.Normalize | crates/raster-h3-core/src/encoding/fast_hex.rs:8-43 | Formatting the parse of an accepted text gives it trimmed, in lower case and without leading zeros |
| FastHex.CanonicalUnique | crates/raster-h3-core/src/encoding/fast_hex.rs:8-22 | A canonical text is determined by its value |
| FastHex.CanonicalShortest | crates/raster-h3-core/src/encoding/fast_hex.rs:8-22 | No hexadecimal text of the same value is shorter |
| CellHash.MixH3Bijective | crates/raster-h3-core/src/aggregator/cell_hash.rs:12-17 | The finalizer is a bijection on 64-bit words |
| CellHash.UnmixMix | crates/raster-h3-core/src/aggregator/cell_hash.rs:12-17 | An explicit inverse |
| CellHash.HashTwoCells | crates/raster-h3-core/src/aggregator/cell_hash.rs:37-48 | Two cells have equal hashes only if they are equal |
| CellHash.H3Hasher.WriteU64 | crates/raster-h3-core/src/aggregator/cell_hash.rs:43-48 | One word is folded into the state |
| CellHash.FoldInjective | crates/raster-h3-core/src/aggregator/cell_hash.rs:43-48 | From one state, distinct words lead to distinct states |
| CellHash.H3Hasher.Write | crates/raster-h3-core/src/aggregator/cell_hash.rs:49-62 | Full little-endian words, then the padded rest with the length mixed in |
| CellHash.WriteInjective | crates/raster-h3-core/src/aggregator/cell_hash.rs:49-62 | Byte strings with the same full words hash alike only when equal; in particular all strings shorter than eight bytes |

## Left out

- Sha256.Hash256: the bit length is taken modulo 2 to the 64, in the model as in the source, so the digest is that of the standard for messages under 2 to the 61 bytes, which is every message the standard defines.
- Accumulator.H3Accumulator.Update: arithmetic is over exact reals; rounding, overflow to infinity and signed zeros are not modelled.
- PartialMerger.Merger.PushEncoded: how many bytes a decoded state takes is a function of the encoded state that the model is given; the source derives it from its containers.
- Accumulator.H3Accumulator.ApplyAffine: requires that there is no sketch, as the source's debug assertion does; the release build would leave a sketch unmapped.
- Categorical.CategoricalAccumulator.UpdateWeighted: a NaN weight, which passes the source's guard, is not modelled.
- Categorical.CategoricalAccumulator.HistogramJson: the stack buffer and the heap buffer for the entries are one sequence.
- RecordBatches.AppendColumn: returns the joined column instead of extending the first one in place.
- PartialMerger.Merger.Push: the cells are kept in a map of values, so the accumulator of an occupied entry is replaced by the merged one instead of being updated in place.
- PartitionMerge.Stream.OpenNext: a file is a value with its header, schema and the outcomes of reading on; the I/O, the magic prefix and the JSON of headers are not modelled, and a file reads the same each time it is opened.
- WkbReader.Reader.Take: returns a slice; the fixed-size array type and the overflow check of the end position have no counterpart.
- Filters.TranslationSound: whether a literal's metadata declares planar edges in a lon/lat CRS is a flag of the literal, not parsed from JSON; the casts of literals to floating point are given with the literal.
- ScanConfig.Planner.Plan: the mapping of "no tile intersects the box" to an empty result and the check of projections are not modelled.
- PartitionPlan.CutTile: the width of a rectangle that is square in pixels comes from a square root and is a parameter; any width gives a correct plan.
- PartitionPlan.PlanPartitions: the fingerprint of a mosaic is given, not computed.
- BoundaryCells.BoundaryClassifier.Lookup: the box and the ancestors of a cell come from a parameter that stands for the H3 library.
- The scanner, its eviction horizon, spilling to disk, prefetching and the internals of the quantile sketch, which is a multiset of weighted samples here.
- The bytes of partial states: an encoded state is its content, and decoding inverts encoding.
- H3 geometry, projections between coordinate systems, TIFF decoding, Parquet, PMTiles and Arrow output.
- The margins in degrees that follow from kilometres and the cosine of the latitude: they are parameters.
- Standard deviation, quantiles, interquartile range and Shannon entropy.
- The long categorical format and the size accounting of accumulators.
- Command-line parsing, the PostgreSQL, DuckDB and Python bindings, the viewer, Spark glue and signing.
