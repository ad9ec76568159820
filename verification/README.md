# A verified model of the Tantivy table provider

A DataFusion table provider reads Tantivy indexes as SQL tables. A table is a list of splits, each an index of its own with its own schema; a split is a sequence of segments, and a segment a set of documents of which some are deleted. This project models the parts of the provider that decide which rows a query gets, and proves that they are the right ones. The code under `src/` is the subject; paths below are relative to the repository.

| module | subject |
|---|---|
| `Expressions`, `IndexQueries` | SQL filters with three-valued meaning, rows, documents, index queries and what they match |
| `FilterTranslation`, `FullText`, `Pushdown` | filters to queries, the analysis of what can be pushed down, and the scan with its residual filters |
| `ShownCells`, `LostRows` | what reading and coercion show of an indexed value, which types keep comparisons, and filters that lose rows |
| `DocChunks`, `SegmentScan`, `TopK`, `TableScan` | chunked iteration, row limit, cancellation and refusing receivers; ranked hits scattered to segments and gathered back |
| `StreamPipeline` | scanner thread, forwarder task and consumer over two bounded channels, as a state machine |
| `TypeCoercion`, `ArrowLists` | canonical schemas over many splits, coercion plans, list arrays, lane coalescing |
| `DictionaryColumns` | compact and cached dictionaries of string columns |
| `ScanSchema`, `BatchAssembly` | the schema of a scan, as planner and worker derive it, and output batches |
| `FilterCodec`, `PlanCodec` | plans sent to workers |
| `AggregationStates`, `AggregationPushdown`, `AggregationBatches`, `AggregationExec` | aggregates answered by the index, split by split |
| `CoercedAggregates` | for which types such aggregates are right |

Code that works step by step is modelled by classes and methods with loops: `SegmentScan.DocSet` and `SegmentScan.ScanRun` are the document iterator and the running scan, `ArrowLists.ListBuilder` the Arrow builder, and the top-k scatter writes into an array. They are proved against functions whose properties are proved as lemmas. Every induction is written out: lemmas carry `{:induction false}`, and small functions that code and contracts share have lemmas that say what they mean without them. `FilterTranslation`, the merge and the coercion planner are functions, as in the source.

## Main results

* **Pushdown preserves meaning.** For any splits with differing schemas and any filters, where the cells compared stand for the indexed values and the filters meet `Pushdown.Pushable`, scanning with the pushed query and applying the residual filters gives the rows of the unpushed scan (`Pushdown.ScanSplit`), on a worker too (`PlanCodec.WorkerScanAnswersTheQuery`). Which types make cells stand for values is decided exactly (`ShownCells.PushdownIsSafeWhen`), and so is which address comparisons are safe (`LostRows.AddressComparisonIsSafeWhen`). The Exact claims are honoured (`Pushdown.ExactClaimsAreHonoured`).
* **Scans deliver what they should.** `SegmentScan.ScanRun.EmitSegmentScanBatches` for every limit, batch size, block length, cancellation point and refusing receiver, over rows that `RowsAreTheWantedOnes` describes; `TopK.TopkRows` for ranked scans.
* **The stream is live and loses nothing.** `StreamPipeline.NeverStuck`, `MaximalExecutionsComplete`, `DeliveryIsOrdered`.
* **Schemas of many splits.** `TypeCoercion.InferCanonicalFastFieldSchema` says exactly when inference fails and which type each column gets; `JoinIsOrderIndependent` and `InferredSchemaIsExecutable`.
* **Aggregates answer the query.** `AggregationExec.AggregateTable` in one phase and `PartitionsAnswerTheAggregate` in two, from the filters of the query to the value of every group. For which types of a coerced column that is so is decided exactly: `CoercedAggregates.MetricIsRightWhen`, `CountIsRightWhen` and `BucketsAreGroupsWhen`.
* **Dictionaries and codec.** `DictionaryColumns.BuildDictionaryArray`, `PlanCodec.ShipPlan`.

## Where the code does not do what one would expect

The model follows the code. Each case has a lemma with the exact condition, a concrete input, or both.

* **Missing columns.** Any column that is not in a split's index schema is taken for a missing field whose comparison holds for no row (`tantivy_table_provider.rs:216`). That is wrong for `_doc_id` and `_segment_ord`, and for null-safe comparisons: `Pushdown.MissingLeafAnswer` is the exact condition, `LostRows.InternalColumnLosesRows` and `NullSafeComparisonLosesRows` are lost rows. It is wrong too for a column that a field of another name is shown under, its logical name (`LostRows.AliasedColumnLosesRows`); `ShownCells.ColumnIsNullWhen` says when there is none.
* **Coerced columns.** The index compares what it has, SQL what the table shows. A table with a supplied canonical schema may show a float field as integers, which truncates (`type_coercion.rs:351`), an integer field as floats, which rounds, or epoch milliseconds as a timestamp, which overflows (`type_coercion.rs:567`, wrapping around unless overflow checks are on); and dates are always read as microseconds (`fast_field_reader.rs:275`). `ShownCells.PushdownIsSafeWhen` is the exact condition on types; `LostRows.TruncationLosesRows`, `NanosecondsLoseRows` and `OverflowLosesRows` are lost rows. An inferred schema only turns types into lists, so of these only nanoseconds concern it.
* **Coerced aggregates.** Aggregates are computed from indexed values. Sums, minima, maxima and averages of a number field are right for all documents only under the field's own Arrow type, counts under any type that makes no value NULL, and groups under a type that shows the values as they are (`CoercedAggregates`). An integer field under a narrower integer type keeps all comparisons and still has wrong sums: `CoercedAggregates.NarrowedSumDiffers`; `CoercedSumDiffers` is the truncated float.
* **Addresses.** SQL compares an IP address column as text, the index as numbers. Equality is safe; inequality is safe only with a literal that is how its address is written, since an address has several texts; an order only if it is the same for texts and addresses on that side of the literal. `LostRows.AddressComparisonIsSafeWhen` is the exact condition for every operator and operand order; `AddressOrderLosesRows` and `AddressInequalityLosesRows` are lost rows.
* **Top-k padding.** `take_positions` has the length of the request, not of the hits (`tantivy_table_provider.rs:1951`). With fewer hits in two or more segments a row comes back again: `TopK.TopkExactWhen`, `TopK.PaddingRepeatsARow`.
* **Full-text lists and aggregates.** The rewritten aggregate is not given the negated calls and the groups of the scan (`agg_pushdown.rs:132-140`, `179-187`): `AggregationPushdown.AggregateSeesTheScanWhen`, `DroppedCallsAreSeen`.
* **Sums.** A sum over a group without any value is 0 instead of NULL: `AggregationStates.MetricIsSqlAnswer`, `EmptySumIsZero`.
* **Groups for NULL.** Documents without a group value are in no bucket: `AggregationStates.BucketsHoldAllWhen`, `NullGroupIsMissing`.
* **Names of counts.** A row count is found by the look of its name. An alias in a projection above the aggregate does not matter; an expression that is itself named otherwise, as by an alias inside the aggregate, has NULL for its count, and a batch with a non-nullable field for it is refused: `AggregationPushdown.RowCountColumn`, `AggregationBatches.RowCountIsTakenWhen`, `NamedRowCountIsRefused`. In one phase an aggregate of a literal, as `sum(1)`, is NULL: `AggregationPushdown.OnePhaseWithoutColumn`, `LiteralSumIsNull`.
* **Types of metrics.** Metrics come as doubles or 64-bit integers, and a batch with another type for one is refused, as for the minimum of a date: `AggregationBatches.OtherTypesAreRefused`.
* **String views.** Wrapping string views into lists is planned and then fails (`type_coercion.rs:289-294` and `665`): `TypeCoercion.PlannedCoercionRuns`, `StringViewListFails`. No fast field has that type, so inferred schemas are not concerned.
* **Compound filters.** AND and OR filters are not sent to workers: `FilterCodec.SurvivorsMeaning`. The residual filters make up for it.
* **A deadlock that only the drop guard ends.** `StreamPipeline.DeadlockIsReachable`, `OnlyTheGuardUnblocks`.

## Model

| member | source | states |
|---|---|---|
| `FilterTranslation.FilterIsPushdownSafe` | src/unified/tantivy_table_provider.rs:261-273 | a filter is pushed down exactly when on every split each comparison has a query or is about a column the index lacks, and on some split the filter can hold without those columns |
| `FilterTranslation.TermExistsWhen` | src/unified/tantivy_table_provider.rs:2217-2315 | exactly which literals become terms of which fields: integers within the field's bounds, whole doubles in them or just above, epoch milliseconds for signed fields, and values of the field's own kind; an address is what its text reads as |
| `FilterTranslation.TranslatesWhen` | src/unified/tantivy_table_provider.rs:2110-2201 | a filter has a query on a split exactly when each of its comparisons is one of the six operators between a fast field and a literal that has a term |
| `FilterTranslation.AnalysisMeaning` | src/unified/tantivy_table_provider.rs:183-259 | the analysis finds a filter unsupported exactly when some comparison neither has a query nor is about a missing column, and otherwise a query exactly when the tree can hold without the missing columns |
| `FilterTranslation.TermIsLiteral` | src/unified/tantivy_table_provider.rs:2217-2315 | a literal that becomes an index term is the same value for SQL as for the index, whatever the widths and units involved; floats beyond exact doubles and overflowing instants are shut out |
| `FilterTranslation.CellComparesAsValue` | src/unified/tantivy_table_provider.rs:2217-2315 | a cell that stands for an indexed value, timestamps for epoch milliseconds and conversely included, compares with every literal as the value does with the literal's term |
| `FilterTranslation.DistortedCellIsLost` | src/unified/tantivy_table_provider.rs:2110-2201 | a cell that does not stand for its value makes some comparison TRUE that the index does not match |
| `FilterTranslation.UnsafeAddressIsLost` | src/unified/tantivy_table_provider.rs:2300-2308 | where the condition on operator and literal fails, some address is lost: TRUE as text and not matched as number |
| `FilterTranslation.SafeBothWaysAgrees` | src/unified/tantivy_table_provider.rs:2300-2308 | where a comparison and its negation are safe, SQL and the index agree about every address |
| `FilterTranslation.LeafIsKept` | src/unified/tantivy_table_provider.rs:2110-2201 | one comparison, the column on either side: TRUE means matched, and matched means TRUE where the cell can be compared |
| `FilterTranslation.FlipSwapsOperands` | src/unified/tantivy_table_provider.rs:2204-2214 | flipping an operator is swapping its operands, over the total order of every kind of value |
| `FilterTranslation.ComparisonQueryMeaning` | src/unified/tantivy_table_provider.rs:2157-2200 | the term and range queries built for a comparison match exactly the documents whose key satisfies it; inequality as two open ranges; a term query is never used where postings are of tokens or there are none |
| `FilterTranslation.TranslationIsExact` | src/unified/tantivy_table_provider.rs:2110-2201 | where cells stand for indexed values and can be compared with the literals, a translated filter matches a document if and only if the filter is TRUE of its row in three-valued logic, addresses included where the comparison and its negation are safe |
| `FilterTranslation.TranslationIsSound` | src/unified/tantivy_table_provider.rs:2110-2201 | where the cells shown stand for the indexed values, whatever becomes NULL or incomparable, a translated filter matches every document it is TRUE of, addresses included |
| `Pushdown.MissingLeafAnswer` | src/unified/tantivy_table_provider.rs:207-218 | a comparison of a column the index schema lacks is answered with no row; where no other field is shown under its name, that is right on every document exactly when NULL, or an id for an internal column, can never make the comparison TRUE |
| `Pushdown.MissingFieldIsNeverTrue` | src/unified/tantivy_table_provider.rs:183-259 | a filter analysed as missing a field is TRUE of no document that shows the missing columns as NULL: an AND needs one missing side that cannot be TRUE, an OR both |
| `Pushdown.BuildSplitFastFieldQuery` | src/unified/tantivy_table_provider.rs:275-302 | what the split's query lets through: the first filter without a query decides (missing field: nothing, unsupported: everything), otherwise all translated filters must match |
| `Pushdown.PushedQueryKeepsRows` | src/unified/tantivy_table_provider.rs:183-302 | the pushed query never drops a document on which every pushed filter is TRUE; literals, addresses and cells matter only for filters that have a query |
| `Pushdown.SupportsFiltersPushdown` | src/unified/tantivy_table_provider.rs:702-719 | every filter is reported Exact, Inexact or Unsupported as its full-text shape and its safety over all splits demand |
| `Pushdown.CollectPushedDownFilters` | src/unified/tantivy_table_provider.rs:592-618 | each filter goes to the one list its shape selects, in order |
| `Pushdown.CallsAreCollected` | src/unified/tantivy_table_provider.rs:592-618 | a call `full_text(field, query)` and its negation put exactly that field and query at the end of the required and of the negated calls, and touch nothing else |
| `Pushdown.ReportsPartTheFilters` | src/unified/tantivy_table_provider.rs:702-719 | a row satisfies all filters if and only if it satisfies the Exact, the Inexact and the unsupported ones |
| `Pushdown.FastFieldFiltersAreTheInexactOnes` | src/unified/tantivy_table_provider.rs:592-618 | the filters handed to the index as fast-field filters are exactly those reported Inexact |
| `Pushdown.ExactFiltersLandOnce` | src/unified/tantivy_table_provider.rs:592-618 | the three full-text lists are the calls of the required, the negated and the alternative filters among those reported Exact, each filter in the list of its one kind, in order |
| `Pushdown.ExactClaimsAreHonoured` | src/unified/tantivy_table_provider.rs:592-636 | on every split, the three full-text lists mean the conjunction of the filters reported Exact |
| `Pushdown.ScanAndResidualAnswerTheQuery` | src/unified/tantivy_table_provider.rs:183-302 | a document passes the scan and the filters kept above it if and only if the row shown for it satisfies the query, for any splits with differing schemas |
| `Pushdown.ScanSplit` | src/unified/tantivy_table_provider.rs:1364-1432 | the rows of one split's scan, after the residual filters, are the rows of the unpushed scan, in order; the scan fails exactly when a query text that is reached does not parse |
| `Pushdown.PartitionsAnswerTheTable` | src/unified/tantivy_table_provider.rs:1504-1506 | partitions that each answer their split under the residual filters answer the whole table, in split order |
| `ShownCells.KeepsComparisonsIsExact` | src/type_coercion.rs:227-355 | by field type and table type, exactly when every cell a coercion produces stands for the indexed value: integers in integer types, floats as doubles, dates that no unit on the way cuts and no zone shifts |
| `ShownCells.PushdownIsSafeWhen` | src/type_coercion.rs:227-355 | comparisons of a column lose no row, whatever value and literal, if and only if field type and table type are such a pair |
| `ShownCells.TypesMakePushable` | src/unified/tantivy_table_provider.rs:394-452 | a table whose types keep comparisons meets what the scan asks of cells |
| `ShownCells.ColumnIsNullWhen` | src/type_coercion.rs:91-140 | a column is NULL throughout a split exactly when no field has its name, as its own or as its logical one |
| `LostRows.InternalColumnLosesRows` | src/unified/tantivy_table_provider.rs:216-218 | a filter over `_doc_id` in an OR loses a row of a split that lacks the other column |
| `LostRows.NullSafeComparisonLosesRows` | src/unified/tantivy_table_provider.rs:216-218 | a null-safe comparison of a missing column loses every row of a split |
| `LostRows.AliasedColumnLosesRows` | src/unified/tantivy_table_provider.rs:216-218 | a field shown under a logical name is taken for missing, and a filter of that name loses its row |
| `LostRows.AddressComparisonIsSafeWhen` | src/unified/tantivy_table_provider.rs:2110-2201 | all six operators, both operand orders: a pushed comparison of an address column drops no row if and only if the literal is safe for the operator; equality always, inequality if the literal is how its address is written, an order if every text on that side is an address on that side |
| `LostRows.AddressOrderLosesRows` | src/unified/tantivy_table_provider.rs:2300-2308 | 10.0.0.1 is dropped by a filter for addresses below 9.0.0.0 |
| `LostRows.AddressInequalityLosesRows` | src/unified/tantivy_table_provider.rs:2190-2199 | 10.0.0.1 is dropped by `ip != '::ffff:10.0.0.1'`, whose text differs and whose address does not |
| `LostRows.LostValueIsLostRow` | src/unified/tantivy_table_provider.rs:183-302 | a value that a coercion loses for a comparison is a row that the scan of such a table drops |
| `LostRows.TruncationLosesRows` | src/type_coercion.rs:343-355 | 5.7, shown as 5 in an integer column, is dropped by `x = 5` and `x <= 5` |
| `LostRows.NanosecondsLoseRows` | src/fast_field_reader.rs:264-286 | a date with nanoseconds is shown in microseconds and dropped by a comparison that its cell satisfies |
| `LostRows.OverflowLosesRows` | src/type_coercion.rs:554-571 | the largest epoch milliseconds wrap around as microseconds, and are dropped by `ts < 0` |
| `ShownCells.CutTowardZero` | src/type_coercion.rs:532-552 | dividing and casting cut toward zero: never past it, and by less than a unit |
| `ShownCells.WrapsAround` | src/type_coercion.rs:554-571 | milliseconds times 1000 are taken modulo 2^64 into the signed range, and left alone within it |
| `Expressions.ExtractorFindsCalls` | src/full_text_udf.rs:90-119 | a field and a query are found exactly in a call of `full_text` whose first argument names the field, as a column, a text, or a column under a cast, and whose second is the query |
| `Expressions.CallMeaning` | src/full_text_udf.rs:86-140 | such a call is TRUE of exactly the rows whose field is hit by the query, its negation of the others, whatever form the first argument has |
| `FullText.CollectFullTextDisjunction` | src/full_text_udf.rs:153-171 | flattening succeeds exactly on OR trees of calls, appends the calls in order, and never removes what was pushed |
| `FullText.ExtractFullTextOrGroup` | src/full_text_udf.rs:147-151 | a group is found exactly for an OR tree made of calls only |
| `FullText.DisjunctsMeaning` | src/full_text_udf.rs:147-171 | flattening an OR tree keeps its meaning, and that meaning is never UNKNOWN |
| `FullText.FullTextFilterMeaning` | src/full_text_udf.rs:121-140 | a call, or one under a single NOT, means a hit or its absence, and is never UNKNOWN |
| `FullText.KeptCallsMeaning` | src/unified/tantivy_table_provider.rs:620-636 | dropping calls on fields that no split has changes no row's answer |
| `FullText.ExistingFullTextGroup` | src/unified/tantivy_table_provider.rs:620-636 | exactly the calls on fields of some split are kept, in order |
| `FullText.BuildGroupQuery` | src/util.rs:46-58 | a group matches the documents hit by one of its calls, a call on an absent field being false; it fails exactly when a text that belongs to a field of the split does not parse |
| `FullText.BuildCombinedQuery` | src/util.rs:19-84 | the combined query is the conjunction of the fast-field query, the required calls, the negated calls and the groups; it fails exactly when a rejected text comes before a missing required field |
| `DocChunks.ChunksCover` | src/util.rs:102-129 | chunks concatenate to the rows and are never longer than the batch size |
| `DocChunks.StopIsFinal` | src/unified/tantivy_table_provider.rs:2044-2100 | nothing is delivered after the sink has stopped |
| `DocChunks.DeliveredRows` | src/unified/tantivy_table_provider.rs:2080-2095 | the rows delivered are the first rows within the budget, and a prefix of them once the receiver is gone |
| `DocChunks.DeliveredSizes` | src/unified/tantivy_table_provider.rs:2080-2095 | delivered batches are never empty and never longer than the longest chunk |
| `DocChunks.RefusedWhen` | src/unified/tantivy_table_provider.rs:2044-2100 | a sink was refused exactly when not every batch it offered was taken |
| `SegmentScan.DocSet.FillBuffer` | src/util.rs:205-212 | the block holds the next documents in order, and fewer than its length only at the end |
| `SegmentScan.ScanRun.OnChunk` | src/unified/tantivy_table_provider.rs:2080-2095 | a chunk is clipped to what remains of the row budget, the budget is spent, and the scan goes on only with budget left and the receiver in place |
| `SegmentScan.ScanRun.ExecuteScoredQueryChunks` | src/util.rs:141-182 | the document-at-a-time pass delivers the chunks of the live matching documents with their scores, or on cancellation some first ones |
| `SegmentScan.ScanRun.ExecuteUnscoredQueryChunks` | src/util.rs:184-230 | the block-filled pass delivers the same chunks without scores, for every block length |
| `SegmentScan.ScanRun.ExecuteFullScanChunks` | src/util.rs:232-259 | the pass without a query delivers the chunks of all live documents |
| `SegmentScan.ScanRun.ForEachMatchingDocChunks` | src/util.rs:269-305 | each combination of query and score runs the pass for it |
| `SegmentScan.ScanRun.EmitSegmentScanBatches` | src/unified/tantivy_table_provider.rs:2044-2100 | undisturbed, the batches hold exactly the first rows within the limit in (segment, document) order; cancelled or refused, a prefix of them; no batch exceeds the batch size, and each is offered after a look at the cancel flag of its own |
| `SegmentScan.PassesAgree` | src/util.rs:141-259 | block-filled iteration cuts the same chunks as document-at-a-time iteration, boundaries included, and both cut those of the full scan when every document matches |
| `SegmentScan.PassRowsAreTheLiveDocs` | src/util.rs:141-259 | the rows of a pass are exactly the visited live documents, once each and in increasing order |
| `SegmentScan.RowsAreTheWantedOnes` | src/util.rs:141-305 | the rows of all segments, without the passes that make them: the live documents that match, or all without a query, each once, with its own score if scores are wanted, by segment and then by number |
| `TopK.GroupTopkHits` | src/unified/tantivy_table_provider.rs:1929-1942 | every segment with a hit gets its hits in rank order |
| `TopK.RowsOfSegmentAreItsHits` | src/unified/tantivy_table_provider.rs:1929-1942 | a segment's rows copy the hits of their ranks, ranks increase, and none is missing |
| `TopK.CollectTopkRows` | src/unified/tantivy_table_provider.rs:1974-1991 | at each row's rank stands the row's place in the concatenation, and no other entry changes |
| `TopK.BuildTopkSegmentBatches` | src/unified/tantivy_table_provider.rs:1944-1972 | batches come in segment order, and the position written for hit i is that of a row that is hit i |
| `TopK.ReorderTopkBatches` | src/unified/tantivy_table_provider.rs:1993-2020 | the concatenated batches in take order; a single batch as it is |
| `TopK.TopkRows` | src/unified/tantivy_table_provider.rs:1889-2020 | row i of the answer is hit i for every hit; what follows, with hits in two segments or more, repeats the first row of the concatenation; no offset overflows below the guard |
| `TopK.TopkExactWhen` | src/unified/tantivy_table_provider.rs:1944-2020 | the answer is exactly the ranked hits if and only if they fill the request or lie in one segment |
| `TopK.PaddingRepeatsARow` | src/unified/tantivy_table_provider.rs:1951-1951 | two hits in two segments, asked for as three, come back as three rows |
| `TableScan.EmitSlicedBatch` | src/unified/tantivy_table_provider.rs:2022-2042 | the batches emitted are the chunks of the rows, and a prefix of them on a cancelled or refused run |
| `TableScan.EmitTopkBatches` | src/unified/tantivy_table_provider.rs:1889-1927 | the top-k answer, sliced; an error exactly for a k above 32 bits or a missing query |
| `TableScan.GenerateTantivyTableBatches` | src/unified/tantivy_table_provider.rs:1849-1865 | undisturbed and without a k, all rows if there is no row limit, and else the first that many; with a k, the top-k answer for the smaller of k and the row limit; an error exactly for a k above 32 bits or without a query; a flag set before the n-th look leaves at most n batches |
| `StreamPipeline.StepKeepsInv` | src/unified/tantivy_table_provider.rs:1364-1485 | every step of scanner, forwarder and consumer keeps the channels bounded and loses, repeats and reorders nothing |
| `StreamPipeline.StepDecreasesMeasure` | src/unified/tantivy_table_provider.rs:1364-1485 | every step makes the remaining work smaller |
| `StreamPipeline.NeverStuck` | src/unified/tantivy_table_provider.rs:1392-1457 | in every reachable state that is not final some step other than dropping the stream is possible |
| `StreamPipeline.DeliveryIsOrdered` | src/unified/tantivy_table_provider.rs:1241-1485 | at every moment the consumer has read a prefix of the filled batches in order, with an error only after all of them; at the end of the stream it has read everything |
| `StreamPipeline.NothingIsLost` | src/unified/tantivy_table_provider.rs:1364-1457 | read, waiting, in hand and in the raw channel together are exactly what the scanner handed over, in order |
| `StreamPipeline.ExecutionsAreShort` | src/unified/tantivy_table_provider.rs:1364-1485 | every execution is finite, with at most six steps a batch |
| `StreamPipeline.UndroppedDeliversAll` | src/unified/tantivy_table_provider.rs:1364-1485 | a consumer that never drops the stream has read everything when it is done |
| `StreamPipeline.MaximalExecutionsComplete` | src/unified/tantivy_table_provider.rs:1364-1485 | an execution that can only go on by a drop has all three parties finished, and everything delivered if nothing was dropped |
| `StreamPipeline.CancelledScannerStops` | src/util.rs:141-259 | a scanner that sees the flag can stop at once, without an error and without another batch |
| `StreamPipeline.CancelIsPrompt` | src/unified/tantivy_table_provider.rs:60-71 | once the drop guard has gone, and where looks see the flag, the batch being offered is the scanner's last |
| `StreamPipeline.OnlyTheGuardUnblocks` | src/unified/tantivy_table_provider.rs:60-71 | a scanner blocked on a full channel whose receiver the waiting forwarder holds is freed by the drop guard's abort and by nothing else |
| `StreamPipeline.DeadlockIsReachable` | src/unified/tantivy_table_provider.rs:1446-1457 | a stream of four batches dropped during a send reaches that state |
| `TypeCoercion.MergeCommutes` | src/type_coercion.rs:573-597 | merging two types gives the same type, or the same failure, in either order |
| `TypeCoercion.MergeAssociates` | src/type_coercion.rs:573-632 | merging three types gives the same type, or the same failure, in either grouping, for all types |
| `TypeCoercion.MergeMeaning` | src/type_coercion.rs:573-632 | exactly which of all types merge and into what: equal ones into themselves, different ones into lists of the single type they share, or of strings if both can be written as strings |
| `TypeCoercion.FastTypesMergeWhen` | src/type_coercion.rs:573-632 | two types of fast fields fail to merge exactly when one holds bytes and the other does not |
| `TypeCoercion.SchemasJoin` | src/type_coercion.rs:49-89 | over derived schemas, a column has its one type, or the list of the single type it has everywhere, or else a list of strings; bytes next to anything else are a conflict |
| `TypeCoercion.JoinLaws` | src/type_coercion.rs:573-597 | with absence and conflict added, merging is a total commutative, associative and idempotent join |
| `TypeCoercion.JoinIsOrderIndependent` | src/type_coercion.rs:49-89 | any permutation of the split schemas gives a column the same merged type or the same conflict |
| `TypeCoercion.JoinIsUpperBound` | src/type_coercion.rs:49-89 | the merged type absorbs the type of every split |
| `TypeCoercion.InferCanonicalFastFieldSchema` | src/type_coercion.rs:49-89 | the inferred schema has the internal columns first, no name twice, and every column under the join of its types; over derived schemas it fails exactly for no split or a column that holds bytes in one field and something else in another, and every column is nullable and has the common type of its types |
| `TypeCoercion.PlannedCoercionRuns` | src/type_coercion.rs:227-330 | a planned coercion can be applied and gives the target type exactly when it does not wrap values into lists of a type without a list builder |
| `TypeCoercion.CoercionExistsWhen` | src/type_coercion.rs:263-384 | exactly between which types a coercion is planned: numbers, instants and numerals as single values or in lists, texts, numbers, instants and booleans into texts, single values into lists, microseconds and milliseconds into each other; equal types need none |
| `TypeCoercion.StringViewListFails` | src/type_coercion.rs:289-294 | string views next to lists of string views merge and plan, and then fail |
| `TypeCoercion.DerivedSchema` | src/schema_mapping.rs:120-149 | schemas derived from an index hold fast-field types only |
| `TypeCoercion.BelowMeansCoercible` | src/type_coercion.rs:263-330 | a type that a merge has absorbed can be coerced to the merged type, and the coercion runs |
| `TypeCoercion.InferredSchemaIsExecutable` | src/type_coercion.rs:49-132 | for every split of derived schemas the projection onto the inferred schema is planned, and every planned coercion can be applied and gives the column its type |
| `TypeCoercion.SourcesAreTheCalled` | src/type_coercion.rs:91-140 | the sources of a column are exactly the fields of that name, their own or their logical one, in the order of the split, each with its planned coercion |
| `TypeCoercion.ProjectionRunsWhen` | src/type_coercion.rs:91-140 | for any schemas, supplied ones and ones with aliases included, the projection is planned and runs if and only if every field called like a column, by name or as an alias, has a type that can become the column's |
| `ArrowLists.ListBuilder.Append` | src/type_coercion.rs:634-669 | closing a row appends exactly the elements pushed since the last close, or NULL |
| `ArrowLists.WrapScalarArrayInList` | src/type_coercion.rs:774-802 | each value becomes a one-element list and NULL stays NULL, with offsets that never fall and end at the value count |
| `ArrowLists.BuildListFromValues` | src/fast_field_reader.rs:400-417 | each document's row is the list of its values, possibly empty, never NULL |
| `ArrowLists.TryCastList` | src/type_coercion.rs:465-514 | every list keeps its length, elements are NULL exactly where NULL or unparsable, NULL rows stay NULL |
| `ArrowLists.SourceValuePresentMask` | src/type_coercion.rs:200-225 | a row is present exactly if its value is not NULL, or if it is a list that is not NULL and spans an element that is not NULL |
| `ArrowLists.CoalesceProjectedArrays` | src/type_coercion.rs:185-198 | row by row the first lane whose row is present, otherwise the last lane's row, with the row count kept |
| `ArrowLists.FirstPresentMeaning` | src/type_coercion.rs:185-225 | the coalesced row is that of the first lane with a value in it, or the last lane's if there is none; a list of NULLs has no value and yields to the next lane |
| `DictionaryColumns.BinarySearch` | src/fast_field_reader.rs:577-579 | finds an element of an increasing sequence, or the place where inserting it keeps the order |
| `DictionaryColumns.CollectOrdinals` | src/fast_field_reader.rs:571-583 | the ordinals seen stay strictly increasing and are exactly those referenced |
| `DictionaryColumns.CompactKeys` | src/fast_field_reader.rs:596-609 | the second search never misses, every key leads back to its document's ordinal, and the only error is more than 2^31 terms |
| `DictionaryColumns.BuildCompactDictArray` | src/fast_field_reader.rs:565-615 | decodes to each document's first term, with one value per referenced term, keys in the order of the ordinals and none above its ordinal; fails exactly for more than 2^31 referenced terms |
| `DictionaryColumns.BuildCache` | src/fast_field_reader.rs:26-56 | under each name the cache holds the whole dictionary, in ordinal order, of the last dictionary field of that name that the segment has, and nothing else |
| `DictionaryColumns.BuildCachedDictArray` | src/fast_field_reader.rs:302-320 | decodes to each document's first term; fails exactly when a referenced ordinal exceeds the key type |
| `DictionaryColumns.CompactFitsWhereCachedDoes` | src/fast_field_reader.rs:565-623 | wherever the cached array can be built, the compact one can |
| `DictionaryColumns.BuildDictionaryArray` | src/fast_field_reader.rs:288-323 | with or without a cache of the field's own dictionary the column shows each document's first term, or NULL where it has none, and a missing field is NULL |
| `ScanSchema.AddRequiredFastFieldIndices` | src/unified/tantivy_table_provider.rs:563-583 | adds the address columns when documents are wanted and a column when there is none, increasing and without repeats; fails exactly when an internal column is missing |
| `ScanSchema.PlanScanSchema` | src/unified/tantivy_table_provider.rs:511-560 | the planner's scan schema: fields in projection order, flags for score and document, and the fast fields needed, each once and in schema order |
| `ScanSchema.BuildTantivyTableScanSchema` | src/codec.rs:168-247 | the worker's scan schema meets the same description |
| `ScanSchema.PlanIsDetermined` | src/codec.rs:168-247 | canonical schema and projection determine the scan schema, and the canonical schema can be read back from it: planner and worker agree |
| `ScanSchema.PlanShowsTheProjection` | src/unified/tantivy_table_provider.rs:511-560 | the unified schema is the canonical one, `_score` and `_document`; shown is what the projection names, in its order, and everything without one; score and document are attached exactly when they are shown |
| `ScanSchema.PlanReadsWhatIsNeeded` | src/unified/tantivy_table_provider.rs:511-583 | a fast field is read exactly when it is shown, is an address and documents are wanted, or is the first address and no fast field is shown |
| `ScanSchema.EveryColumnIsRead` | src/unified/tantivy_table_provider.rs:511-583 | every projected fast field, and both addresses when documents are wanted, are among the columns read, and there is always one |
| `BatchAssembly.BuildChunk` | src/unified/tantivy_table_provider.rs:1730-1820 | never reports a column missing; the batch has the addresses that were not projected, only when documents are wanted, and then the projected fields without the document, each holding what its name says, and score i in row i |
| `BatchAssembly.FillDocumentColumn` | src/unified/tantivy_table_provider.rs:1633-1700 | the wanted fields in order, each from the batch or from the documents at the row's addresses; fails exactly when a column is missing or a document cannot be fetched |
| `BatchAssembly.FinalBatch` | src/unified/tantivy_table_provider.rs:1432-1445 | a chunk of a planned scan arrives with exactly the projected columns in order, each holding what its name says, with score i in row i and NULL without scores, and fails only when a wanted document cannot be fetched |
| `FilterCodec.IntRoundTrip` | src/unified/tantivy_table_provider.rs:2463-2513 | decimal text read back gives the number, for every integer width and the most negative values |
| `FilterCodec.TagIsUnambiguous` | src/unified/tantivy_table_provider.rs:2464-2515 | a timestamp tag gives back its unit and its timezone, whatever the timezone's characters, and no other unit |
| `FilterCodec.TimestampOnTheWire` | src/unified/tantivy_table_provider.rs:2463-2502 | the tag of a timestamp names its unit as `ts_s`, `ts_ms`, `ts_us` or `ts_ns`, and its timezone after a colon |
| `FilterCodec.ScalarRoundTrip` | src/unified/tantivy_table_provider.rs:2463-2577 | every literal that has a tag is decoded to itself |
| `FilterCodec.EncodableHasRecord` | src/unified/tantivy_table_provider.rs:2333-2375 | a filter is sent if and only if it is one comparison of a column with a non-null literal of a known type |
| `FilterCodec.FiltersRoundTrip` | src/unified/tantivy_table_provider.rs:2333-2460 | decoding what was encoded gives the comparisons among the filters, with the column on the left |
| `FilterCodec.ReencodingIsStable` | src/unified/tantivy_table_provider.rs:2333-2375 | encoding what was decoded gives the same records |
| `FilterCodec.NormalizeKeepsMeaning` | src/unified/tantivy_table_provider.rs:2339-2354 | putting the column on the left changes neither a filter's truth on any row nor its index query nor its analysis |
| `FilterCodec.SurvivorsMeaning` | src/unified/tantivy_table_provider.rs:2333-2460 | what arrives means the conjunction of the comparisons: compound filters are dropped, none is altered |
| `FilterCodec.QueriesRoundTrip` | src/unified/tantivy_table_provider.rs:2381-2422 | rebuilding the queries of one split succeeds exactly when every comparison has a query there, and gives the planner's queries |
| `PlanCodec.EncodeTantivyTablePlan` | src/codec.rs:249-299 | a scan can be sent exactly when projection indices, k and row limit fit 32 bits |
| `PlanCodec.DecodeTantivyTable` | src/codec.rs:403-473 | a worker fails exactly for a missing internal column or an unreadable filter; otherwise it has the scan schema of the canonical schema and the projection |
| `PlanCodec.ShipPlan` | src/codec.rs:249-473 | a planned scan arrives equal to what was sent, but for the filters that are no single comparison |
| `PlanCodec.WorkerScanAnswersTheQuery` | src/codec.rs:403-473 | losing filters on the way costs no row and adds none: the worker's scan under the residual filters gives the rows of the query |
| `AggregationStates.StateAppend` | src/unified/agg_exec.rs:102-116 | merging the states of two lots of documents is accumulating over both |
| `AggregationStates.CollectAppend` | src/unified/agg_exec.rs:102-116 | merging the buckets of two splits is grouping both together |
| `AggregationStates.MergeIntermediateAggResults` | src/unified/agg_exec.rs:102-116 | popping the last result and folding the others into it gives the aggregation over all splits |
| `AggregationStates.AnySplitOrder` | src/unified/agg_exec.rs:102-116 | the merged result is the same for every order of the splits |
| `AggregationStates.MetricIsSqlAnswer` | src/unified/agg_exec.rs:896-907 | the merged value is SQL's answer over the group, any values for a count and numbers for the other metrics, exactly when it is no sum or the group has a value |
| `AggregationStates.TwoPhasesAnswerTheQuery` | src/unified/agg_pushdown.rs:151-199 | for a group column shown as indexed and a column shown as the metric needs it, the final value over the partial rows of all splits is the merged value, and SQL's answer unless it is a sum over no value |
| `AggregationStates.BucketAnswersSql` | src/unified/agg_exec.rs:896-907 | the merged value of a bucket is SQL's answer over the group of the table under the same condition; for a count it is enough that nothing is NULL on one side only |
| `AggregationStates.BucketsHoldAllWhen` | src/unified/agg_exec.rs:349-391 | the buckets hold all documents if and only if every document has a group value; SQL's group for NULL has no bucket |
| `AggregationStates.NullGroupIsMissing` | src/unified/agg_exec.rs:349-391 | a document without a group value is in no bucket, though the table has a row for it |
| `AggregationStates.EmptySumIsZero` | src/unified/agg_exec.rs:896-907 | the sum of a group with no number is 0, where SQL's answer is NULL |
| `CoercedAggregates.KeepsValuesIsExact` | src/type_coercion.rs:227-355 | by field type and table type, exactly when the table shows every value as it is indexed |
| `CoercedAggregates.MetricIsRightWhen` | src/unified/agg_pushdown.rs:132-140 | sum, minimum, maximum and average of a number field are SQL's over all documents if and only if the table has the field under its own Arrow type |
| `CoercedAggregates.CountIsRightWhen` | src/unified/agg_pushdown.rs:132-140 | a count is SQL's over all documents if and only if the table's type makes no value NULL |
| `CoercedAggregates.TypesAnswer` | src/unified/agg_pushdown.rs:132-140 | under those types a column of any documents can be aggregated from the index |
| `CoercedAggregates.BucketsAreGroupsWhen` | src/unified/agg_exec.rs:349-391 | the buckets are SQL's groups, keys and documents, over all documents if and only if the table shows the group column's values as indexed |
| `CoercedAggregates.CoercedSumDiffers` | src/type_coercion.rs:343-355 | 5.7, shown as 5 in an integer column, is summed as 5.7 where SQL has 5 |
| `CoercedAggregates.NarrowedSumDiffers` | src/type_coercion.rs:343-355 | an integer that does not fit the table's narrower type is NULL there, and summed and counted all the same, though all comparisons are kept |
| `AggregationPushdown.DeriveTantivyPartialAggregations` | src/unified/agg_pushdown.rs:344-441 | derived exactly for one group column and the functions count, sum, min, max and avg; every state column then has its own sub-aggregation |
| `AggregationPushdown.DeriveTantivyAggregations` | src/unified/agg_pushdown.rs:261-342 | derived exactly for one group column and the functions count, sum, min, max and avg, an argument that is no column being passed over; every output then has its own sub-aggregation |
| `AggregationPushdown.MetricIsFunction` | src/unified/agg_pushdown.rs:301-309 | the functions that have a metric are exactly count, sum, min, max and avg, and the metric's answer is SQL's for the function of that name |
| `AggregationPushdown.CountNames` | src/unified/agg_exec.rs:532-543 | a name looks like a count exactly when it is `doc_count` or begins with `count(` in lower or upper case |
| `AggregationBatches.TermsBucketToPartialStateBatch` | src/unified/agg_exec.rs:393-434 | the first column holds the keys, every other the values of its name, bucket by bucket; fails exactly when the keys' field has a type without a key column, another field is no double or 64-bit integer, or a NULL is not allowed |
| `AggregationPushdown.CellsCarryStates` | src/unified/agg_exec.rs:393-434 | the state columns of an expression over a column carry exactly its states, an average as count and sum |
| `AggregationPushdown.RowCountColumn` | src/unified/agg_exec.rs:532-543 | the cell of a row count is right exactly when its name looks like a count, and NULL otherwise |
| `AggregationPushdown.RewrittenAggregateAnswersTheQuery` | src/unified/agg_pushdown.rs:151-199 | for every group and every expression over a column shown as its function needs it, the final aggregate over the rewritten partial rows is the answer of the SQL function of that name, unless it is a sum over no value |
| `AggregationPushdown.RowCountsAddUp` | src/unified/agg_pushdown.rs:344-441 | the row counts of a group, split by split, add up to its number of documents, and a group without documents has no partial row |
| `AggregationPushdown.OnePhaseAnswersTheQuery` | src/unified/agg_pushdown.rs:114-146 | in one phase the output of an expression over a column shown as its function needs it is the answer of the SQL function of that name, under the same condition |
| `AggregationPushdown.OnePhaseWithoutColumn` | src/unified/agg_pushdown.rs:282-295 | without a column argument the output is the document count if its name looks like a count, and NULL otherwise |
| `AggregationPushdown.LiteralSumIsNull` | src/unified/agg_pushdown.rs:282-295 | `sum(1)` is NULL over any documents |
| `AggregationBatches.TermsBucketToBatch` | src/unified/agg_exec.rs:349-391 | the keys under the name of the group field, every other column by name, bucket by bucket; fails exactly without fields, for a document count beyond 64 signed bits or in a field of another type than that, for a key or number field of a type without such a column, or where a NULL is not allowed |
| `AggregationBatches.OtherTypesAreRefused` | src/unified/agg_exec.rs:836-872 | a metric in a field that is no double or 64-bit integer, as the minimum of a date, is refused by the batch |
| `AggregationBatches.RowCountIsTakenWhen` | src/unified/agg_exec.rs:393-434 | a non-nullable field takes a row count if and only if its name looks like a count, or there is no group |
| `AggregationBatches.NamedRowCountIsRefused` | src/unified/agg_exec.rs:393-434 | a row count whose expression has a name of its own is NULL, and the partial batch is refused |
| `AggregationPushdown.AggregateSeesTheScanWhen` | src/unified/agg_pushdown.rs:132-140 | on a split, an aggregate sees the documents of the scan exactly when a required call is on a field the split lacks, or no negated call is on a field it has and every group contains a required call |
| `AggregationPushdown.DroppedCallsAreSeen` | src/unified/agg_pushdown.rs:132-140 | a document that a negated call, or a group, keeps out of the scan is aggregated |
| `AggregationExec.ExecuteSplitIntermediateAgg` | src/unified/tantivy_agg_data_source.rs:777-828 | a split aggregates the documents that pass its fast-field query and the required calls |
| `AggregationExec.ExecuteFinalAggBatch` | src/unified/tantivy_agg_data_source.rs:643-699 | the batch of all splits: a row for every group of all their documents, every column by name; the only errors are cancellation, a rejected call, which always is one, and a field that does not fit |
| `AggregationExec.MergeSplits` | src/unified/tantivy_agg_data_source.rs:668-691 | the merged buckets are the aggregation of all documents of all splits; it succeeds only if no look at the flag saw it set |
| `AggregationExec.SeenAreTheQuerysRows` | src/unified/tantivy_agg_data_source.rs:777-938 | where the rewrite takes place and drops nothing, the documents aggregated on all splits are the rows of the table that satisfy the query, in order |
| `AggregationExec.AggregateTable` | src/unified/agg_pushdown.rs:114-146 | a whole one-phase aggregate query: the batch has SQL's groups as rows, that for NULL apart, over the rows that satisfy the query; every expression over a column shown as its function needs it has in every row the answer of the SQL function of that name, or is a sum over no value, and a row count under its usual name has the number of rows |
| `AggregationExec.PartitionsAnswerTheAggregate` | src/unified/agg_pushdown.rs:151-199 | the same in two phases: the final aggregate over the partitions' partial rows is the answer of the SQL function of that name over the rows that satisfy the query |
| `AggregationExec.PartitionsCountTheRows` | src/unified/agg_pushdown.rs:151-199 | in two phases the row counts of the partitions add up to the number of the group's rows that satisfy the query |
| `AggregationExec.PartitionsReadEverySplitOnce` | src/unified/tantivy_agg_data_source.rs:466-591 | the announced partitions read every split once, in order, and none of them for nothing; every other partition is empty |

## Left out

- Query parsing, scoring, collectors and term dictionaries of Tantivy: a document carries the set of calls that hit it, a collector returns the first k of a ranking, and a document set is an increasing sequence.
- DataFusion's optimizer, physical plans and expression evaluation: the residual filters and the final aggregate are reference functions, and the plan-tree walk that finds and replaces the partial aggregate is not modelled.
- Preparing splits, warmup, execution pools, metrics, statistics, `Display` code and session configuration.
- Bytes on the wire: protobuf, JSON, base64 and float printing are pairs of a printer and a parser that give the literals of the plan back.
- Float arithmetic: numbers are exact reals, and casts to float types round by a kernel of which only single values are known. Float literals of magnitude 2^53 or more against integer fields, and date literals beyond 64 bits of nanoseconds, are shut out by `LiteralIsExact`.
- Filters over multi-valued columns: a document has at most one value per column in `FilterTranslation` and `Pushdown`, and a cell that is a list is compared with no literal.
- Tokenizers: a term of a text field is posted for the documents that a full-text query for it hits, and a field that is not indexed has no postings.
- Address parsing and printing: an address field carries the table from texts to addresses and the one from addresses to their texts.
- The index keeps dates to the precision of their field; how Tantivy rounds date terms is not part of this model.
- Offsets of time zones, texts of numbers and numbers in texts are left to the cast kernel; local times that a zone does not have are not part of this model.
- Errors that end a scan from outside the model: a failing fast-field reader, a segment ordinal above 32 bits, a failing task join.
- A budget of more than `usize::MAX` rows: no limit stands for that many.
- A receiver that refuses a batch refuses all later ones; the code tries the remaining segments all the same, and so does the model.
- A batch size of zero: `emit_sliced_batch` would not terminate, so the sliced top-k answer asks for at least one.
- Nullability, metadata and the item-field names of lists are not compared by the type merge; the model's list type is its item type.
- Multi-valued group fields, more than 2^32 / 10 groups, and the conversion of keys and numbers to the type of their column; keys of address columns are addresses here, and texts in the index's results.
- The rewrite's other guards: a filter left above the scan, a filtered aggregate, or a field missing from a split's index keeps DataFusion's aggregate.
- Row limits under an aggregate, histogram and range buckets, percentiles and statistics aggregates, and bucket order.
- AggregationStates.TwoPhasesAnswerTheQuery: the final aggregate is a reference function, and its average over no value is NULL by definition here.
- AggregationPushdown.RewrittenAggregateAnswersTheQuery: asks that no state column be named `doc_count`, which the code takes for the number of documents.
- AggregationPushdown.OnePhaseAnswersTheQuery: an output with the name of the group column, which the code fills with the keys, is not considered.
- FilterTranslation.TranslationIsExact: asks that cells stand for indexed values and can be compared with the literals, and for addresses that the comparison is safe both ways; `ShownCells` and `LostRows` say when that is so.
- Pushdown.ScanSplit: asks that filters reported Inexact meet `Pushable` and look at cells that stand for indexed values; without it `LostRows` shows lost rows.
- Pushdown.MissingFieldIsNeverTrue: two satisfiable comparisons of internal columns that contradict each other are not seen to do so.
- TypeCoercion.InferredSchemaIsExecutable: is about schemas derived from an index; `ProjectionRunsWhen` is the exact condition for any others.
- AggregationExec.AggregateTable: says nothing of columns that the table does not show as their metric needs it, for which `CoercedAggregates` has the exact conditions, or of expressions without a column argument other than row counts, for which there are lemmas of their own.
- CoercedAggregates.BucketsAreGroupsWhen: leaves out address columns.
- StreamPipeline.NeverStuck: a step of each party is atomic, and the scanner looks at the cancel flag only between batches. The flag is a relaxed atomic, so a look may come too early; `CancelIsPrompt` is about looks that see it.
- ScanSchema.PlanScanSchema: a projection index beyond the unified schema, on which the code panics, is excluded.
- BatchAssembly.FinalBatch: asks that no projected fast field be called `_score` or `_document`. Of columns with one name the first is shown under it.
- DictionaryColumns.BuildDictionaryArray: asks that the cache have the field's own dictionary under its name; with a repeated name the last one is cached.
- PlanCodec.ShipPlan: split descriptors travel as opaque values.
- AggregationExec.ExecuteFinalAggBatch: asks for at least one split.
