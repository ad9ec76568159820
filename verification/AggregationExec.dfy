/** Running a rewritten aggregate: the documents of each split, the merge, and the partitions. */
module AggregationExec {
  import opened Prelude
  import opened Expressions
  import opened IndexQueries
  import opened FullText
  import opened Pushdown
  import opened AggregationStates
  import opened AggregationPushdown
  import opened AggregationBatches

  /** The documents of a split that are aggregated. */
  ghost function SeenDocs(docs: seq<Doc>, exprs: seq<Expr>, raws: seq<Pair>, schema: Schema): seq<Doc> {
    if docs == [] then []
    else
      var last := docs[|docs| - 1];
      SeenDocs(docs[..|docs| - 1], exprs, raws, schema) +
      if PushedMeaning(exprs, schema, last) && FullTextMeaning(raws, [], [], RowOf(last)) then [last] else []
  }

  lemma {:induction false} SeenAreVisited(
      docs: seq<Doc>, q: Option<IndexQueries.Query>, exprs: seq<Expr>, raws: seq<Pair>, schema: Schema)
    requires forall i :: 0 <= i < |docs| ==>
      (MatchesOptional(q, schema, docs[i]) <==>
       PushedMeaning(exprs, schema, docs[i]) && FullTextMeaning(raws, [], [], RowOf(docs[i])))
    ensures Visited(docs, q, schema) == SeenDocs(docs, exprs, raws, schema)
  {
    if docs == [] {
    } else {
      SeenAreVisited(docs[..|docs| - 1], q, exprs, raws, schema);
    }
  }

  ghost predicate IsPreBuilt(preBuilt: Option<IndexQueries.Query>, exprs: seq<Expr>, schema: Schema) {
    preBuilt.Some? ==> forall doc :: MatchesOptional(preBuilt, schema, doc) <==> PushedMeaning(exprs, schema, doc)
  }

  datatype AggError = Cancelled | Unparsable(call: Pair) | Refused(batch: BatchError)

  method ExecuteSplitIntermediateAgg(
      split: Split, exprs: seq<Expr>, preBuilt: Option<IndexQueries.Query>, raws: seq<Pair>, terms: Terms)
    returns (r: Result<Results, AggError>)
    requires ValidSplit(split) && IsPreBuilt(preBuilt, exprs, split.schema)
    ensures r.Err? <==> ParsingFails(split, raws, [], [])
    ensures r.Err? ==> r.error.Unparsable?
    ensures r.Ok? ==> r.value == Collect(SeenDocs(split.docs, exprs, raws, split.schema), terms.field, terms.subs)
  {
    var fastFieldQuery := preBuilt;
    if preBuilt.None? {
      fastFieldQuery := BuildSplitFastFieldQuery(exprs, split.schema);
    }
    var query := BuildCombinedQuery(split, fastFieldQuery, raws, [], []);
    if query.Err? {
      return Err(Unparsable(query.error));
    }
    var docs := VisitDocs(split, query.value);
    SeenAreVisited(split.docs, query.value, exprs, raws, split.schema);
    return Ok(Collect(docs, terms.field, terms.subs));
  }

  ghost function SeenPerSplit(splits: seq<Split>, exprs: seq<Expr>, raws: seq<Pair>): (seen: seq<seq<Doc>>)
    ensures |seen| == |splits|
    ensures forall i :: 0 <= i < |splits| ==>
      seen[i] == SeenDocs(splits[i].docs, exprs, raws, splits[i].schema)
  {
    seq(|splits|, i requires 0 <= i < |splits| => SeenDocs(splits[i].docs, exprs, raws, splits[i].schema))
  }

  ghost predicate AnyFails(splits: seq<Split>, raws: seq<Pair>) {
    exists i :: 0 <= i < |splits| && ParsingFails(splits[i], raws, [], [])
  }

  /** Only a raised flag or a rejected call is an error, and a rejected call always is one. */
  ghost predicate FailsRightly<T>(
    r: Result<T, AggError>, splits: seq<Split>, raws: seq<Pair>, cancelled: nat -> bool)
  {
    && (r.Err? && r.error.Cancelled? ==> exists poll :: cancelled(poll))
    && (r.Err? && r.error.Unparsable? ==> AnyFails(splits, raws))
    && (AnyFails(splits, raws) ==> r.Err?)
  }

  /** None of the first polls sees the flag. */
  ghost predicate NoneCancelled(cancelled: nat -> bool, polls: nat) {
    forall poll :: 0 <= poll < polls ==> !cancelled(poll)
  }

  method CollectPartials(
      splits: seq<Split>, exprs: seq<Expr>, raws: seq<Pair>, terms: Terms, cancelled: nat -> bool)
    returns (r: Result<seq<Results>, AggError>)
    requires forall i :: 0 <= i < |splits| ==> ValidSplit(splits[i])
    ensures r.Ok? ==> AreResultsOf(r.value, SeenPerSplit(splits, exprs, raws), terms.field, terms.subs)
    ensures FailsRightly(r, splits, raws, cancelled) && (r.Err? ==> !r.error.Refused?)
    ensures r.Ok? ==> forall poll :: 1 <= poll <= |splits| ==> !cancelled(poll)
  {
    var partials: seq<Results> := [];
    for n := 0 to |splits|
      invariant |partials| == n && forall poll :: 1 <= poll <= n ==> !cancelled(poll)
      invariant forall i :: 0 <= i < n ==> !ParsingFails(splits[i], raws, [], [])
      invariant forall i :: 0 <= i < n ==>
        partials[i] == Collect(SeenDocs(splits[i].docs, exprs, raws, splits[i].schema), terms.field, terms.subs)
    {
      if cancelled(n + 1) {
        return Err(Cancelled);
      }
      var partial := ExecuteSplitIntermediateAgg(splits[n], exprs, None, raws, terms);
      if partial.Err? {
        return Err(partial.error);
      }
      partials := partials + [partial.value];
    }
    return Ok(partials);
  }

  /** One result for all splits: the aggregation of all their documents. */
  method MergeSplits(
      splits: seq<Split>, exprs: seq<Expr>, preBuilt: Option<IndexQueries.Query>, raws: seq<Pair>, terms: Terms,
      cancelled: nat -> bool)
    returns (r: Result<Results, AggError>)
    requires splits != [] && forall i :: 0 <= i < |splits| ==> ValidSplit(splits[i])
    requires |splits| == 1 ==> IsPreBuilt(preBuilt, exprs, splits[0].schema)
    ensures r.Ok? ==> r.value == Collect(Flatten(SeenPerSplit(splits, exprs, raws)), terms.field, terms.subs)
    ensures FailsRightly(r, splits, raws, cancelled) && (r.Err? ==> !r.error.Refused?)
    ensures r.Ok? ==> NoneCancelled(cancelled, if |splits| == 1 then 1 else |splits| + 2)
  {
    if cancelled(0) {
      return Err(Cancelled);
    }
    ghost var seen := SeenPerSplit(splits, exprs, raws);
    if |splits| == 1 {
      FlattenOne(seen);
      r := ExecuteSplitIntermediateAgg(splits[0], exprs, preBuilt, raws, terms);
      return;
    }
    var partials := CollectPartials(splits, exprs, raws, terms, cancelled);
    if partials.Err? {
      return Err(partials.error);
    }
    if cancelled(|splits| + 1) {
      return Err(Cancelled);
    }
    var merged := MergeIntermediateAggResults(partials.value, seen, terms.field, terms.subs);
    return Ok(merged);
  }

  /** The buckets are those of the results, each once, in any order. */
  ghost predicate Enumerates(buckets: Buckets, results: Results) {
    && (forall b :: 0 <= b < |buckets| ==> buckets[b].0 in results && results[buckets[b].0] == buckets[b].1)
    && (forall b, d :: 0 <= b < d < |buckets| ==> buckets[b].0 != buckets[d].0)
    && (forall key :: key in results ==> HasBucket(buckets, key))
  }

  ghost predicate HasBucket(buckets: Buckets, key: Value) {
    exists b :: 0 <= b < |buckets| && buckets[b].0 == key
  }

  method BucketsOf(results: Results) returns (buckets: Buckets)
    ensures Enumerates(buckets, results)
  {
    buckets := [];
    var pending := results.Keys;
    while pending != {}
      invariant pending <= results.Keys
      invariant forall b :: 0 <= b < |buckets| ==>
        buckets[b].0 in results && buckets[b].0 !in pending && results[buckets[b].0] == buckets[b].1
      invariant forall b, d :: 0 <= b < d < |buckets| ==> buckets[b].0 != buckets[d].0
      invariant forall key :: key in results && key !in pending ==> HasBucket(buckets, key)
      decreases |pending|
    {
      var key :| key in pending;
      ghost var before := buckets;
      buckets := buckets + [(key, results[key])];
      pending := pending - {key};
      assert buckets[|before|].0 == key;
      forall other | other in results && other !in pending
        ensures HasBucket(buckets, other)
      {
        if other != key {
          var b :| 0 <= b < |before| && before[b].0 == other;
          assert buckets[b].0 == other;
        }
      }
    }
  }

  /** The final batch: a row for every bucket. */
  datatype AggBatch = AggBatch(buckets: Buckets, columns: seq<OutputColumn>)

  ghost predicate IsBatchOf(batch: AggBatch, results: Results, terms: Terms, fields: seq<OutputField>) {
    && Enumerates(batch.buckets, results) && |batch.columns| == |fields|
    && (forall c :: 0 <= c < |fields| ==> IsOutput(batch.columns[c], fields[c].name, batch.buckets, terms))
  }

  /** Some field does not fit what the results have for it. */
  ghost predicate IsRefused(results: Results, terms: Terms, fields: seq<OutputField>) {
    fields == [] ||
    exists buckets, c :: 0 <= c < |fields| && Enumerates(buckets, results) && !OutputFits(fields[c], buckets, terms)
  }

  /**
   The batch of all splits: a row for every group of all their documents, filled by name. It fails only if it is
   cancelled, if a split's parser rejects a call, or if a field does not fit.
  */
  method ExecuteFinalAggBatch(
      splits: seq<Split>, exprs: seq<Expr>, preBuilt: Option<IndexQueries.Query>, raws: seq<Pair>, terms: Terms,
      fields: seq<OutputField>, cancelled: nat -> bool)
    returns (r: Result<AggBatch, AggError>)
    requires splits != [] && forall i :: 0 <= i < |splits| ==> ValidSplit(splits[i])
    requires |splits| == 1 ==> IsPreBuilt(preBuilt, exprs, splits[0].schema)
    ensures r.Ok? ==>
      IsBatchOf(r.value, Collect(Flatten(SeenPerSplit(splits, exprs, raws)), terms.field, terms.subs), terms, fields)
    ensures FailsRightly(r, splits, raws, cancelled)
    ensures r.Ok? ==> NoneCancelled(cancelled, if |splits| == 1 then 1 else |splits| + 3)
    ensures r.Err? && r.error.Refused? ==>
      IsRefused(Collect(Flatten(SeenPerSplit(splits, exprs, raws)), terms.field, terms.subs), terms, fields)
  {
    var merged := MergeSplits(splits, exprs, preBuilt, raws, terms, cancelled);
    if merged.Err? {
      return Err(merged.error);
    }
    var buckets := BucketsOf(merged.value);
    var columns := TermsBucketToBatch(buckets, terms, fields);
    if columns.Err? {
      return Err(Refused(columns.error));
    }
    if |splits| != 1 && cancelled(|splits| + 2) {
      return Err(Cancelled);
    }
    return Ok(AggBatch(buckets, columns.value));
  }

  // ---------------------------------------------------------------------------
  // The answer
  // ---------------------------------------------------------------------------

  /** The rewrite takes place directly above a scan: no filter is left between, and nothing pushed down is dropped. */
  ghost predicate IsRewritable(filters: seq<Expr>, splits: seq<Split>) {
    && Residual(filters, splits) == []
    && (forall i :: 0 <= i < |splits| ==>
          ValidSplit(splits[i]) &&
          DropsNothing(
            splits[i].schema, Collected(filters, splits).raws, Collected(filters, splits).nots,
            Collected(filters, splits).groups))
  }

  lemma {:induction false} ReportedHasAll(report: Report, filters: seq<Expr>, splits: seq<Split>, f: Expr)
    requires f in filters && ReportFor(f, splits) == report
    ensures f in Reported(report, filters, splits)
  {
    if f == filters[|filters| - 1] {
    } else {
      ReportedHasAll(report, filters[..|filters| - 1], splits, f);
    }
  }

  /** A document is aggregated if and only if its row satisfies the query. */
  lemma {:induction false} SeenIsSatisfying(filters: seq<Expr>, splits: seq<Split>, i: nat, doc: Doc)
    requires IsRewritable(filters, splits) && i < |splits| && ValidDoc(splits[i].schema, doc)
    ensures var pushed := Collected(filters, splits);
      (PushedMeaning(pushed.fastField, splits[i].schema, doc) && FullTextMeaning(pushed.raws, [], [], RowOf(doc))) <==>
      Satisfies(RowOf(doc), filters)
  {
    var pushed, schema := Collected(filters, splits), splits[i].schema;
    forall f | f in filters
      ensures ReportFor(f, splits) != Inexact
    {
      ReportedHasAll(ReportFor(f, splits), filters, splits, f);
      assert forall g :: g in Reported(Inexact, filters, splits) ==> g in Residual(filters, splits);
    }
    ScanAndResidualAnswerTheQuery(filters, splits, i, doc);
    AggregateSeesTheScanWhen(schema, pushed.raws, pushed.nots, pushed.groups);
  }

  lemma {:induction false} SeenAreFilterRows(filters: seq<Expr>, splits: seq<Split>, i: nat, docs: seq<Doc>)
    requires IsRewritable(filters, splits) && i < |splits|
    requires forall n :: 0 <= n < |docs| ==> ValidDoc(splits[i].schema, docs[n])
    ensures var pushed := Collected(filters, splits);
      SeenDocs(docs, pushed.fastField, pushed.raws, splits[i].schema) == FilterRows(docs, filters)
  {
    if docs == [] {
    } else {
      SeenAreFilterRows(filters, splits, i, docs[..|docs| - 1]);
      SeenIsSatisfying(filters, splits, i, docs[|docs| - 1]);
    }
  }

  lemma {:induction false} FlattenFiltered(parts: seq<seq<Doc>>, splits: seq<Split>, filters: seq<Expr>)
    requires |parts| == |splits|
    requires forall i :: 0 <= i < |splits| ==> parts[i] == FilterRows(splits[i].docs, filters)
    ensures Flatten(parts) == FilterRows(AllDocs(splits), filters)
  {
    if splits == [] {
    } else {
      FlattenFiltered(parts[1..], splits[1..], filters);
      FilterRowsAppend(splits[0].docs, AllDocs(splits[1..]), filters);
    }
  }

  /** All documents aggregated, split by split, are the rows of the table that satisfy the query. */
  lemma {:induction false} SeenAreTheQuerysRows(filters: seq<Expr>, splits: seq<Split>)
    requires IsRewritable(filters, splits)
    ensures var pushed := Collected(filters, splits);
      Flatten(SeenPerSplit(splits, pushed.fastField, pushed.raws)) == FilterRows(AllDocs(splits), filters)
  {
    var pushed := Collected(filters, splits);
    var seen := SeenPerSplit(splits, pushed.fastField, pushed.raws);
    forall i | 0 <= i < |splits|
      ensures seen[i] == FilterRows(splits[i].docs, filters)
    {
      SeenAreFilterRows(filters, splits, i, splits[i].docs);
    }
    FlattenFiltered(seen, splits, filters);
  }

  /** In every row, the output of an expression over a column is SQL's answer for the group, or a sum over no value. */
  ghost predicate AnswersSql(
    output: OutputColumn, functionName: string, column: string, rows: seq<Doc>, buckets: Buckets, groupField: string)
  {
    && output.ValueColumn? && |output.values| == |buckets|
    && (forall b :: 0 <= b < |buckets| ==>
          (IsAnswerOf(output.values[b], functionName, SqlCells(rows, groupField, buckets[b].0, column)) <==>
           (functionName == "sum" ==> SqlCells(rows, groupField, buckets[b].0, column) != [])))
  }

  /** In every row, the output is the number of rows of the group. */
  ghost predicate CountsRows(output: OutputColumn, rows: seq<Doc>, buckets: Buckets, groupField: string) {
    && output.ValueColumn? && |output.values| == |buckets|
    && (forall b :: 0 <= b < |buckets| ==>
          output.values[b] == Some(|Group(View(rows), groupField, buckets[b].0)| as real))
  }

  lemma {:induction false} OutputAnswersSql(
      agg: AggExpr, column: string, rows: seq<Doc>, terms: Terms, batch: AggBatch,
      fields: seq<OutputField>, c: nat)
    requires IsBatchOf(batch, Collect(rows, terms.field, terms.subs), terms, fields)
    requires ServesOutput(terms.subs, agg) && agg.name != "doc_count" && agg.name != terms.field
    requires agg.column == Some(column)
    requires ShownAsIndexed(rows, terms.field) && AnswerableBy(agg.functionName, rows, column)
    requires c < |fields| && fields[c].name == agg.name
    ensures AnswersSql(batch.columns[c], agg.functionName, column, rows, batch.buckets, terms.field)
  {
    forall b | 0 <= b < |batch.buckets|
      ensures var values := batch.columns[c].values;
        IsAnswerOf(values[b], agg.functionName, SqlCells(rows, terms.field, batch.buckets[b].0, column)) <==>
        (agg.functionName == "sum" ==> SqlCells(rows, terms.field, batch.buckets[b].0, column) != [])
    {
      OnePhaseAnswersTheQuery(agg, column, rows, terms.field, batch.buckets[b].0, terms.subs);
    }
  }

  lemma {:induction false} OutputCountsRows(
      agg: AggExpr, rows: seq<Doc>, terms: Terms, batch: AggBatch, fields: seq<OutputField>, c: nat)
    requires IsBatchOf(batch, Collect(rows, terms.field, terms.subs), terms, fields)
    requires ServesOutput(terms.subs, agg) && IsRowCount(agg, rows, terms)
    requires c < |fields| && fields[c].name == agg.name
    ensures CountsRows(batch.columns[c], rows, batch.buckets, terms.field)
  {
    CountNames(agg.name);
    forall b | 0 <= b < |batch.buckets|
      ensures batch.columns[c].values[b] == Some(|Group(View(rows), terms.field, batch.buckets[b].0)| as real)
    {
      ViewGroupSize(rows, terms.field, batch.buckets[b].0);
      OnePhaseWithoutColumn(agg, Group(rows, terms.field, batch.buckets[b].0), terms.subs);
    }
  }

  /** The expression is over a column that the table shows as its function needs it, and has a field to itself. */
  ghost predicate IsAnswerable(agg: AggExpr, rows: seq<Doc>, terms: Terms) {
    && agg.column.Some? && agg.name != "doc_count" && agg.name != terms.field
    && ShownAsIndexed(rows, terms.field) && AnswerableBy(agg.functionName, rows, agg.column.value)
  }

  /** A row count under the name the engine gives it. */
  ghost predicate IsRowCount(agg: AggExpr, rows: seq<Doc>, terms: Terms) {
    && agg.column.None? && agg.functionName == "count" && agg.name != terms.field
    && (exists rest :: agg.name == "count(" + rest || agg.name == "COUNT(" + rest)
    && ShownAsIndexed(rows, terms.field)
  }

  /** The column of an expression holds SQL's answers. */
  ghost predicate IsAnswered(batch: AggBatch, terms: Terms, agg: AggExpr, c: nat, rows: seq<Doc>)
    requires c < |batch.columns|
  {
    && (IsAnswerable(agg, rows, terms) ==>
          AnswersSql(batch.columns[c], agg.functionName, agg.column.value, rows, batch.buckets, terms.field))
    && (IsRowCount(agg, rows, terms) ==> CountsRows(batch.columns[c], rows, batch.buckets, terms.field))
  }

  /** The rows of the batch are SQL's groups, that for NULL apart, and every such expression has SQL's answers. */
  ghost predicate AnswersTheAggregate(
    batch: AggBatch, terms: Terms, aggs: seq<AggExpr>, fields: seq<OutputField>, rows: seq<Doc>)
  {
    && IsBatchOf(batch, Collect(rows, terms.field, terms.subs), terms, fields)
    && (ShownAsIndexed(rows, terms.field) ==>
          forall key :: key in Keys(View(rows), terms.field) <==> HasBucket(batch.buckets, key))
    && (forall i, c ::
          0 <= i < |aggs| && 0 <= c < |fields| && fields[c].name == aggs[i].name ==>
            IsAnswered(batch, terms, aggs[i], c, rows))
  }

  lemma {:induction false} BatchAnswers(
      batch: AggBatch, terms: Terms, aggs: seq<AggExpr>, fields: seq<OutputField>, rows: seq<Doc>)
    requires IsBatchOf(batch, Collect(rows, terms.field, terms.subs), terms, fields)
    requires forall i :: 0 <= i < |aggs| ==> ServesOutput(terms.subs, aggs[i])
    ensures AnswersTheAggregate(batch, terms, aggs, fields, rows)
  {
    if ShownAsIndexed(rows, terms.field) {
      ViewHasKeys(rows, terms.field);
      assert forall key :: HasBucket(batch.buckets, key) ==> key in Collect(rows, terms.field, terms.subs);
    }
    forall i, c | 0 <= i < |aggs| && 0 <= c < |fields| && fields[c].name == aggs[i].name
      ensures IsAnswered(batch, terms, aggs[i], c, rows)
    {
      if IsAnswerable(aggs[i], rows, terms) {
        OutputAnswersSql(aggs[i], aggs[i].column.value, rows, terms, batch, fields, c);
      }
      if IsRowCount(aggs[i], rows, terms) {
        OutputCountsRows(aggs[i], rows, terms, batch, fields, c);
      }
    }
  }

  /**
   A whole aggregate query in one phase: plan the filters, derive the sub-aggregations, run them on every split, merge,
   and build the batch. It answers the aggregate over the rows that satisfy the query. `None` leaves the aggregate to
   the engine.
  */
  method AggregateTable(
      filters: seq<Expr>, splits: seq<Split>, groups: seq<Option<string>>, aggs: seq<AggExpr>,
      fields: seq<OutputField>, cancelled: nat -> bool)
    returns (r: Result<Option<(Terms, AggBatch)>, AggError>)
    requires splits != [] && IsRewritable(filters, splits)
    ensures r.Ok? && r.value.Some? ==>
      groups == [Some(r.value.value.0.field)] &&
      (DistinctOutputs(aggs) ==>
         AnswersTheAggregate(
           r.value.value.1, r.value.value.0, aggs, fields, FilterRows(AllDocs(splits), filters)))
    ensures FailsRightly(r, splits, Collected(filters, splits).raws, cancelled) || (r.Ok? && r.value.None?)
    ensures r.Err? && r.error.Refused? ==>
      exists terms: Terms ::
        IsRefused(Collect(FilterRows(AllDocs(splits), filters), terms.field, terms.subs), terms, fields)
  {
    var derived := DeriveTantivyAggregations(groups, aggs);
    if derived.None? {
      return Ok(None);
    }
    var terms := derived.value;
    var pushed := CollectPushedDownFilters(filters, splits);
    var preBuilt: Option<IndexQueries.Query> := None;
    if |splits| == 1 {
      preBuilt := BuildSplitFastFieldQuery(pushed.fastField, splits[0].schema);
    }
    var batch := ExecuteFinalAggBatch(splits, pushed.fastField, preBuilt, pushed.raws, terms, fields, cancelled);
    SeenAreTheQuerysRows(filters, splits);
    if batch.Err? {
      return Err(batch.error);
    }
    if DistinctOutputs(aggs) {
      BatchAnswers(batch.value, terms, aggs, fields, FilterRows(AllDocs(splits), filters));
    }
    return Ok(Some((terms, batch.value)));
  }

  /**
   The same in two phases: every partition aggregates its split, and the final aggregate over the partial cells is
   SQL's answer over the rows that satisfy the query.
  */
  lemma {:induction false} PartitionsAnswerTheAggregate(
      filters: seq<Expr>, splits: seq<Split>, agg: AggExpr, metric: Metric, column: string, terms: Terms, key: Value)
    requires IsRewritable(filters, splits) && Serves(terms.subs, agg) && HasStates(agg) && "doc_count" !in agg.states
    requires MetricOf(agg.functionName) == Some(metric) && agg.column == Some(column)
    requires var rows := FilterRows(AllDocs(splits), filters);
      && key in Keys(rows, terms.field) && ShownAsIndexed(rows, terms.field)
      && AnswerableBy(agg.functionName, rows, column)
    ensures var pushed, rows := Collected(filters, splits), FilterRows(AllDocs(splits), filters);
      var seen := SeenPerSplit(splits, pushed.fastField, pushed.raws);
      var cells := PartialCells(agg, terms.subs, seen, terms.field, key);
      && cells != [] && AreStateRows(cells, metric)
      && (IsAnswerOf(FinalValue(metric, cells), agg.functionName, SqlCells(rows, terms.field, key, column)) <==>
          (agg.functionName == "sum" ==> SqlCells(rows, terms.field, key, column) != []))
  {
    var pushed := Collected(filters, splits);
    var seen := SeenPerSplit(splits, pushed.fastField, pushed.raws);
    SeenAreTheQuerysRows(filters, splits);
    RewrittenAggregateAnswersTheQuery(agg, metric, column, terms.subs, seen, terms.field, key);
  }

  /** The row counts of the partitions add up to the number of rows of the group that satisfy the query. */
  lemma {:induction false} PartitionsCountTheRows(
      filters: seq<Expr>, splits: seq<Split>, agg: AggExpr, terms: Terms, key: Value)
    requires IsRewritable(filters, splits) && Serves(terms.subs, agg) && HasStates(agg) && agg.column.None?
    requires exists rest :: agg.states[0] == "count(" + rest || agg.states[0] == "COUNT(" + rest
    requires var rows := FilterRows(AllDocs(splits), filters);
      key in Keys(rows, terms.field) && ShownAsIndexed(rows, terms.field)
    ensures var pushed, rows := Collected(filters, splits), FilterRows(AllDocs(splits), filters);
      var seen := SeenPerSplit(splits, pushed.fastField, pushed.raws);
      var cells := PartialCells(agg, terms.subs, seen, terms.field, key);
      && cells != [] && AreStateRows(cells, Count)
      && FinalValue(Count, cells) == Some(|Group(View(rows), terms.field, key)| as real)
  {
    var pushed, rows := Collected(filters, splits), FilterRows(AllDocs(splits), filters);
    CountNames(agg.states[0]);
    SeenAreTheQuerysRows(filters, splits);
    RowCountsAddUp(agg, terms.subs, SeenPerSplit(splits, pushed.fastField, pushed.raws), terms.field, key);
    NoSuchGroup(rows, terms.field, key);
    ViewGroupSize(rows, terms.field, key);
  }

  // ---------------------------------------------------------------------------
  // Partitions
  // ---------------------------------------------------------------------------

  datatype OutputMode = FinalMerged | PartialStates

  function OutputPartitions(mode: OutputMode, splits: nat): nat {
    match mode
    case FinalMerged => 1
    case PartialStates => if splits > 1 then splits else 1
  }

  /** The splits a partition aggregates. */
  function SplitsOf(mode: OutputMode, splits: nat, partition: nat): seq<nat> {
    match mode
    case FinalMerged => if partition != 0 then [] else seq(splits, i => i)
    case PartialStates => if partition >= splits then [] else [partition]
  }

  function SplitsUpTo(mode: OutputMode, splits: nat, partitions: nat): seq<nat> {
    if partitions == 0 then []
    else SplitsUpTo(mode, splits, partitions - 1) + SplitsOf(mode, splits, partitions - 1)
  }

  lemma {:induction false} OnePartitionPerSplit(splits: nat, n: nat)
    requires n <= splits
    ensures SplitsUpTo(PartialStates, splits, n) == seq(n, i => i)
  {
    if n == 0 {
    } else {
      OnePartitionPerSplit(splits, n - 1);
    }
  }

  /** The announced partitions read every split once, in order, and none of them for nothing; any other one is empty. */
  lemma {:induction false} PartitionsReadEverySplitOnce(mode: OutputMode, splits: nat)
    ensures SplitsUpTo(mode, splits, OutputPartitions(mode, splits)) == seq(splits, i => i)
    ensures forall partition :: partition >= OutputPartitions(mode, splits) ==> SplitsOf(mode, splits, partition) == []
    ensures OutputPartitions(mode, splits) > 0
    ensures splits > 0 ==>
      forall partition :: 0 <= partition < OutputPartitions(mode, splits) ==> SplitsOf(mode, splits, partition) != []
  {
    if mode.PartialStates? && splits > 0 {
      OnePartitionPerSplit(splits, splits);
    } else {
      assert SplitsUpTo(mode, splits, 1) == SplitsUpTo(mode, splits, 0) + SplitsOf(mode, splits, 0);
    }
  }
}
